/** The order keys a specification can sort by, and the sort that the
    `OrderBy` / `OrderByDescending` stages of a query perform. */
module Ordering {
  import opened Entities

  /** The two projections the product specifications order by:
      `P => P.Price` and `P => P.Name`. */
  datatype OrderKey = Price | Name

  /** Ordinal lexicographic order on strings (by character code), standing in
      for the database collation. */
  predicate LexLe(a: string, b: string)
    ensures a <= b ==> LexLe(a, b)
    ensures LexLe(a, b) && a != [] ==> b != [] && a[0] <= b[0]
    decreases |a|
  {
    if a == [] then true
    else if b == [] then false
    else if a[0] != b[0] then a[0] < b[0]
    else LexLe(a[1..], b[1..])
  }

  lemma {:induction false} LexLeTotal(a: string, b: string)
    ensures LexLe(a, b) || LexLe(b, a)
    decreases |a|
  {
    if a != [] && b != [] && a[0] == b[0] {
      LexLeTotal(a[1..], b[1..]);
    }
  }

  /** Two names that sort no later than each other are equal. */
  lemma {:induction false} LexLeAntisymmetric(a: string, b: string)
    requires LexLe(a, b) && LexLe(b, a)
    ensures a == b
    decreases |a|
  {
    if a != [] && b != [] && a[0] == b[0] {
      LexLeAntisymmetric(a[1..], b[1..]);
      assert a == [a[0]] + a[1..] && b == [b[0]] + b[1..];
    }
  }

  lemma {:induction false} LexLeTransitive(a: string, b: string, c: string)
    requires LexLe(a, b) && LexLe(b, c)
    ensures LexLe(a, c)
    decreases |a|
  {
    if a != [] && b != [] && c != [] && a[0] == b[0] && b[0] == c[0] {
      LexLeTransitive(a[1..], b[1..], c[1..]);
    }
  }

  /** `a` sorts no later than `b` by the ascending order of `key`. */
  predicate KeyLe(key: OrderKey, a: Product, b: Product) {
    match key
    case Price => a.price <= b.price
    case Name => LexLe(a.name, b.name)
  }

  /** `a` may stand directly before `b` in the order of `key`, ascending or
      descending. */
  predicate Precedes(key: OrderKey, descending: bool, a: Product, b: Product) {
    if descending then KeyLe(key, b, a) else KeyLe(key, a, b)
  }

  lemma PrecedesTotal(key: OrderKey, descending: bool, a: Product, b: Product)
    ensures Precedes(key, descending, a, b) || Precedes(key, descending, b, a)
  {
    if key == Name {
      LexLeTotal(a.name, b.name);
    }
  }

  lemma PrecedesTransitive(key: OrderKey, descending: bool, a: Product, b: Product, c: Product)
    requires Precedes(key, descending, a, b) && Precedes(key, descending, b, c)
    ensures Precedes(key, descending, a, c)
  {
    if key == Name {
      if descending {
        LexLeTransitive(c.name, b.name, a.name);
      } else {
        LexLeTransitive(a.name, b.name, c.name);
      }
    }
  }

  /** Every two consecutive rows are in the order of `key`. */
  predicate Sorted(s: seq<Product>, key: OrderKey, descending: bool) {
    forall i :: 0 < i < |s| ==> Precedes(key, descending, s[i - 1], s[i])
  }

  /** Consecutive order extends to every pair of rows. */
  lemma {:induction false} SortedPairwise(s: seq<Product>, key: OrderKey, descending: bool, i: int, j: int)
    requires Sorted(s, key, descending)
    requires 0 <= i < j < |s|
    ensures Precedes(key, descending, s[i], s[j])
    decreases j - i
  {
    if i + 1 < j {
      SortedPairwise(s, key, descending, i + 1, j);
      PrecedesTransitive(key, descending, s[i], s[i + 1], s[j]);
    }
  }

  /** Inserts `x` before the first row it may precede, so that rows with equal
      keys keep their relative order. */
  function Insert(x: Product, s: seq<Product>, key: OrderKey, descending: bool): (r: seq<Product>)
    requires Sorted(s, key, descending)
    ensures Sorted(r, key, descending)
    ensures multiset(r) == multiset(s) + multiset{x}
    ensures |r| == |s| + 1
    ensures r[0] == x || (s != [] && r[0] == s[0])
    decreases |s|
  {
    if s == [] then [x]
    else if Precedes(key, descending, x, s[0]) then [x] + s
    else
      PrecedesTotal(key, descending, x, s[0]);
      assert s == [s[0]] + s[1..];
      [s[0]] + Insert(x, s[1..], key, descending)
  }

  /** The stable sort of `s` by `key`: the result of `OrderBy(key)` (ascending)
      or `OrderByDescending(key)`. */
  function SortBy(s: seq<Product>, key: OrderKey, descending: bool): (r: seq<Product>)
    ensures Sorted(r, key, descending)
    ensures multiset(r) == multiset(s)
    ensures |r| == |s|
    decreases |s|
  {
    if s == [] then []
    else
      assert s == [s[0]] + s[1..];
      Insert(s[0], SortBy(s[1..], key, descending), key, descending)
  }

  /** A contiguous part of a sorted sequence is sorted. */
  lemma SortedSlice(s: seq<Product>, key: OrderKey, descending: bool, lo: int, hi: int)
    requires Sorted(s, key, descending)
    requires 0 <= lo <= hi <= |s|
    ensures Sorted(s[lo..hi], key, descending)
  {
    var t := s[lo..hi];
    forall i | 0 < i < |t|
      ensures Precedes(key, descending, t[i - 1], t[i])
    {
      assert t[i - 1] == s[lo + i - 1] && t[i] == s[lo + i];
    }
  }
}
