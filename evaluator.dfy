/** The specification evaluator: turns an input query (the rows of the
    products table, in table order) and a specification into the query the
    repository materialises. Queries are modelled by the rows they yield. */
module SpecificationEvaluator {
  import opened Entities
  import opened Ordering
  import opened Specifications

  // ---------------------------------------------------------------------
  // The stages, one function per query operator.

  /** `Where(c)`: the rows satisfying `c`, each as often as in the input. */
  function Where(q: seq<Product>, c: Product -> bool): (r: seq<Product>)
    ensures forall p :: multiset(r)[p] == if c(p) then multiset(q)[p] else 0
    ensures |r| <= |q|
    decreases |q|
  {
    if q == [] then []
    else
      assert q == [q[0]] + q[1..];
      (if c(q[0]) then [q[0]] else []) + Where(q[1..], c)
  }

  /** The number of rows `Skip(count)` drops from a query of `n` rows: a
      count of zero or less drops none. */
  function SkipCount(n: nat, count: int): (k: nat)
    ensures k <= n
    ensures 0 <= count <= n ==> k == count
    ensures count <= 0 ==> k == 0
    ensures count >= n ==> k == n
  {
    if count <= 0 then 0 else if count >= n then n else count
  }

  /** `Skip(count)`: a suffix of the query, the whole query for a count of
      zero or less, and no rows for a count of `|q|` or more. */
  function Skip(q: seq<Product>, count: int): (r: seq<Product>)
    ensures |r| == Max(0, |q| - Max(0, count))
    ensures forall i :: 0 <= i < |r| ==> r[i] == q[|q| - |r| + i]
  {
    q[SkipCount(|q|, count)..]
  }

  /** `Take(count)`: a count of zero or less yields no rows. */
  function Take(q: seq<Product>, count: int): (r: seq<Product>)
    ensures |r| == Max(0, Min(count, |q|))
    ensures forall i :: 0 <= i < |r| ==> r[i] == q[i]
  {
    if count <= 0 then [] else if count >= |q| then q else q[..count]
  }

  /** `Include(inc)` on one row: the navigation property is loaded from its
      table by the foreign key (and is null if the key names no row). */
  function Load(p: Product, inc: Include, tables: RelatedTables): (r: Product)
    ensures r.Unloaded() == p.Unloaded()
    ensures Resolves(p, inc, tables) <==> Loaded(r, inc, tables)
    ensures inc == IncludeType && !Resolves(p, inc, tables) ==> r.productType.None?
    ensures inc == IncludeBrand && !Resolves(p, inc, tables) ==> r.productBrand.None?
    ensures inc == IncludeType ==> r.productBrand == p.productBrand
    ensures inc == IncludeBrand ==> r.productType == p.productType
  {
    match inc
    case IncludeType =>
      p.(productType := if p.productTypeId in tables.types then Some(tables.types[p.productTypeId]) else None)
    case IncludeBrand =>
      p.(productBrand := if p.productBrandId in tables.brands then Some(tables.brands[p.productBrandId]) else None)
  }

  /** `Include(inc)` on a query. */
  function IncludeStage(q: seq<Product>, inc: Include, tables: RelatedTables): (r: seq<Product>)
    ensures |r| == |q|
    ensures forall i :: 0 <= i < |q| ==> r[i].Unloaded() == q[i].Unloaded()
    ensures forall i :: 0 <= i < |q| && Resolves(q[i], inc, tables) ==> Loaded(r[i], inc, tables)
  {
    seq(|q|, i requires 0 <= i < |q| => Load(q[i], inc, tables))
  }

  /** `Includes.Aggregate(q, (acc, inc) => acc.Include(inc))`: a left fold of
      the include stages over the query. */
  function IncludeAll(q: seq<Product>, incs: seq<Include>, tables: RelatedTables): (r: seq<Product>)
    ensures |r| == |q|
    ensures forall i :: 0 <= i < |q| ==> r[i].Unloaded() == q[i].Unloaded()
    decreases |incs|
  {
    if incs == [] then q else IncludeAll(IncludeStage(q, incs[0], tables), incs[1..], tables)
  }

  /** What the include fold does to a single row. */
  function LoadAll(p: Product, incs: seq<Include>, tables: RelatedTables): Product
    decreases |incs|
  {
    if incs == [] then p else LoadAll(Load(p, incs[0], tables), incs[1..], tables)
  }

  /** The criteria stage: skipped when the specification has no criteria. */
  function FilterStage(q: seq<Product>, criteria: Option<Product -> bool>): seq<Product> {
    match criteria
    case None => q
    case Some(c) => Where(q, c)
  }

  /** `p` passes the criteria stage. */
  predicate Accepts(criteria: Option<Product -> bool>, p: Product) {
    criteria.None? || criteria.value(p)
  }

  function AscendingStage(q: seq<Product>, key: Option<OrderKey>): seq<Product> {
    match key
    case None => q
    case Some(k) => SortBy(q, k, false)
  }

  function DescendingStage(q: seq<Product>, key: Option<OrderKey>): seq<Product> {
    match key
    case None => q
    case Some(k) => SortBy(q, k, true)
  }

  /** The rows after filtering and both ordering stages. The descending stage
      is not an alternative to the ascending one: when both keys are set both
      stages run, the descending one last. */
  function Ordered(input: seq<Product>, spec: Specification): seq<Product> {
    DescendingStage(AscendingStage(FilterStage(input, spec.criteria), spec.orderByAsc), spec.orderByDesc)
  }

  /** `Skip(skip).Take(take)` when pagination is enabled. */
  function PaginationStage(q: seq<Product>, spec: Specification): (r: seq<Product>)
    ensures !spec.isPaginationEnabled ==> r == q
    ensures spec.isPaginationEnabled ==> |r| == Max(0, Min(spec.take, |q| - SkipCount(|q|, spec.skip)))
    ensures spec.isPaginationEnabled ==>
              forall i :: 0 <= i < |r| ==> SkipCount(|q|, spec.skip) + i < |q| && r[i] == q[SkipCount(|q|, spec.skip) + i]
  {
    if spec.isPaginationEnabled then
      var s := Skip(q, spec.skip);
      assert s == q[SkipCount(|q|, spec.skip)..];
      Take(s, spec.take)
    else q
  }

  /** The query `GetQuery` builds, as the rows it yields. */
  function Evaluate(input: seq<Product>, spec: Specification, tables: RelatedTables): (r: seq<Product>)
    ensures |r| <= |input|
    ensures spec.isPaginationEnabled && spec.take <= 0 ==> r == []
    ensures !spec.isPaginationEnabled ==> |r| == |FilterStage(input, spec.criteria)|
  {
    OrderedSound(input, spec);
    IncludeAll(PaginationStage(Ordered(input, spec), spec), spec.includes, tables)
  }

  /** `GetQuery`: applies the stages in the order the evaluator does,
      reassigning the query after each one. */
  method GetQuery(inputQuery: seq<Product>, spec: Specification, tables: RelatedTables)
    returns (query: seq<Product>)
    ensures query == Evaluate(inputQuery, spec, tables)
    ensures |query| <= |inputQuery|
    ensures forall r :: r in query ==>
              exists p :: p in inputQuery && Accepts(spec.criteria, p) && r == LoadAll(p, spec.includes, tables)
  {
    query := inputQuery;
    if spec.criteria.Some? {
      query := Where(query, spec.criteria.value);
    }
    if spec.orderByAsc.Some? {
      query := SortBy(query, spec.orderByAsc.value, false);
    }
    if spec.orderByDesc.Some? {
      query := SortBy(query, spec.orderByDesc.value, true);
    }
    if spec.isPaginationEnabled {
      query := Take(Skip(query, spec.skip), spec.take);
    }
    query := IncludeAll(query, spec.includes, tables);
    EvaluateRowsComeFromInput(inputQuery, spec, tables);
  }

  // ---------------------------------------------------------------------
  // Includes.

  /** `inc`'s navigation property of `p` holds the row its foreign key names. */
  predicate Loaded(p: Product, inc: Include, tables: RelatedTables) {
    match inc
    case IncludeType => p.productTypeId in tables.types && p.productType == Some(tables.types[p.productTypeId])
    case IncludeBrand => p.productBrandId in tables.brands && p.productBrand == Some(tables.brands[p.productBrandId])
  }

  /** `inc`'s foreign key of `p` names an existing row. */
  predicate Resolves(p: Product, inc: Include, tables: RelatedTables) {
    match inc
    case IncludeType => p.productTypeId in tables.types
    case IncludeBrand => p.productBrandId in tables.brands
  }

  /** The include fold on a query is the row fold applied to each row: it
      keeps the number of rows and their order. */
  lemma {:induction false} IncludeAllPointwise(q: seq<Product>, incs: seq<Include>, tables: RelatedTables)
    ensures |IncludeAll(q, incs, tables)| == |q|
    ensures forall i :: 0 <= i < |q| ==> IncludeAll(q, incs, tables)[i] == LoadAll(q[i], incs, tables)
    decreases |incs|
  {
    if incs != [] {
      IncludeAllPointwise(IncludeStage(q, incs[0], tables), incs[1..], tables);
    }
  }

  /** Loading navigations changes nothing but the navigation properties, and
      after the fold a navigation is loaded exactly when it already was or it
      was listed and its foreign key resolves. */
  lemma {:induction false} LoadAllEffect(p: Product, incs: seq<Include>, tables: RelatedTables)
    ensures LoadAll(p, incs, tables).Unloaded() == p.Unloaded()
    ensures forall inc :: Loaded(LoadAll(p, incs, tables), inc, tables) <==>
                            Loaded(p, inc, tables) || (inc in incs && Resolves(p, inc, tables))
    decreases |incs|
  {
    if incs != [] {
      var p' := Load(p, incs[0], tables);
      LoadAllEffect(p', incs[1..], tables);
      assert forall inc :: inc in incs <==> inc == incs[0] || inc in incs[1..];
      assert forall inc :: Resolves(p', inc, tables) == Resolves(p, inc, tables);
    }
  }

  /** The include fold keeps the number, the order and the stored contents of
      the rows, and afterwards every listed navigation is loaded on every row
      whose foreign keys resolve. */
  lemma IncludeAllKeepsRows(q: seq<Product>, incs: seq<Include>, tables: RelatedTables)
    ensures |IncludeAll(q, incs, tables)| == |q|
    ensures forall i :: 0 <= i < |q| ==> IncludeAll(q, incs, tables)[i].Unloaded() == q[i].Unloaded()
    ensures forall i :: 0 <= i < |q| ==> IncludeAll(q, incs, tables)[i].id == q[i].id
    ensures forall i, inc :: 0 <= i < |q| && inc in incs && References(q[i], tables) ==>
              Loaded(IncludeAll(q, incs, tables)[i], inc, tables)
  {
    IncludeAllPointwise(q, incs, tables);
    forall i | 0 <= i < |q|
      ensures IncludeAll(q, incs, tables)[i].Unloaded() == q[i].Unloaded()
      ensures IncludeAll(q, incs, tables)[i].id == q[i].id
      ensures forall inc :: inc in incs && References(q[i], tables) ==> Loaded(IncludeAll(q, incs, tables)[i], inc, tables)
    {
      LoadAllEffect(q[i], incs, tables);
      assert IncludeAll(q, incs, tables)[i].Unloaded().id == q[i].Unloaded().id;
    }
  }

  /** Loading navigations keeps a sorted query sorted: the order keys are
      stored columns. */
  lemma IncludeAllKeepsSorted(q: seq<Product>, incs: seq<Include>, tables: RelatedTables, key: OrderKey, descending: bool)
    requires Sorted(q, key, descending)
    ensures Sorted(IncludeAll(q, incs, tables), key, descending)
  {
    IncludeAllKeepsRows(q, incs, tables);
    var r := IncludeAll(q, incs, tables);
    forall i | 0 < i < |r|
      ensures Precedes(key, descending, r[i - 1], r[i])
    {
      assert r[i - 1].Unloaded() == q[i - 1].Unloaded() && r[i].Unloaded() == q[i].Unloaded();
      assert r[i - 1].price == q[i - 1].price && r[i - 1].name == q[i - 1].name;
      assert r[i].price == q[i].price && r[i].name == q[i].name;
    }
  }

  // ---------------------------------------------------------------------
  // Properties of the whole pipeline.

  /** The rows of the criteria stage are input rows that the criteria accept. */
  lemma FilterStageSound(q: seq<Product>, criteria: Option<Product -> bool>)
    ensures forall p :: p in FilterStage(q, criteria) ==> p in q && Accepts(criteria, p)
    ensures forall p :: p in q && Accepts(criteria, p) ==> p in FilterStage(q, criteria)
    ensures criteria.None? ==> FilterStage(q, criteria) == q
  {
    forall p | p in FilterStage(q, criteria)
      ensures p in q && Accepts(criteria, p)
    {
      if criteria.Some? {
        assert multiset(Where(q, criteria.value))[p] > 0;
      }
    }
    forall p | p in q && Accepts(criteria, p)
      ensures p in FilterStage(q, criteria)
    {
      if criteria.Some? {
        assert multiset(q)[p] > 0;
        assert multiset(Where(q, criteria.value))[p] > 0;
      }
    }
  }

  /** The rows after ordering are input rows that the criteria accept. */
  lemma OrderedSound(input: seq<Product>, spec: Specification)
    ensures |Ordered(input, spec)| <= |input|
    ensures forall p :: p in Ordered(input, spec) ==> p in input && Accepts(spec.criteria, p)
  {
    var f := FilterStage(input, spec.criteria);
    FilterStageSound(input, spec.criteria);
    var o := Ordered(input, spec);
    assert multiset(o) == multiset(f);
    forall p | p in o
      ensures p in input && Accepts(spec.criteria, p)
    {
      assert multiset(o)[p] > 0;
      assert p in f;
    }
  }

  /** Every row of the result is an input row that the criteria accept, with
      the listed navigations loaded; the result is never longer than the
      input. */
  lemma EvaluateRowsComeFromInput(input: seq<Product>, spec: Specification, tables: RelatedTables)
    ensures |Evaluate(input, spec, tables)| <= |input|
    ensures forall r :: r in Evaluate(input, spec, tables) ==>
              exists p :: p in input && Accepts(spec.criteria, p) && r == LoadAll(p, spec.includes, tables)
  {
    var o := Ordered(input, spec);
    OrderedSound(input, spec);
    var w := PaginationStage(o, spec);
    assert forall p :: p in w ==> p in o;
    IncludeAllPointwise(w, spec.includes, tables);
    var e := Evaluate(input, spec, tables);
    forall r | r in e
      ensures exists p :: p in input && Accepts(spec.criteria, p) && r == LoadAll(p, spec.includes, tables)
    {
      var i :| 0 <= i < |e| && e[i] == r;
      assert w[i] in o;
    }
  }

  /** With only an ascending key set, the result is non-decreasing in it. */
  lemma EvaluateSortedAscending(input: seq<Product>, spec: Specification, tables: RelatedTables)
    requires spec.orderByAsc.Some? && spec.orderByDesc.None?
    ensures Sorted(Evaluate(input, spec, tables), spec.orderByAsc.value, false)
  {
    var o := Ordered(input, spec);
    var w := PaginationStage(o, spec);
    if spec.isPaginationEnabled {
      var s := Skip(o, spec.skip);
      SortedSlice(o, spec.orderByAsc.value, false, SkipCount(|o|, spec.skip), |o|);
      SortedSlice(s, spec.orderByAsc.value, false, 0, if spec.take <= 0 then 0 else if spec.take >= |s| then |s| else spec.take);
      assert w == s[0..if spec.take <= 0 then 0 else if spec.take >= |s| then |s| else spec.take];
    }
    IncludeAllKeepsSorted(w, spec.includes, tables, spec.orderByAsc.value, false);
  }

  /** With a descending key set, the result is non-increasing in it, whether
      or not an ascending key is set too. */
  lemma EvaluateSortedDescending(input: seq<Product>, spec: Specification, tables: RelatedTables)
    requires spec.orderByDesc.Some?
    ensures Sorted(Evaluate(input, spec, tables), spec.orderByDesc.value, true)
  {
    var o := Ordered(input, spec);
    var w := PaginationStage(o, spec);
    if spec.isPaginationEnabled {
      var s := Skip(o, spec.skip);
      SortedSlice(o, spec.orderByDesc.value, true, SkipCount(|o|, spec.skip), |o|);
      SortedSlice(s, spec.orderByDesc.value, true, 0, if spec.take <= 0 then 0 else if spec.take >= |s| then |s| else spec.take);
      assert w == s[0..if spec.take <= 0 then 0 else if spec.take >= |s| then |s| else spec.take];
    }
    IncludeAllKeepsSorted(w, spec.includes, tables, spec.orderByDesc.value, true);
  }

  function Min(a: int, b: int): int { if a <= b then a else b }

  function Max(a: int, b: int): int { if a >= b then a else b }

  /** With pagination enabled, the result is the ordered rows from position
      `Skip` on, at most `Take` of them, with navigations loaded. */
  lemma EvaluatePaginated(input: seq<Product>, spec: Specification, tables: RelatedTables)
    requires spec.isPaginationEnabled
    ensures var q := Ordered(input, spec);
            var s := SkipCount(|q|, spec.skip);
            && |Evaluate(input, spec, tables)| == Max(0, Min(spec.take, |q| - s))
            && forall i :: 0 <= i < |Evaluate(input, spec, tables)| ==>
                 Evaluate(input, spec, tables)[i] == LoadAll(q[s + i], spec.includes, tables)
  {
    var q := Ordered(input, spec);
    IncludeAllPointwise(PaginationStage(q, spec), spec.includes, tables);
  }

  /** The window starts at `Skip` and has at most `Take` rows. */
  lemma EvaluatePaginatedLength(input: seq<Product>, spec: Specification, tables: RelatedTables)
    requires spec.isPaginationEnabled && spec.skip >= 0
    ensures |Evaluate(input, spec, tables)| == Max(0, Min(spec.take, |Ordered(input, spec)| - spec.skip))
  {
    EvaluatePaginated(input, spec, tables);
  }

  /** `r` is the include fold over the rows of `q` from position `lo` on,
      `|r|` of them. */
  predicate IncludedSlice(r: seq<Product>, q: seq<Product>, lo: nat, incs: seq<Include>, tables: RelatedTables) {
    lo + |r| <= |q| && r == IncludeAll(q[lo..lo + |r|], incs, tables)
  }

  /** For a non-negative `Skip`, the window starts exactly at row `Skip`. */
  lemma EvaluateWindow(input: seq<Product>, spec: Specification, tables: RelatedTables)
    requires spec.isPaginationEnabled && spec.skip >= 0
    ensures var q := Ordered(input, spec);
            var r := Evaluate(input, spec, tables);
            && |r| == Max(0, Min(spec.take, |q| - spec.skip))
            && (spec.skip <= |q| ==> IncludedSlice(r, q, spec.skip, spec.includes, tables))
  {
    var q := Ordered(input, spec);
    assert Evaluate(input, spec, tables) == IncludeAll(PaginationStage(q, spec), spec.includes, tables);
    IncludedWindow(q, spec, tables);
  }

  /** The include fold over the pagination stage of any query `q`. */
  lemma IncludedWindow(q: seq<Product>, spec: Specification, tables: RelatedTables)
    requires spec.isPaginationEnabled && spec.skip >= 0
    ensures var r := IncludeAll(PaginationStage(q, spec), spec.includes, tables);
            && |r| == Max(0, Min(spec.take, |q| - spec.skip))
            && (spec.skip <= |q| ==> IncludedSlice(r, q, spec.skip, spec.includes, tables))
  {
    var w := PaginationStage(q, spec);
    var r := IncludeAll(w, spec.includes, tables);
    if spec.skip <= |q| {
      PaginationSlice(q, spec);
      var slice := q[spec.skip..spec.skip + |w|];
      assert w == slice;
      assert r == IncludeAll(slice, spec.includes, tables);
      assert |r| == |w|;
      assert q[spec.skip..spec.skip + |r|] == slice;
      assert IncludedSlice(r, q, spec.skip, spec.includes, tables);
    } else {
      assert SkipCount(|q|, spec.skip) == |q|;
    }
  }

  /** Within range, the pagination stage is a contiguous slice from `Skip`. */
  lemma PaginationSlice(q: seq<Product>, spec: Specification)
    requires spec.isPaginationEnabled && 0 <= spec.skip <= |q|
    ensures var w := PaginationStage(q, spec);
            spec.skip + |w| <= |q| && w == q[spec.skip..spec.skip + |w|]
  {
    var w := PaginationStage(q, spec);
    var s := q[spec.skip..];
    assert Skip(q, spec.skip) == s;
    assert w == Take(s, spec.take);
    assert w == s[..|w|];
    assert s[..|w|] == q[spec.skip..spec.skip + |w|];
  }

  /** Pagination enabled with `Take` zero yields no rows at all. */
  lemma EvaluateZeroTake(input: seq<Product>, spec: Specification, tables: RelatedTables)
    requires spec.isPaginationEnabled && spec.take <= 0
    ensures Evaluate(input, spec, tables) == []
  {
    EvaluatePaginated(input, spec, tables);
  }

  /** With pagination disabled, the result holds one row per input row that
      the criteria accept. */
  lemma EvaluateUnpaginated(input: seq<Product>, spec: Specification, tables: RelatedTables)
    requires !spec.isPaginationEnabled
    ensures |Evaluate(input, spec, tables)| == |FilterStage(input, spec.criteria)|
    ensures spec.criteria.None? ==> |Evaluate(input, spec, tables)| == |input|
  {
    IncludeAllPointwise(Ordered(input, spec), spec.includes, tables);
  }

  /** No criteria, no ordering, no pagination and no includes: the query is
      the input unchanged. */
  lemma EvaluateNeutral(input: seq<Product>, spec: Specification, tables: RelatedTables)
    requires spec.criteria.None? && spec.orderByAsc.None? && spec.orderByDesc.None?
    requires !spec.isPaginationEnabled && spec.includes == []
    ensures Evaluate(input, spec, tables) == input
  {
  }
}
