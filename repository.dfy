/** The generic repository, for products: four read-only operations over the
    database context. The context is a value, so no operation can change it. */
module GenericRepository {
  import opened Entities
  import opened Ordering
  import opened Specifications
  import opened SpecificationEvaluator
  import opened ProductSpecifications

  /** The database context: the products table, in table order, and the
      brand and type tables its navigation properties are loaded from. */
  datatype Database = Database(products: seq<Product>, tables: RelatedTables)

  /** Every product's foreign keys name existing rows. */
  predicate ReferentiallyIntact(db: Database) {
    forall p :: p in db.products ==> References(p, db.tables)
  }

  /** `GetAllAsync`: every row of the table, unfiltered, in table order, with
      no navigation loaded beyond what the rows hold. */
  function GetAllAsync(db: Database): (r: seq<Product>)
    ensures |r| == |db.products|
    ensures forall i :: 0 <= i < |r| ==> r[i] == db.products[i]
  {
    db.products
  }

  /** The first row of `rows` with the given id, if any. */
  function FindById(rows: seq<Product>, id: int): (r: Option<Product>)
    ensures r.Some? ==> r.value in rows && r.value.id == id
    ensures r.None? <==> forall p :: p in rows ==> p.id != id
    decreases |rows|
  {
    if rows == [] then None
    else if rows[0].id == id then Some(rows[0])
    else
      assert forall p :: p in rows ==> p == rows[0] || p in rows[1..];
      FindById(rows[1..], id)
  }

  /** `GetById` (a lookup by primary key): the row with that id, or null
      when there is none. */
  function GetById(db: Database, id: int): (r: Option<Product>)
    ensures r.Some? ==> r.value in db.products && r.value.id == id
    ensures r.None? <==> forall p :: p in db.products ==> p.id != id
  {
    FindById(db.products, id)
  }

  /** Ids are a primary key: no two rows share one. */
  predicate UniqueIds(rows: seq<Product>) {
    forall i, j :: 0 <= i < j < |rows| ==> rows[i].id != rows[j].id
  }

  /** With unique ids, `GetById` finds exactly the row carrying the id. */
  lemma GetByIdFindsTheRow(db: Database, p: Product)
    requires UniqueIds(db.products) && p in db.products
    ensures GetById(db, p.id) == Some(p)
  {
  }

  /** `ApplySpecification`: the evaluator's query over the products table. */
  function ApplySpecification(db: Database, spec: Specification): (r: seq<Product>)
    ensures |r| <= |db.products|
    ensures forall x :: x in r ==>
              exists p :: p in db.products && Accepts(spec.criteria, p) && x == LoadAll(p, spec.includes, db.tables)
  {
    EvaluateRowsComeFromInput(db.products, spec, db.tables);
    Evaluate(db.products, spec, db.tables)
  }

  /** `GetAllAsyncWithSpec`: the query's rows as a list; a specification that
      no row satisfies yields the empty list, not an error. */
  function GetAllAsyncWithSpec(db: Database, spec: Specification): (r: seq<Product>)
    ensures |r| <= |db.products|
    ensures forall x :: x in r ==>
              exists p :: p in db.products && Accepts(spec.criteria, p) && x == LoadAll(p, spec.includes, db.tables)
    ensures (forall p :: p in db.products ==> !Accepts(spec.criteria, p)) ==> r == []
  {
    var r := ApplySpecification(db, spec);
    assert r != [] ==> r[0] in r;
    r
  }

  /** `GetByIdWithSpec`: the first row of the query, or null when the query
      yields none. A row it returns satisfies the criteria. */
  function GetByIdWithSpec(db: Database, spec: Specification): (r: Option<Product>)
    ensures r.None? <==> GetAllAsyncWithSpec(db, spec) == []
    ensures r.Some? ==> r.value == GetAllAsyncWithSpec(db, spec)[0]
    ensures r.Some? ==>
              exists p :: p in db.products && Accepts(spec.criteria, p) && r.value == LoadAll(p, spec.includes, db.tables)
  {
    var q := ApplySpecification(db, spec);
    if q == [] then None else assert q[0] in q; Some(q[0])
  }

  /** A specification with no criteria, ordering, pagination or includes
      makes `GetAllAsyncWithSpec` the same as `GetAllAsync`. */
  lemma NeutralSpecGetsAll(db: Database, spec: Specification)
    requires spec.criteria.None? && spec.orderByAsc.None? && spec.orderByDesc.None?
    requires !spec.isPaginationEnabled && spec.includes == []
    ensures GetAllAsyncWithSpec(db, spec) == GetAllAsync(db)
  {
    EvaluateNeutral(db.products, spec, db.tables);
  }

  /** The id specification never finds anything: its pagination is enabled
      with `Take = 0`, so its query yields no rows and `GetByIdWithSpec`
      returns null for every id, even one that `GetById` finds. */
  lemma IdSpecificationFindsNothing(db: Database, id: Int32)
    ensures GetAllAsyncWithSpec(db, IdSpecification(id)) == []
    ensures GetByIdWithSpec(db, IdSpecification(id)) == None
  {
    EvaluateZeroTake(db.products, IdSpecification(id), db.tables);
  }

  // ---------------------------------------------------------------------
  // The product listing, as the product controller requests it.

  /** Sort "PriceAsc": prices are non-decreasing down the listing. */
  lemma ListingPriceAscending(db: Database, brandId: Option<Int32>, typeId: Option<Int32>, pageIndex: Int32, pageSize: Int32)
    ensures var r := GetAllAsyncWithSpec(db, ParamsSpecification(Some("PriceAsc"), brandId, typeId, pageIndex, pageSize));
            forall i :: 0 < i < |r| ==> r[i - 1].price <= r[i].price
  {
    EvaluateSortedAscending(db.products, ParamsSpecification(Some("PriceAsc"), brandId, typeId, pageIndex, pageSize), db.tables);
  }

  /** Sort "PriceAsc": no listed product costs more than one listed after
      it, on the same page. */
  lemma ListingPricesOrderedPairwise(db: Database, brandId: Option<Int32>, typeId: Option<Int32>, pageIndex: Int32, pageSize: Int32)
    ensures var r := GetAllAsyncWithSpec(db, ParamsSpecification(Some("PriceAsc"), brandId, typeId, pageIndex, pageSize));
            forall i, j :: 0 <= i < j < |r| ==> r[i].price <= r[j].price
  {
    var spec := ParamsSpecification(Some("PriceAsc"), brandId, typeId, pageIndex, pageSize);
    var r := GetAllAsyncWithSpec(db, spec);
    assert r == Evaluate(db.products, spec, db.tables);
    assert spec.orderByAsc == Some(Price) && spec.orderByDesc.None?;
    EvaluateSortedAscending(db.products, spec, db.tables);
    forall i, j | 0 <= i < j < |r|
      ensures r[i].price <= r[j].price
    {
      SortedPairwise(r, Price, false, i, j);
    }
  }

  /** Sort "PriceDesc": prices are non-increasing down the listing. */
  lemma ListingPriceDescending(db: Database, brandId: Option<Int32>, typeId: Option<Int32>, pageIndex: Int32, pageSize: Int32)
    ensures var r := GetAllAsyncWithSpec(db, ParamsSpecification(Some("PriceDesc"), brandId, typeId, pageIndex, pageSize));
            forall i :: 0 < i < |r| ==> r[i - 1].price >= r[i].price
  {
    EvaluateSortedDescending(db.products, ParamsSpecification(Some("PriceDesc"), brandId, typeId, pageIndex, pageSize), db.tables);
  }

  /** Any other non-empty sort token: names are in ascending order. */
  lemma ListingNameAscending(db: Database, sort: string, brandId: Option<Int32>, typeId: Option<Int32>, pageIndex: Int32, pageSize: Int32)
    requires sort != "" && sort != "PriceAsc" && sort != "PriceDesc"
    ensures var r := GetAllAsyncWithSpec(db, ParamsSpecification(Some(sort), brandId, typeId, pageIndex, pageSize));
            forall i :: 0 < i < |r| ==> LexLe(r[i - 1].name, r[i].name)
  {
    EvaluateSortedAscending(db.products, ParamsSpecification(Some(sort), brandId, typeId, pageIndex, pageSize), db.tables);
  }

  /** Every listed product satisfies the filters and has its type and brand
      loaded (when the database's foreign keys all resolve). */
  lemma ListingRowsFilteredAndLoaded(db: Database, sort: Option<string>, brandId: Option<Int32>, typeId: Option<Int32>, pageIndex: Int32, pageSize: Int32)
    requires ReferentiallyIntact(db)
    ensures forall x :: x in GetAllAsyncWithSpec(db, ParamsSpecification(sort, brandId, typeId, pageIndex, pageSize)) ==>
              && (brandId.None? || x.productBrandId == brandId.value)
              && (typeId.None? || x.productTypeId == typeId.value)
              && x.productType.Some? && x.productBrand.Some?
  {
    var spec := ParamsSpecification(sort, brandId, typeId, pageIndex, pageSize);
    assert spec.criteria == Some(ParamsCriteria(brandId, typeId));
    assert IncludeType in spec.includes && IncludeBrand in spec.includes;
    ListedRowsMatchFilters(db, spec, brandId, typeId);
  }

  /** With the listing's criteria and both includes, every listed row matches
      the filters and has its type and brand loaded. */
  lemma ListedRowsMatchFilters(db: Database, spec: Specification, brandId: Option<Int32>, typeId: Option<Int32>)
    requires ReferentiallyIntact(db)
    requires spec.criteria == Some(ParamsCriteria(brandId, typeId))
    requires IncludeType in spec.includes && IncludeBrand in spec.includes
    ensures forall x :: x in GetAllAsyncWithSpec(db, spec) ==>
              ParamsCriteria(brandId, typeId)(x) && x.productType.Some? && x.productBrand.Some?
  {
    forall x | x in GetAllAsyncWithSpec(db, spec)
      ensures ParamsCriteria(brandId, typeId)(x) && x.productType.Some? && x.productBrand.Some?
    {
      var p := ListedRowOrigin(db, spec, x);
      assert x.Unloaded().productBrandId == p.Unloaded().productBrandId;
      assert x.Unloaded().productTypeId == p.Unloaded().productTypeId;
      assert Loaded(x, IncludeType, db.tables) && Loaded(x, IncludeBrand, db.tables);
    }
  }

  /** A listed row is a stored row that the criteria accept, with its stored
      columns unchanged and, when every foreign key resolves, every listed
      navigation loaded. */
  lemma ListedRowOrigin(db: Database, spec: Specification, x: Product) returns (p: Product)
    requires ReferentiallyIntact(db) && x in GetAllAsyncWithSpec(db, spec)
    ensures p in db.products && Accepts(spec.criteria, p)
    ensures x.Unloaded() == p.Unloaded()
    ensures forall inc :: inc in spec.includes ==> Loaded(x, inc, db.tables)
  {
    p :| p in db.products && Accepts(spec.criteria, p) && x == LoadAll(p, spec.includes, db.tables);
    LoadAllEffect(p, spec.includes, db.tables);
  }

  /** The repository's listing is the evaluator's query over the table. */
  lemma ListingIsEvaluate(db: Database, spec: Specification)
    ensures GetAllAsyncWithSpec(db, spec) == Evaluate(db.products, spec, db.tables)
  {
  }

  /** The listing's window as the parameters set it: every page, the first
      included, starts after the first `PageSize` rows; it holds up to
      `Take = PageSize * PageIndex` rows (wrapped to 32 bits, as C# computes
      it), clipped to what is left. */
  lemma ListingWindow(db: Database, sort: Option<string>, brandId: Option<Int32>, typeId: Option<Int32>, pageIndex: Int32, pageSize: Int32)
    requires pageSize >= 0
    ensures var spec := ParamsSpecification(sort, brandId, typeId, pageIndex, pageSize);
            var q := Ordered(db.products, spec);
            var r := GetAllAsyncWithSpec(db, spec);
            && |r| == Max(0, Min(Wrap32(pageSize * pageIndex), |q| - pageSize))
            && (pageSize <= |q| ==> IncludedSlice(r, q, pageSize, ProductIncludes, db.tables))
  {
    var spec := ParamsSpecification(sort, brandId, typeId, pageIndex, pageSize);
    WindowOfSpec(db, spec, pageSize, Wrap32(pageSize * pageIndex), ProductIncludes);
  }

  /** A paginated query through the repository, with `Skip = skip`,
      `Take = take` and includes `incs`, starts exactly at row `skip` of the
      ordered rows. */
  lemma WindowOfSpec(db: Database, spec: Specification, skip: int, take: int, incs: seq<Include>)
    requires spec.isPaginationEnabled && skip >= 0
    requires spec.skip == skip && spec.take == take && spec.includes == incs
    ensures var q := Ordered(db.products, spec);
            var r := GetAllAsyncWithSpec(db, spec);
            && |r| == Max(0, Min(take, |q| - skip))
            && (skip <= |q| ==> IncludedSlice(r, q, skip, incs, db.tables))
  {
    ListingIsEvaluate(db, spec);
    EvaluateWindow(db.products, spec, db.tables);
  }

  /** Twelve products, no filter, no sort, page 2 of size 5: the listing is
      the seven rows from the sixth on, not the five rows 6 to 10. */
  lemma ListingSecondPageOfTwelve(db: Database)
    requires |db.products| == 12
    ensures var spec := ParamsSpecification(None, None, None, 2, 5);
            GetAllAsyncWithSpec(db, spec) == IncludeAll(db.products[5..], spec.includes, db.tables)
  {
    var spec := ParamsSpecification(None, None, None, 2, 5);
    var f := Where(db.products, ParamsCriteria(None, None));
    assert f == db.products by {
      WhereAllAccepted(db.products, ParamsCriteria(None, None));
    }
    assert Ordered(db.products, spec) == db.products;
  }

  /** A criteria that accepts every row filters nothing out. */
  lemma {:induction false} WhereAllAccepted(q: seq<Product>, c: Product -> bool)
    requires forall p :: p in q ==> c(p)
    ensures Where(q, c) == q
    decreases |q|
  {
    if q != [] {
      WhereAllAccepted(q[1..], c);
    }
  }
}
