/** The concrete product specification, which always loads the product's type
    and brand: either a filtered, sorted, paginated listing built from the
    query parameters, or a lookup by id. */
module ProductSpecifications {
  import opened Entities
  import opened Ordering
  import opened Specifications
  import opened ProductParams

  /** The listing's criteria: each filter that is present must match, and an
      absent filter lets every product through. */
  function ParamsCriteria(brandId: Option<Int32>, typeId: Option<Int32>): (r: Product -> bool)
    ensures forall p :: r(p) <==> (brandId.Some? ==> p.productBrandId == brandId.value) && (typeId.Some? ==> p.productTypeId == typeId.value)
  {
    (p: Product) => (brandId.None? || p.productBrandId == brandId.value) && (typeId.None? || p.productTypeId == typeId.value)
  }

  /** With neither filter the criteria accept every product. */
  lemma ParamsCriteriaWithoutFilters(p: Product)
    ensures ParamsCriteria(None, None)(p)
  {
  }

  /** The filters are combined with AND: setting a brand or a type filter
      never lets through a product that was rejected without it. */
  lemma ParamsCriteriaNarrowing(brandId: Option<Int32>, typeId: Option<Int32>, p: Product)
    ensures ParamsCriteria(brandId, typeId)(p) ==> ParamsCriteria(None, typeId)(p)
    ensures ParamsCriteria(brandId, typeId)(p) ==> ParamsCriteria(brandId, None)(p)
    ensures ParamsCriteria(brandId, typeId)(p) <==> ParamsCriteria(brandId, None)(p) && ParamsCriteria(None, typeId)(p)
  {
  }

  /** The lookup's criteria: the product with the given id. */
  function IdCriteria(id: int): (r: Product -> bool)
    ensures forall p :: r(p) <==> p.id == id
  {
    (p: Product) => p.id == id
  }

  /** The includes both constructors add, in the order they add them. */
  const ProductIncludes: seq<Include> := [IncludeType, IncludeBrand]

  /** The specification the parameters constructor builds from the values of
      the parameters' properties. */
  function ParamsSpecification(sort: Option<string>, brandId: Option<Int32>, typeId: Option<Int32>,
                               pageIndex: Int32, pageSize: Int32): (r: Specification)
    ensures r.criteria == Some(ParamsCriteria(brandId, typeId))
    ensures r.includes == [IncludeType, IncludeBrand]
    ensures IsNullOrEmpty(sort) ==> r.orderByAsc.None? && r.orderByDesc.None?
    ensures sort == Some("PriceAsc") ==> r.orderByAsc == Some(Price) && r.orderByDesc.None?
    ensures sort == Some("PriceDesc") ==> r.orderByAsc.None? && r.orderByDesc == Some(Price)
    ensures !IsNullOrEmpty(sort) && sort != Some("PriceAsc") && sort != Some("PriceDesc") ==>
              r.orderByAsc == Some(Name) && r.orderByDesc.None?
    ensures r.isPaginationEnabled && r.skip == pageSize
    ensures r.take == Wrap32(pageSize * pageIndex)
    ensures IsInt32(pageSize * pageIndex) ==> r.take == pageSize * pageIndex
  {
    var asc: Option<OrderKey> :=
      if IsNullOrEmpty(sort) || sort.value == "PriceDesc" then None
      else if sort.value == "PriceAsc" then Some(Price)
      else Some(Name);
    var desc: Option<OrderKey> :=
      if !IsNullOrEmpty(sort) && sort.value == "PriceDesc" then Some(Price) else None;
    Specification(Some(ParamsCriteria(brandId, typeId)), ProductIncludes, asc, desc,
                  Wrap32(pageSize * pageIndex), pageSize, true)
  }

  /** The specification the id constructor builds. It never calls
      `AddPagination`, so pagination stays enabled with `Take = 0`. */
  function IdSpecification(id: Int32): (r: Specification)
    ensures r.criteria == Some(IdCriteria(id))
    ensures forall p :: r.criteria.value(p) <==> p.id == id
    ensures r.includes == [IncludeType, IncludeBrand]
    ensures r.orderByAsc.None? && r.orderByDesc.None?
    ensures r.isPaginationEnabled && r.take == 0 && r.skip == 0
  {
    Specification(Some(IdCriteria(id)), ProductIncludes, None, None, 0, 0, true)
  }

  /** The parameters constructor of `ProductWithTypeAndBrandSpecification`:
      the base constructor with the criteria, two includes, the sort switch
      and the pagination call. The criteria read the filter values present at
      construction. */
  method ProductWithTypeAndBrandFromParams(params: ProductParamsSpecification) returns (spec: BaseSpecification)
    requires params.Valid()
    ensures fresh(spec)
    ensures spec.skip <= MaxPageSize
    ensures spec.AsSpecification() ==
            ParamsSpecification(params.sort, params.brandId, params.productTypeId, params.pageIndex, params.pageSize)
  {
    spec := new BaseSpecification.WithCriteria(ParamsCriteria(params.brandId, params.productTypeId));
    spec.includes := spec.includes + [IncludeType];
    spec.includes := spec.includes + [IncludeBrand];
    if !IsNullOrEmpty(params.sort) {
      var sort := params.sort.value;
      if sort == "PriceAsc" {
        spec.AddOrderByAsc(Price);
      } else if sort == "PriceDesc" {
        spec.AddOrderByDesc(Price);
      } else {
        spec.AddOrderByAsc(Name);
      }
    }
    spec.AddPagination(Wrap32(params.pageSize * params.pageIndex), params.pageSize);
  }

  /** The id constructor of `ProductWithTypeAndBrandSpecification`. */
  method ProductWithTypeAndBrandFromId(id: Int32) returns (spec: BaseSpecification)
    ensures fresh(spec)
    ensures spec.AsSpecification() == IdSpecification(id)
  {
    spec := new BaseSpecification.WithCriteria(IdCriteria(id));
    spec.includes := spec.includes + [IncludeType];
    spec.includes := spec.includes + [IncludeBrand];
  }
}
