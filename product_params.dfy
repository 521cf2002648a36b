/** The query-string parameters of the product listing. */
module ProductParams {
  import opened Entities

  /** The largest page size a caller can ask for. */
  const MaxPageSize: Int32 := 10

  /** What the `PageSize` setter stores for `value`: clamped from above to
      `MaxPageSize`, and not clamped from below. */
  function ClampPageSize(value: Int32): (r: Int32)
    ensures r <= MaxPageSize
    ensures r <= value
    ensures r == value || r == MaxPageSize
  {
    if value > MaxPageSize then MaxPageSize else value
  }

  /** Clamping a value a second time changes nothing. */
  lemma ClampPageSizeIdempotent(value: Int32)
    ensures ClampPageSize(ClampPageSize(value)) == ClampPageSize(value)
  {
  }

  class ProductParamsSpecification {
    var sort: Option<string>
    var brandId: Option<Int32>
    var productTypeId: Option<Int32>
    var pageIndex: Int32
    /** The private backing field of the `PageSize` property. */
    var pageSize: Int32

    /** The backing field is written only by the `PageSize` setter, so it
        never exceeds `MaxPageSize`. */
    ghost predicate Valid()
      reads this
    {
      pageSize <= MaxPageSize
    }

    constructor ()
      ensures Valid()
      ensures sort.None? && brandId.None? && productTypeId.None?
      ensures pageIndex == 1 && pageSize == 5
    {
      sort := None;
      brandId := None;
      productTypeId := None;
      pageIndex := 1;
      pageSize := 5;
    }

    /** The `PageSize` setter. The stored value depends only on `value`, so
        assigning the same value twice leaves the state of one assignment. */
    method SetPageSize(value: Int32)
      modifies this
      ensures Valid()
      ensures pageSize == ClampPageSize(value)
      ensures value > MaxPageSize ==> pageSize == MaxPageSize
      ensures value <= MaxPageSize ==> pageSize == value
      ensures sort == old(sort) && brandId == old(brandId) && productTypeId == old(productTypeId)
      ensures pageIndex == old(pageIndex)
    {
      pageSize := if value > MaxPageSize then MaxPageSize else value;
    }
  }
}
