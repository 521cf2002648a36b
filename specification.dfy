/** The specification of a product query: what to filter, what to load
    eagerly, how to order and how to paginate. */
module Specifications {
  import opened Entities
  import opened Ordering

  /** The navigation properties a specification can ask to load:
      `P => P.ProductType` and `P => P.ProductBrand`. */
  datatype Include = IncludeType | IncludeBrand

  /** The read-only view of a specification that the evaluator consumes: the
      seven properties of `ISpecification<T>`. */
  datatype Specification = Specification(
    criteria: Option<Product -> bool>,
    includes: seq<Include>,
    orderByAsc: Option<OrderKey>,
    orderByDesc: Option<OrderKey>,
    take: Int32,
    skip: Int32,
    isPaginationEnabled: bool)

  /** The base specification. Its properties are settable, and the three
      `Add` methods set them while a concrete specification is being built. */
  class BaseSpecification {
    var criteria: Option<Product -> bool>
    var includes: seq<Include>
    var orderByAsc: Option<OrderKey>
    var orderByDesc: Option<OrderKey>
    var take: Int32
    var skip: Int32
    var isPaginationEnabled: bool

    function AsSpecification(): Specification
      reads this
    {
      Specification(criteria, includes, orderByAsc, orderByDesc, take, skip, isPaginationEnabled)
    }

    /** The parameterless constructor: no criteria, no includes, no ordering,
        `Take = Skip = 0`, and pagination enabled by its initialiser. */
    constructor ()
      ensures criteria.None? && includes == []
      ensures orderByAsc.None? && orderByDesc.None?
      ensures take == 0 && skip == 0 && isPaginationEnabled
    {
      criteria := None;
      includes := [];
      orderByAsc := None;
      orderByDesc := None;
      take := 0;
      skip := 0;
      isPaginationEnabled := true;
    }

    /** The constructor that takes the criteria; everything else keeps its
        initial value. */
    constructor WithCriteria(c: Product -> bool)
      ensures criteria == Some(c) && includes == []
      ensures orderByAsc.None? && orderByDesc.None?
      ensures take == 0 && skip == 0 && isPaginationEnabled
    {
      criteria := Some(c);
      includes := [];
      orderByAsc := None;
      orderByDesc := None;
      take := 0;
      skip := 0;
      isPaginationEnabled := true;
    }

    /** Sets the ascending key and nothing else. */
    method AddOrderByAsc(key: OrderKey)
      modifies this
      ensures orderByAsc == Some(key)
      ensures criteria == old(criteria) && includes == old(includes)
      ensures orderByDesc == old(orderByDesc)
      ensures take == old(take) && skip == old(skip) && isPaginationEnabled == old(isPaginationEnabled)
    {
      orderByAsc := Some(key);
    }

    /** Sets the descending key and nothing else: an ascending key already set
        stays set. */
    method AddOrderByDesc(key: OrderKey)
      modifies this
      ensures orderByDesc == Some(key)
      ensures criteria == old(criteria) && includes == old(includes)
      ensures orderByAsc == old(orderByAsc)
      ensures take == old(take) && skip == old(skip) && isPaginationEnabled == old(isPaginationEnabled)
    {
      orderByDesc := Some(key);
    }

    /** Enables pagination with the given window; the new window does not
        depend on any earlier one, so the last call wins and repeating a call
        changes nothing. Note the argument order: `take` first. */
    method AddPagination(take: Int32, skip: Int32)
      modifies this
      ensures isPaginationEnabled && this.take == take && this.skip == skip
      ensures criteria == old(criteria) && includes == old(includes)
      ensures orderByAsc == old(orderByAsc) && orderByDesc == old(orderByDesc)
    {
      isPaginationEnabled := true;
      this.take := take;
      this.skip := skip;
    }
  }
}
