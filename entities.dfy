/** Entities of the catalog: products and the two tables they reference, and
    the 32-bit integer type of the C# properties that take part in arithmetic. */
module Entities {

  /** A nullable value: `None` stands for C#'s `null`. */
  datatype Option<+T> = None | Some(value: T) {
    function GetOr(default: T): T {
      match this
      case Some(v) => v
      case None => default
    }
  }

  /** `string.IsNullOrEmpty`. */
  predicate IsNullOrEmpty(s: Option<string>) {
    s.None? || s.value == ""
  }

  /** C#'s `int`. */
  type Int32 = x: int | -0x8000_0000 <= x < 0x8000_0000

  predicate IsInt32(x: int) {
    -0x8000_0000 <= x < 0x8000_0000
  }

  /** C#'s unchecked conversion of an integer result back to `int`: the value
      modulo 2^32, read as a two's-complement number. */
  function Wrap32(x: int): (r: Int32)
    ensures IsInt32(x) ==> r == x
    ensures (x - r) % 0x1_0000_0000 == 0
  {
    (x + 0x8000_0000) % 0x1_0000_0000 - 0x8000_0000
  }

  datatype ProductBrand = ProductBrand(id: int, name: string)

  datatype ProductType = ProductType(id: int, name: string)

  /** A product row. `productBrand` and `productType` are the navigation
      properties: `None` until a query eagerly loads them. Prices are decimal in
      the store; here they are integers. */
  datatype Product = Product(
    id: int,
    name: string,
    price: int,
    pictureUrl: Option<string>,
    productBrandId: int,
    productTypeId: int,
    productBrand: Option<ProductBrand>,
    productType: Option<ProductType>)
  {
    /** The row with both navigation properties cleared: everything that is
        stored in the products table itself. */
    function Unloaded(): Product {
      this.(productBrand := None, productType := None)
    }
  }

  /** The brand and type tables, keyed by their ids, from which navigation
      properties are loaded. */
  datatype RelatedTables = RelatedTables(brands: map<int, ProductBrand>, types: map<int, ProductType>)

  /** Both foreign keys of `p` name existing rows (the relationships declared
      for `Product.ProductBrandId` and `Product.ProductTypeId`). */
  predicate References(p: Product, tables: RelatedTables) {
    p.productBrandId in tables.brands && p.productTypeId in tables.types
  }
}
