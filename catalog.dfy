/**
 * What the controllers and services read about the catalogue and about the
 * current user, as values: `Course::find`, `DigitalProduct::find`,
 * `isInStock()` and the User model's `hasAccessToCourse` /
 * `hasAccessToDigitalProduct` answers.
 */
module Catalog {
  import opened Basics

  datatype CourseInfo = CourseInfo(title: string, price: int)

  /** `inStock` is the answer of DigitalProduct::isInStock(). */
  datatype ProductInfo = ProductInfo(name: string, price: int, inStock: bool)

  datatype Catalog = Catalog(courses: map<CourseId, CourseInfo>, products: map<ProductId, ProductInfo>)

  /** The items the user already has access to, as the User model decides it. */
  datatype Access = Access(courses: set<CourseId>, products: set<ProductId>)

  /** The display name (course title or product name) and price of an item, if it exists. */
  function Find(c: Catalog, t: ItemType, id: nat): (r: Option<(string, int)>)
    ensures r.Some? <==> (if t == Course then id in c.courses else id in c.products)
    ensures r.Some? && t == Course ==> r.value == (c.courses[id].title, c.courses[id].price)
    ensures r.Some? && t == DigitalProduct ==> r.value == (c.products[id].name, c.products[id].price)
  {
    match t
    case Course => if id in c.courses then Some((c.courses[id].title, c.courses[id].price)) else None
    case DigitalProduct => if id in c.products then Some((c.products[id].name, c.products[id].price)) else None
  }

  predicate HasAccess(a: Access, t: ItemType, id: nat)
  {
    if t == Course then id in a.courses else id in a.products
  }
}
