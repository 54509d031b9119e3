/**
 * The product record as the kiosk receives it from the backend catalog.
 * Prices are whole cents; the category codes are the ones the controllers
 * compare against.
 */
module Catalog {

  const Starter: int := 1
  const Main: int := 2
  const Dessert: int := 3
  const Drink: int := 4

  datatype Product = Product(
    id: int,
    name: string,
    priceCents: nat,
    categoryId: int,
    available: bool,
    stockQuantity: int
  )

  /** The products of one category, in catalog order (what a category query returns). */
  function OfCategory(catalog: seq<Product>, cat: int): (r: seq<Product>)
    ensures |r| <= |catalog|
    ensures forall x :: x in r <==> x in catalog && x.categoryId == cat
  {
    if catalog == [] then []
    else
      var rest := OfCategory(catalog[1..], cat);
      assert forall x :: x in catalog <==> x == catalog[0] || x in catalog[1..];
      if catalog[0].categoryId == cat then [catalog[0]] + rest else rest
  }

  /** The query keeps catalog order: querying two runs of the catalog is querying each in turn. */
  lemma {:induction false} OfCategoryAppend(a: seq<Product>, b: seq<Product>, cat: int)
    ensures OfCategory(a + b, cat) == OfCategory(a, cat) + OfCategory(b, cat)
    decreases |a|
  {
    if a != [] {
      assert (a + b)[1..] == a[1..] + b;
      OfCategoryAppend(a[1..], b, cat);
    } else {
      assert a + b == b;
    }
  }
}
