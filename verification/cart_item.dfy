/**
 * One cart line: a product, a quantity and the ordered list of chosen options.
 * Product and options are fixed when the line is built; only the quantity
 * changes afterwards.
 */
module CartItems {
  import opened Catalog

  datatype CartItem = CartItem(product: Product, quantity: int, options: seq<string>)

  /** The merge key: lines with equal keys are one line of the cart. */
  predicate SameProductWithSameOptions(a: CartItem, b: CartItem) {
    a.product.id == b.product.id && a.options == b.options
  }

  /** setQuantity: replaces the quantity and nothing else. */
  function SetQuantity(item: CartItem, quantity: int): (r: CartItem)
    ensures SameProductWithSameOptions(r, item)
    ensures r.product == item.product && r.options == item.options
    ensures r.quantity == quantity
  {
    item.(quantity := quantity)
  }

  /** getTotalPrice: what the line costs, in cents. */
  function TotalPrice(item: CartItem): (r: int)
    ensures item.quantity >= 1 ==> r >= item.product.priceCents
    ensures item.quantity == 0 ==> r == 0
  {
    item.product.priceCents * item.quantity
  }

  /** The line total is linear in the quantity: each extra unit adds one unit price. */
  lemma TotalPriceOfQuantity(item: CartItem, quantity: int)
    ensures TotalPrice(SetQuantity(item, quantity)) == TotalPrice(item) + item.product.priceCents * (quantity - item.quantity)
    ensures item.quantity >= 0 ==> TotalPrice(item) >= 0
    ensures TotalPrice(CartItem(item.product, 1, item.options)) == item.product.priceCents
  {
  }

  /** The merge key is an equivalence: reflexive, symmetric and transitive. */
  lemma SameIsEquivalence(a: CartItem, b: CartItem, c: CartItem)
    ensures SameProductWithSameOptions(a, a)
    ensures SameProductWithSameOptions(a, b) <==> SameProductWithSameOptions(b, a)
    ensures SameProductWithSameOptions(a, b) && SameProductWithSameOptions(b, c) ==> SameProductWithSameOptions(a, c)
  {
  }

  /** Lines built from the same product id and options are the same line whatever their quantities. */
  lemma SameIgnoresQuantity(p: Product, q: Product, options: seq<string>, m: int, n: int)
    requires p.id == q.id
    ensures SameProductWithSameOptions(CartItem(p, m, options), CartItem(q, n, options))
  {
  }

  /** Options are compared as ordered lists: the same options in another order make another line. */
  lemma OptionOrderMatters(p: Product)
    ensures !SameProductWithSameOptions(CartItem(p, 1, ["a", "b"]), CartItem(p, 1, ["b", "a"]))
  {
  }
}
