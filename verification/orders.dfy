/**
 * The cart-to-order hand-off of the pay action: the customer name is trimmed
 * and must not be empty, then one order item is built per cart line, in cart
 * order, and the order goes to the backend, whose answer is an integer id
 * where only a positive id means success. The backend is a parameter.
 */
module Orders {
  import opened JavaLang
  import opened Catalog
  import opened CartItems
  import opened CartService

  /** OrderItem: the options travel as one comma-joined string. */
  datatype OrderItem = OrderItem(productId: int, quantity: int, unitPriceCents: nat, options: string)

  datatype Order = Order(customerName: string, totalPriceCents: int, items: seq<OrderItem>)

  /** What pressing the pay button leads to. */
  datatype Submission =
    | NameRequired             // blank name: an alert, nothing built, nothing sent
    | Confirmed(orderId: int)  // the confirmation screen with the order number
    | SendFailed(code: int)    // an alert; the backend answered `code` <= 0

  /** One cart line as an order item; the product id is narrowed to a Java int. */
  function ToOrderItem(ci: CartItem): (r: OrderItem)
    ensures IsInt32(r.productId)
    ensures IsInt32(ci.product.id) ==> r.productId == ci.product.id
    ensures (ci.product.id - r.productId) % TwoTo32 == 0
    ensures r.quantity == ci.quantity && r.unitPriceCents == ci.product.priceCents
  {
    OrderItem(ToInt32(ci.product.id), ci.quantity, ci.product.priceCents, JoinComma(ci.options))
  }

  /** The items loop: one item per line, in cart order. */
  function BuildItems(c: Cart): (r: seq<OrderItem>)
    ensures |r| == |c|
    ensures forall k :: 0 <= k < |c| ==> r[k] == ToOrderItem(c[k])
  {
    if c == [] then [] else [ToOrderItem(c[0])] + BuildItems(c[1..])
  }

  /** What the items of an order add up to, read from the items alone. */
  function ItemsTotal(items: seq<OrderItem>): int {
    if items == [] then 0 else items[0].unitPriceCents * items[0].quantity + ItemsTotal(items[1..])
  }

  /** The items add up to the cart's total. */
  lemma {:induction false} OrderTotalMatchesItems(c: Cart)
    ensures ItemsTotal(BuildItems(c)) == Total(c)
    decreases |c|
  {
    if c != [] {
      OrderTotalMatchesItems(c[1..]);
      assert BuildItems(c)[1..] == BuildItems(c[1..]);
    }
  }

  /**
   * The order for an already trimmed name, its total taken from the cart: the
   * stated total is what its items add up to.
   */
  function BuildOrder(name: string, c: Cart): (r: Order)
    ensures r.customerName == name && |r.items| == |c|
    ensures forall k :: 0 <= k < |c| ==> r.items[k] == ToOrderItem(c[k])
    ensures r.totalPriceCents == Total(c) == ItemsTotal(r.items)
  {
    OrderTotalMatchesItems(c);
    Order(name, Total(c), BuildItems(c))
  }

  /** Reads an options string back: empty means no options, otherwise the comma-separated fields. */
  function ParseOptions(s: string): (r: seq<string>)
    ensures s == "" <==> r == []
  {
    if s == "" then [] else CommaFields(s)
  }

  /**
   * A line survives the hand-off: when the id fits an int and every option is
   * a non-empty label without a comma, the item gives back id, quantity, unit
   * price and the options in order.
   */
  lemma OrderItemRecoversLine(ci: CartItem)
    requires IsInt32(ci.product.id)
    requires forall k :: 0 <= k < |ci.options| ==> ci.options[k] != "" && CommaFree(ci.options[k])
    ensures var r := ToOrderItem(ci);
            r.productId == ci.product.id && r.quantity == ci.quantity
            && r.unitPriceCents == ci.product.priceCents && ParseOptions(r.options) == ci.options
  {
    if ci.options != [] {
      JoinCommaRoundTrip(ci.options);
      JoinCommaNonEmpty(ci.options);
    }
  }

  lemma JoinCommaNonEmpty(parts: seq<string>)
    requires 1 <= |parts| && parts[0] != ""
    ensures JoinComma(parts) != ""
  {
  }

  /** Ids beyond the int range are narrowed: any two products 2^32 apart reach the backend under one id. */
  lemma LongIdsCollide(a: CartItem, b: CartItem)
    requires b.product.id == a.product.id + TwoTo32
    ensures ToOrderItem(a).productId == ToOrderItem(b).productId
  {
  }

  /**
   * The pay action: trim the name, stop on a blank one, otherwise build the
   * order and read the backend's answer.
   */
  function Submit(rawName: string, c: Cart, backend: Order -> int): (r: Submission)
    ensures r == NameRequired <==> IsBlank(rawName)
    ensures r.Confirmed? <==> !IsBlank(rawName) && backend(BuildOrder(Trim(rawName), c)) > 0
    ensures r.Confirmed? ==> r.orderId > 0 && r.orderId == backend(BuildOrder(Trim(rawName), c))
    ensures r.SendFailed? ==> r.code <= 0 && r.code == backend(BuildOrder(Trim(rawName), c))
  {
    var name := Trim(rawName);
    if name == [] then NameRequired
    else
      var id := backend(BuildOrder(name, c));
      if id > 0 then Confirmed(id) else SendFailed(id)
  }

  /** A blank name is refused before the backend is consulted: its answer cannot matter. */
  lemma BlankNameNeverSent(rawName: string, c: Cart, b1: Order -> int, b2: Order -> int)
    requires IsBlank(rawName)
    ensures Submit(rawName, c, b1) == Submit(rawName, c, b2) == NameRequired
  {
  }

  /** The name that reaches the backend is non-empty and has no surrounding blanks. */
  lemma SentNameIsTrimmed(rawName: string)
    requires !IsBlank(rawName)
    ensures var name := Trim(rawName);
            name != [] && !IsTrimmable(name[0]) && !IsTrimmable(name[|name| - 1])
  {
  }
}
