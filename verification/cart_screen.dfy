/**
 * The cart screen and the confirmation screen as one state machine over the
 * shared cart. The row buttons edit the line they were drawn for (minus,
 * plus, delete); pay submits; the new-order button on the confirmation screen
 * is the only action that empties the cart.
 */
module CartScreen {
  import opened JavaLang
  import opened Catalog
  import opened CartItems
  import opened CartService
  import opened Orders

  // ---------------------------------------------------------------- row buttons

  /** The minus button: one unit fewer, or the line removed when it holds a single unit. */
  function Minus(c: Cart, index: int): (r: Cart)
    ensures !(0 <= index < |c|) ==> r == c
    ensures 0 <= index < |c| && c[index].quantity > 1 ==>
              r == c[index := SetQuantity(c[index], c[index].quantity - 1)]
    ensures 0 <= index < |c| && c[index].quantity <= 1 ==> r == RemoveItem(c, index)
  {
    if !(0 <= index < |c|) then c
    else if c[index].quantity > 1 then c[index := SetQuantity(c[index], c[index].quantity - 1)]
    else RemoveItem(c, index)
  }

  /** The plus button: one unit more on that line, with no merge check. */
  function Plus(c: Cart, index: int): (r: Cart)
    ensures |r| == |c|
    ensures forall k :: 0 <= k < |c| && k != index ==> r[k] == c[k]
    ensures 0 <= index < |c| ==> r[index].quantity == c[index].quantity + 1
    ensures 0 <= index < |c| ==> SameProductWithSameOptions(r[index], c[index])
  {
    if 0 <= index < |c| then c[index := SetQuantity(c[index], c[index].quantity + 1)] else c
  }

  /** The delete button: the line goes whatever its quantity. */
  function Delete(c: Cart, index: int): (r: Cart)
    ensures 0 <= index < |c| ==> |r| == |c| - 1 && r == c[..index] + c[index + 1..]
    ensures !(0 <= index < |c|) ==> r == c
  {
    RemoveItem(c, index)
  }

  /** Every button keeps the store's invariant. */
  lemma ButtonsPreserveValid(c: Cart, index: int)
    requires ValidCart(c)
    ensures ValidCart(Minus(c, index)) && ValidCart(Plus(c, index)) && ValidCart(Delete(c, index))
  {
    RemoveItemPreservesValid(c, index);
    if 0 <= index < |c| {
      var d := Plus(c, index);
      forall j, k | 0 <= j < k < |d|
        ensures !SameProductWithSameOptions(d[j], d[k])
      {
        assert SameProductWithSameOptions(d[j], c[j]) && SameProductWithSameOptions(d[k], c[k]);
      }
      if c[index].quantity > 1 {
        var m := Minus(c, index);
        forall j, k | 0 <= j < k < |m|
          ensures !SameProductWithSameOptions(m[j], m[k])
        {
          assert SameProductWithSameOptions(m[j], c[j]) && SameProductWithSameOptions(m[k], c[k]);
        }
      }
    }
  }

  /** Minus takes exactly one unit, and its price, out of the cart. */
  lemma MinusTakesOneUnit(c: Cart, index: int)
    requires ValidCart(c) && 0 <= index < |c|
    ensures TotalProductCount(Minus(c, index)) == TotalProductCount(c) - 1
    ensures Total(Minus(c, index)) == Total(c) - c[index].product.priceCents
  {
    var item := c[index];
    if item.quantity > 1 {
      var x := SetQuantity(item, item.quantity - 1);
      SumUpdate(c, index, x, Quantity);
      SumUpdate(c, index, x, TotalPrice);
      TotalPriceOfQuantity(item, item.quantity - 1);
    } else {
      SumRemove(c, index, Quantity);
      SumRemove(c, index, TotalPrice);
    }
  }

  /** Plus adds exactly one unit and its price. */
  lemma PlusAddsOneUnit(c: Cart, index: int)
    requires 0 <= index < |c|
    ensures TotalProductCount(Plus(c, index)) == TotalProductCount(c) + 1
    ensures Total(Plus(c, index)) == Total(c) + c[index].product.priceCents
  {
    var item := c[index];
    var x := SetQuantity(item, item.quantity + 1);
    SumUpdate(c, index, x, Quantity);
    SumUpdate(c, index, x, TotalPrice);
    TotalPriceOfQuantity(item, item.quantity + 1);
  }

  /** Minus undoes plus. */
  lemma MinusUndoesPlus(c: Cart, index: int)
    requires ValidCart(c)
    ensures Minus(Plus(c, index), index) == c
  {
  }

  /** On a single unit the buttons differ from updateQuantity: minus removes the line, updateQuantity(i, 0) keeps it. */
  lemma MinusAtOneRemoves(c: Cart, index: int)
    requires 0 <= index < |c| && c[index].quantity == 1
    ensures |Minus(c, index)| == |c| - 1
    ensures UpdateQuantity(c, index, 0) == c
    ensures Minus(c, index) == Delete(c, index)
  {
  }

  // ---------------------------------------------------------------- screens

  datatype Screen = CartView | Confirmation(orderId: int) | Home

  datatype Session = Session(screen: Screen, cart: Cart)

  datatype Event =
    | Pay(rawName: string)
    | MinusPressed(index: int)
    | PlusPressed(index: int)
    | DeletePressed(index: int)
    | NewOrder

  /**
   * One user action. The pay and row buttons exist only on a non-empty cart
   * screen, the new-order button only on the confirmation screen; anything
   * else is not on screen and does nothing.
   */
  function Step(s: Session, e: Event, backend: Order -> int): (r: Session)
    ensures e.Pay? ==> r.cart == s.cart
    ensures e.NewOrder? && s.screen.Confirmation? ==> r == Session(Home, [])
    ensures s.screen.Confirmation? && !e.NewOrder? ==> r == s
    ensures s.screen.CartView? && s.cart == [] ==> r == s
    ensures s.screen.CartView? && s.cart != [] && e.MinusPressed? ==> r == s.(cart := Minus(s.cart, e.index))
    ensures s.screen.CartView? && s.cart != [] && e.PlusPressed? ==> r == s.(cart := Plus(s.cart, e.index))
    ensures s.screen.CartView? && s.cart != [] && e.DeletePressed? ==> r == s.(cart := Delete(s.cart, e.index))
    ensures s.screen.Home? ==> r == s
  {
    match s.screen
    case CartView =>
      if s.cart == [] then s
      else (
        match e
        case Pay(rawName) =>
          (match Submit(rawName, s.cart, backend)
           case Confirmed(id) => Session(Confirmation(id), s.cart)
           case _ => s)
        case MinusPressed(i) => s.(cart := Minus(s.cart, i))
        case PlusPressed(i) => s.(cart := Plus(s.cart, i))
        case DeletePressed(i) => s.(cart := Delete(s.cart, i))
        case NewOrder => s)
    case Confirmation(_) =>
      if e.NewOrder? then Session(Home, []) else s
    case Home => s
  }

  /** A successful payment shows the backend's positive id and keeps the cart; only new-order empties it. */
  lemma PayThenNewOrder(s: Session, rawName: string, backend: Order -> int)
    requires s.screen.CartView? && s.cart != []
    requires !IsBlank(rawName) && backend(BuildOrder(Trim(rawName), s.cart)) > 0
    ensures var paid := Step(s, Pay(rawName), backend);
            paid == Session(Confirmation(backend(BuildOrder(Trim(rawName), s.cart))), s.cart)
            && Step(paid, NewOrder, backend).cart == []
  {
  }

  /** A refused or failed payment leaves the session exactly as it was, so the customer can retry. */
  lemma FailedPayChangesNothing(s: Session, rawName: string, backend: Order -> int)
    requires s.screen.CartView?
    requires IsBlank(rawName) || backend(BuildOrder(Trim(rawName), s.cart)) <= 0
    ensures Step(s, Pay(rawName), backend) == s
  {
  }

  /** The cart screen keeps the store's invariant under every action. */
  lemma StepPreservesValid(s: Session, e: Event, backend: Order -> int)
    requires ValidCart(s.cart)
    ensures ValidCart(Step(s, e, backend).cart)
  {
    match e
    case MinusPressed(i) => ButtonsPreserveValid(s.cart, i);
    case PlusPressed(i) => ButtonsPreserveValid(s.cart, i);
    case DeletePressed(i) => ButtonsPreserveValid(s.cart, i);
    case _ =>
  }
}
