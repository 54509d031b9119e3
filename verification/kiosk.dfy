/**
 * The add-to-cart flows of the two detail screens and the acceptance of a
 * suggestion, over the state they share: the cart, the suggestion throttle
 * and how far the popup's generator has been drawn.
 *  - The menu display screen adds, then asks the suggestion popup, whose
 *    selection is the unseeded one.
 *  - The main controller adds, then runs its own throttle around the cart
 *    store's seeded selection, computed on the cart after the add.
 */
module Kiosk {
  import opened Catalog
  import opened CartItems
  import opened CartService
  import opened Suggestions
  import opened SuggestionThrottle
  import opened ProductDetail

  datatype Kiosk = Kiosk(cart: Cart, throttle: Throttle, draws: nat)

  /** Every line of the cart that has the id of `p` also has its price: the catalog has one record per id. */
  predicate PriceAgrees(c: Cart, p: Product) {
    forall k :: 0 <= k < |c| && c[k].product.id == p.id ==> c[k].product.priceCents == p.priceCents
  }

  // ---------------------------------------------------------------- menu display screen

  /**
   * The menu display screen's add button: the line is added first, then the
   * popup is asked; its selection, and so the generator, only runs when the
   * throttle lets the attempt through. An unavailable product has no button.
   */
  function MenuDisplayAdd(k: Kiosk, p: Product, sel: Selection, labels: OptionLabels, requested: int,
                          rng: Rng, streamSeed: int, catalog: seq<Product>,
                          now: int, shownAt: int, ownerPresent: bool): (r: Kiosk)
    ensures !MenuCardAddable(p) ==> r == k
    ensures MenuCardAddable(p) ==>
              r.cart == AddProduct(k.cart, p, SpinnerValue(requested, MaxPerAdd), DetailOptions(p.categoryId, sel, labels))
    ensures !Admits(k.throttle, now) ==> r.throttle == k.throttle && r.draws == k.draws
    ensures MenuCardAddable(p) && Admits(k.throttle, now) ==>
              var picked := PopupSuggestions(rng, streamSeed, k.draws, p, catalog);
              r.draws == picked.1 && r.throttle == TryShow(k.throttle, now, shownAt, |picked.0|, ownerPresent)
  {
    if !MenuCardAddable(p) then k
    else
      var added := AddProduct(k.cart, p, SpinnerValue(requested, MaxPerAdd), DetailOptions(p.categoryId, sel, labels));
      if !Admits(k.throttle, now) then k.(cart := added)
      else
        var picked := PopupSuggestions(rng, streamSeed, k.draws, p, catalog);
        Kiosk(added, Complete(k.throttle, shownAt, |picked.0|, ownerPresent), picked.1)
  }

  /** The add is never lost to the throttle: 1 to 10 units reach the cart whatever the suggestion side does. */
  lemma MenuDisplayAddAddsUnits(k: Kiosk, p: Product, sel: Selection, labels: OptionLabels, requested: int,
                                rng: Rng, streamSeed: int, catalog: seq<Product>,
                                now: int, shownAt: int, ownerPresent: bool)
    requires MenuCardAddable(p) && PriceAgrees(k.cart, p)
    ensures var r := MenuDisplayAdd(k, p, sel, labels, requested, rng, streamSeed, catalog, now, shownAt, ownerPresent);
            var added := TotalProductCount(r.cart) - TotalProductCount(k.cart);
            1 <= added <= MaxPerAdd && Total(r.cart) == Total(k.cart) + p.priceCents * added
  {
    AddProductTotals(k.cart, p, SpinnerValue(requested, MaxPerAdd), DetailOptions(p.categoryId, sel, labels));
  }

  /** Only a main course moves the throttle or the generator; other adds touch the cart alone. */
  lemma OnlyMainCourseSuggests(k: Kiosk, p: Product, sel: Selection, labels: OptionLabels, requested: int,
                               rng: Rng, streamSeed: int, catalog: seq<Product>,
                               now: int, shownAt: int, ownerPresent: bool)
    requires p.categoryId != Main
    ensures var r := MenuDisplayAdd(k, p, sel, labels, requested, rng, streamSeed, catalog, now, shownAt, ownerPresent);
            r.throttle == k.throttle && r.draws == k.draws
  {
  }

  // ---------------------------------------------------------------- main controller

  /**
   * The main controller's add button (present only with stock on an
   * available product's card): add, then run the seeded selection on the
   * cart as it is after the add.
   */
  function MainAdd(k: Kiosk, p: Product, spice: string, side: string, withCoffee: bool, withIce: bool, requested: int,
                   rng: Rng, hash: string -> int, catalog: seq<Product>,
                   now: int, shownAt: int, ownerPresent: bool): (r: (Kiosk, seq<Product>))
    ensures !MainCardAddable(p) ==> r == (k, [])
    ensures MainCardAddable(p) ==>
              r.0.cart == AddProduct(k.cart, p, SpinnerValue(requested, MainSpinnerMax(p)), MainDetailOptions(p.categoryId, spice, side, withCoffee, withIce))
    ensures r.0.draws == k.draws
    ensures !Admits(k.throttle, now) ==> r.0.throttle == k.throttle && r.1 == []
    ensures r.1 != [] ==> r.0.throttle == Throttle(ownerPresent, shownAt)
    ensures MainCardAddable(p) && Admits(k.throttle, now) ==>
              r.1 == LimitedSuggestions(rng, hash, p, catalog, r.0.cart)
              && r.0.throttle == TryShow(k.throttle, now, shownAt, |r.1|, ownerPresent)
    ensures forall x :: x in r.1 ==> x.id != p.id && x.id !in CartIds(r.0.cart) && x.available
  {
    if !MainCardAddable(p) then (k, [])
    else
      var added := AddProduct(k.cart, p, SpinnerValue(requested, MainSpinnerMax(p)), MainDetailOptions(p.categoryId, spice, side, withCoffee, withIce));
      if !Admits(k.throttle, now) then (k.(cart := added), [])
      else
        var picked := LimitedSuggestions(rng, hash, p, catalog, added);
        (Kiosk(added, Complete(k.throttle, shownAt, |picked|, ownerPresent), k.draws), picked)
  }

  /** The main controller's add never takes more units than the stock allows, nor more than 10. */
  lemma MainAddRespectsStock(k: Kiosk, p: Product, spice: string, side: string, withCoffee: bool, withIce: bool, requested: int,
                             rng: Rng, hash: string -> int, catalog: seq<Product>,
                             now: int, shownAt: int, ownerPresent: bool)
    requires MainCardAddable(p) && PriceAgrees(k.cart, p)
    ensures var r := MainAdd(k, p, spice, side, withCoffee, withIce, requested, rng, hash, catalog, now, shownAt, ownerPresent).0;
            var added := TotalProductCount(r.cart) - TotalProductCount(k.cart);
            1 <= added <= MaxPerAdd && added <= p.stockQuantity
  {
    AddProductTotals(k.cart, p, SpinnerValue(requested, MainSpinnerMax(p)), MainDetailOptions(p.categoryId, spice, side, withCoffee, withIce));
  }

  // ---------------------------------------------------------------- accepting a suggestion

  /** The dessert option of the suggestion card, which no detail screen produces. */
  const StandardText: string := "Standard"

  /** The options the main controller's suggestion card adds with: ice for a drink, "Standard" for a dessert. */
  function DefaultOptions(categoryId: int): (r: seq<string>)
    ensures |r| <= 1
    ensures categoryId == Drink ==> r == [WithIceText]
    ensures categoryId == Dessert ==> r == [StandardText]
    ensures categoryId !in {Drink, Dessert} ==> r == []
  {
    if categoryId == Drink then [WithIceText]
    else if categoryId == Dessert then [StandardText]
    else []
  }

  /**
   * The main controller's suggestion card: one unit with the default options
   * at the product's price, and the prompt goes away with the clock kept.
   */
  function AcceptLimited(k: Kiosk, p: Product): (r: Kiosk)
    ensures r.cart == AddProduct(k.cart, p, 1, DefaultOptions(p.categoryId))
    ensures PriceAgrees(k.cart, p) ==> TotalProductCount(r.cart) == TotalProductCount(k.cart) + 1
    ensures PriceAgrees(k.cart, p) ==> Total(r.cart) == Total(k.cart) + p.priceCents
    ensures ValidCart(k.cart) ==> ValidCart(r.cart)
    ensures !r.throttle.popupOpen && r.throttle.lastShown == k.throttle.lastShown && r.draws == k.draws
  {
    var options := DefaultOptions(p.categoryId);
    var added := AddProduct(k.cart, p, 1, options);
    assert PriceAgrees(k.cart, p) ==> Total(added) == Total(k.cart) + p.priceCents
                                      && TotalProductCount(added) == TotalProductCount(k.cart) + 1 by {
      if PriceAgrees(k.cart, p) {
        AddProductTotals(k.cart, p, 1, options);
      }
    }
    assert ValidCart(k.cart) ==> ValidCart(added) by {
      if ValidCart(k.cart) {
        AddProductPreservesValid(k.cart, p, 1, options);
      }
    }
    Kiosk(added, Close(k.throttle, AcceptSuggestion), k.draws)
  }

  /**
   * An accepted drink joins the line of the same drink added on the detail
   * screen with ice, but an accepted dessert never joins a dessert added
   * there: "Standard" is no option the detail screen produces.
   */
  lemma AcceptedDessertIsNewLine(p: Product, spice: string, side: string, withCoffee: bool)
    requires p.categoryId == Dessert
    ensures var c := AddProduct([], p, 1, MainDetailOptions(Dessert, spice, side, withCoffee, false));
            |AddProduct(c, p, 1, DefaultOptions(Dessert))| == 2
  {
  }

  lemma AcceptedDrinkJoinsIcedLine(p: Product, spice: string, side: string)
    requires p.categoryId == Drink
    ensures var c := AddProduct([], p, 1, MainDetailOptions(Drink, spice, side, false, true));
            AddProduct(c, p, 1, DefaultOptions(Drink)) == [CartItem(p, 2, [WithIceText])]
  {
  }

  /** The choices the suggestion popup offers once a card's add button was pressed. */
  datatype PopupChoice =
    | AddDirect                      // a starter or main course: added at once
    | DrinkCoffee(withCoffee: bool)  // a coffee drink's sub-dialog
    | DrinkIce(withIce: bool)        // any other drink's sub-dialog
    | DessertCoffee(withCoffee: bool) // a dessert that goes with coffee
    | DessertFresh                   // any other dessert: one confirm button
    | CancelOptions                  // the sub-dialog's cancel button

  /** The popup's translated option labels. */
  datatype PopupLabels = PopupLabels(drinkWithCoffee: string, withIce: string, withoutIce: string, dessertWithCoffee: string)

  /** Which choices the popup shows for a product: a sub-dialog for drinks and desserts, a direct add otherwise. */
  predicate Offered(p: Product, choice: PopupChoice) {
    if p.categoryId == Drink then choice.DrinkCoffee? || choice.DrinkIce? || choice.CancelOptions?
    else if p.categoryId == Dessert then choice.DessertCoffee? || choice.DessertFresh? || choice.CancelOptions?
    else choice.AddDirect?
  }

  /** The option list recorded by the button pressed: the label on that button, or none. */
  function PopupOptions(choice: PopupChoice, labels: PopupLabels): (r: seq<string>)
    ensures |r| <= 1
    ensures choice.DrinkIce? ==> r == [if choice.withIce then labels.withIce else labels.withoutIce]
    ensures choice.DrinkCoffee? ==> r == (if choice.withCoffee then [labels.drinkWithCoffee] else [])
    ensures choice.DessertCoffee? ==> r == (if choice.withCoffee then [labels.dessertWithCoffee] else [])
    ensures choice.AddDirect? || choice.DessertFresh? || choice.CancelOptions? ==> r == []
  {
    match choice
    case DrinkCoffee(w) => if w then [labels.drinkWithCoffee] else []
    case DrinkIce(w) => [if w then labels.withIce else labels.withoutIce]
    case DessertCoffee(w) => if w then [labels.dessertWithCoffee] else []
    case _ => []
  }

  /**
   * The popup's ice buttons and the menu display's ice toggle read different
   * translation keys: an iced drink accepted in the popup joins the line of the
   * same drink added on the detail screen exactly when the two labels agree.
   */
  lemma PopupIceJoinsDetailLine(p: Product, withIce: bool, labels: OptionLabels, popupLabels: PopupLabels)
    ensures var c := AddProduct([], p, 1, DetailOptions(Drink, Selection(NoChoice, NoChoice, false, withIce), labels));
            var r := AddProduct(c, p, 1, PopupOptions(DrinkIce(withIce), popupLabels));
            |r| == 1 <==> (if withIce then popupLabels.withIce == labels.withIce else popupLabels.withoutIce == labels.noIce)
  {
  }

  /**
   * A choice in the suggestion popup: cancelling a sub-dialog changes nothing;
   * every other offered choice adds one unit and lowers the flag.
   */
  function AcceptFromPopup(k: Kiosk, p: Product, choice: PopupChoice, labels: PopupLabels): (r: Kiosk)
    requires Offered(p, choice)
    ensures choice.CancelOptions? ==> r == k
    ensures !choice.CancelOptions? ==> r.cart == AddProduct(k.cart, p, 1, PopupOptions(choice, labels))
    ensures !choice.CancelOptions? ==> !r.throttle.popupOpen
    ensures r.throttle.lastShown == k.throttle.lastShown && r.draws == k.draws
  {
    if choice.CancelOptions? then k.(throttle := Close(k.throttle, SubDialogCancelled))
    else Kiosk(AddProduct(k.cart, p, 1, PopupOptions(choice, labels)),
               Close(k.throttle, if choice.AddDirect? then AcceptSuggestion else OptionChosen), k.draws)
  }

  /** Every completed choice in the popup adds one unit and keeps the store's invariant. */
  lemma AcceptFromPopupAddsOne(k: Kiosk, p: Product, choice: PopupChoice, labels: PopupLabels)
    requires Offered(p, choice) && !choice.CancelOptions?
    requires PriceAgrees(k.cart, p) && ValidCart(k.cart)
    ensures TotalProductCount(AcceptFromPopup(k, p, choice, labels).cart) == TotalProductCount(k.cart) + 1
    ensures ValidCart(AcceptFromPopup(k, p, choice, labels).cart)
  {
    AddProductTotals(k.cart, p, 1, PopupOptions(choice, labels));
    AddProductPreservesValid(k.cart, p, 1, PopupOptions(choice, labels));
  }
}
