# Kiosk ordering session — a Dafny model

This project models the ordering-session logic of a restaurant self-service
kiosk (a JavaFX client of a restaurant backend). It covers:

- the **cart store**: lines of (product, quantity, options) with merge-on-add,
  bounds-checked removal and quantity update, and totals;
- the **two suggestion selections** that follow adding a main course:
  - the cart store's seeded one (`getLimitedSuggestions`): dessert, then drink,
    then starter, restricted to available products that are neither the trigger
    nor in the cart;
  - the suggestion popup's unseeded one (`tryShowSuggestion`): starter, then
    dessert, then drink, with no exclusion;
- the **suggestion throttle**: a flag for an open prompt and the time of the
  last shown prompt, with a one-second minimum interval;
- the **hand-off from cart to order**: trimmed-name check, one order item per
  line with comma-joined options, the success test `orderId > 0`, and the rule
  that only the new-order button empties the cart;
- the **quantity buttons** of the cart screen (minus, plus, delete);
- the **product detail screens** of both controller generations: category to
  options, the spinner's range, the availability gates, add-then-suggest, and
  accepting a suggestion.

Prices are whole cents (`nat`), so totals are exact. The backend, the clock,
the pseudo-random generator and the string hash are parameters:

- the catalog is a `seq<Product>`;
- `createOrder` is a function `Order -> int`;
- `now` and `shownAt` are the clock readings at the start and at the end of an
  attempt;
- `Rng` maps (seed, draw number, bound) to an integer;
- `Draw` takes that integer as the index `< bound`; a value outside `[0, bound)`, which `nextInt` never gives, is read as 0.

The popup's generator lives as long as the popup controller. It is modelled as
a seed plus a count of draws made so far.

Modules, one per component:

| module | file | models |
|---|---|---|
| `JavaLang` | java_lang.dfy | `Long.intValue`, `Math.abs(int)`, `Long.toString`, `String.trim`, `String.join(",", …)` |
| `Catalog` | catalog.dfy | the product record and a category query |
| `CartItems` | cart_item.dfy | `CartItem` |
| `CartService` | cart_service.dfy | the cart operations of `CartService` |
| `Suggestions` | suggestions.dfy | both suggestion selections |
| `SuggestionThrottle` | throttle.dfy | the prompt flag and the last-shown time |
| `Orders` | orders.dfy | order building and the pay action's outcome |
| `CartScreen` | cart_screen.dfy | quantity buttons and the cart/confirmation screens |
| `ProductDetail` | detail.dfy | options per category, spinner bounds, add gates |
| `Kiosk` | kiosk.dfy | add-then-suggest and accepting a suggestion, for both screens |

Three behaviours of the code that the model keeps as written:

- The popup selection does not filter out unavailable products, the trigger, or
  products already in the cart. `Suggestions.PopupSkipsExclusions` shows a
  catalog where the popup offers an unavailable starter and a dessert already in
  the cart, while the cart store's selection offers nothing.
- The main controller's suggestion card adds a dessert with the option
  `"Standard"`. The detail screen never produces that option, so the accepted
  dessert always becomes a separate line (`Kiosk.AcceptedDessertIsNewLine`).
- The two controller generations each keep their own throttle. The `Kiosk`
  record stands for one of them at a time.

## Model

| member | source | states |
|---|---|---|
| `JavaLang.ToInt32` | src/main/java/org/example/controller/MainController.java:623 | the order's product id is the 64-bit id narrowed to an int: congruent modulo 2^32, in int range, and unchanged when already in range |
| `JavaLang.Abs32` | Frontend/src/main/java/org/example/services/CartService.java:110 | the seed is the absolute value of the hash, except that MIN_VALUE stays negative |
| `JavaLang.LongText` | Frontend/src/main/java/org/example/services/CartService.java:109 | the id's text is a minus sign exactly for negative ids, followed by decimal digits without leading zeros |
| `JavaLang.LongTextRoundTrip` | Frontend/src/main/java/org/example/services/CartService.java:109 | the id's text reads back as the id, so two ids never share a text and the seed's input names the id |
| `JavaLang.Trim` | src/main/java/org/example/controller/ShoppingCartController.java:114 | the trimmed name is empty exactly when every character is at most a space; otherwise it starts and ends with a non-blank character, and only characters at most a space were dropped on either side |
| `JavaLang.JoinComma` | src/main/java/org/example/controller/MainController.java:626 | no options join to the empty string and a single option to itself; with more, the round trip below applies |
| `JavaLang.JoinCommaRoundTrip` | src/main/java/org/example/controller/ShoppingCartController.java:117 | the joined options string splits back into the options when no option holds a comma |
| `JavaLang.JoinCommaIsLossy` | src/main/java/org/example/controller/MainController.java:626 | the join cannot tell an option containing a comma from two options, nor no options from one empty option |
| `Catalog.OfCategory` | Frontend/src/main/java/org/example/services/CartService.java:117-119 | a category list holds exactly the catalog products of that category |
| `Catalog.OfCategoryAppend` | Frontend/src/main/java/org/example/services/CartService.java:117-119 | the category list keeps catalog order: the query of two runs of the catalog is the query of each, in turn |
| `CartItems.SetQuantity` | src/main/java/org/example/model/CartItem.java:23-25 | setting the quantity keeps product and options, so the line keeps its merge key |
| `CartItems.TotalPrice` | src/main/java/org/example/model/CartItem.java:28-30 | a line of at least one unit costs at least its unit price, and a line of none costs nothing |
| `CartItems.SameProductWithSameOptions` | src/main/java/org/example/model/CartItem.java:33-36 | the merge key: equal product ids and equal option lists; its laws are the three lemmas below |
| `CartItems.TotalPriceOfQuantity` | src/main/java/org/example/model/CartItem.java:28-30 | a line costs price × quantity: linear in the quantity, the unit price at quantity 1, never negative for a non-negative quantity |
| `CartItems.SameIsEquivalence` | src/main/java/org/example/model/CartItem.java:33-36 | "same product with same options" is reflexive, symmetric and transitive |
| `CartItems.SameIgnoresQuantity` | src/main/java/org/example/model/CartItem.java:33-36 | two lines built from the same product id and options are the same whatever their quantities |
| `CartItems.OptionOrderMatters` | Frontend/src/main/java/org/example/services/CartService.java:34-35 | options compare as ordered lists: ["a","b"] and ["b","a"] are different lines |
| `CartService.FindLine` | Frontend/src/main/java/org/example/services/CartService.java:33-40 | the scan finds the first line with the product's id and equal options, or reports that none matches |
| `CartService.AddProduct` | Frontend/src/main/java/org/example/services/CartService.java:29-44 | a new line `(product, quantity, options)` is appended at the end exactly when no line matches; otherwise the line count is unchanged |
| `CartService.AddProductMergesFirstMatch` | Frontend/src/main/java/org/example/services/CartService.java:33-38 | on a match, the first matching line's quantity grows by the added quantity and every other line is unchanged |
| `CartService.AddProductMerges` | Frontend/src/main/java/org/example/services/CartService.java:33-38 | in a valid cart the matching line is unique, so that line grows and the line count stays the same |
| `CartService.AddTwiceMerges` | Frontend/src/main/java/org/example/services/CartService.java:29-44 | adding the same product with the same options twice leaves one new line with both quantities |
| `CartService.AddProductTotals` | Frontend/src/main/java/org/example/services/CartService.java:29-44 | an add raises the unit count by the quantity and the total by price × quantity |
| `CartService.AddProductPreservesValid` | Frontend/src/main/java/org/example/services/CartService.java:29-44 | with a quantity of at least 1, an add keeps merge keys unique and quantities at least 1 |
| `CartService.RemoveItem` | Frontend/src/main/java/org/example/services/CartService.java:47-51 | an index outside the cart changes nothing; otherwise exactly that line goes and the others keep their order |
| `CartService.RemoveItemPreservesValid` | Frontend/src/main/java/org/example/services/CartService.java:47-51 | removal keeps the cart's invariant |
| `CartService.RemoveItemTotals` | Frontend/src/main/java/org/example/services/CartService.java:47-51 | removal lowers the total and the unit count by exactly the removed line's share |
| `CartService.UpdateQuantity` | Frontend/src/main/java/org/example/services/CartService.java:87-91 | only a valid index with a positive quantity changes anything, and only that line's quantity |
| `CartService.UpdateQuantityPreservesValid` | Frontend/src/main/java/org/example/services/CartService.java:87-91 | a quantity update keeps the cart's invariant |
| `CartService.Clear` | Frontend/src/main/java/org/example/services/CartService.java:54-56 | after clearing, the line count, the unit count and the total are all zero |
| `CartService.ItemCount` | Frontend/src/main/java/org/example/services/CartService.java:68-70 | the number of lines is zero exactly when the cart is empty |
| `CartService.GetTotal` | Frontend/src/main/java/org/example/services/CartService.java:59-65 | the loop sums price × quantity over the lines; 0 for an empty cart |
| `CartService.GetTotalProductCount` | Frontend/src/main/java/org/example/services/CartService.java:73-79 | the loop sums the quantities; in a valid cart there are at least as many units as lines |
| `CartService.CountsAgree` | Frontend/src/main/java/org/example/services/CartService.java:68-79 | lines never outnumber units, they are equal exactly when every quantity is 1, and the total is non-negative |
| `Suggestions.Draw` | Frontend/src/main/java/org/example/services/CartService.java:121 | every draw is an in-range index into the non-empty category list, and it is the generator's own value whenever that value lies in range |
| `Suggestions.Seed` | Frontend/src/main/java/org/example/services/CartService.java:108-113 | the seed comes from the trigger's name and id only, as an int that is non-negative unless it is MIN_VALUE |
| `Suggestions.EligiblePool` | Frontend/src/main/java/org/example/services/CartService.java:102-106 | the pool holds exactly the catalog products that are available, are not the trigger, and are not in the cart |
| `Suggestions.EligiblePoolAppend` | Frontend/src/main/java/org/example/services/CartService.java:102-106 | the pool keeps catalog order, which fixes the product each drawn index names |
| `Suggestions.DrawCategories` | Frontend/src/main/java/org/example/services/CartService.java:115-139 | at most one draw per category; each drawn product comes from the pool and from a listed category; only non-empty categories consume a draw |
| `Suggestions.DrawCategoriesComplete` | Frontend/src/main/java/org/example/services/CartService.java:117-138 | a listed category appears in the draw exactly when the pool has a product of it |
| `Suggestions.DrawCategoriesOrdered` | Frontend/src/main/java/org/example/services/CartService.java:117-138 | the draws follow the category order, one product per category |
| `Suggestions.DrawCategoriesPicks` | Frontend/src/main/java/org/example/services/CartService.java:115-139 | each drawn product is the member of its category's candidate list at the index the next draw of the generator gives, the draw number rising by one per product |
| `Suggestions.PicksFromAt` | Frontend/src/main/java/org/example/services/CartService.java:115-139 | the k-th product of a draw sequence is the one the k-th draw after the start picks from its category |
| `Suggestions.Distinct` | Frontend/src/main/java/org/example/services/CartService.java:143 | the result has the same elements with no repeats, and is the input itself when the input has no repeats |
| `Suggestions.Limit` | Frontend/src/main/java/org/example/services/CartService.java:144 | the result is a prefix of at most n elements, and the whole input when it is short enough |
| `Suggestions.LimitedSuggestions` | Frontend/src/main/java/org/example/services/CartService.java:94-146 | at most 3 products, none of them the trigger, in the cart or unavailable, all from the catalog and from dessert, drink or starter; nothing unless the trigger is a main course |
| `Suggestions.LimitedSuggestionsInOrder` | Frontend/src/main/java/org/example/services/CartService.java:142-145 | distinct-and-limit never changes the draws; they come in the order dessert, drink, starter, with no repeats |
| `Suggestions.LimitedSuggestionsPicks` | Frontend/src/main/java/org/example/services/CartService.java:108-137 | the k-th suggestion is the eligible product of its category at the index the k-th nextInt of the generator seeded from the trigger's name and id gives |
| `Suggestions.LimitedSuggestionsCoverCategories` | Frontend/src/main/java/org/example/services/CartService.java:115-139 | dessert, drink and starter are each offered exactly when an eligible product of that category exists |
| `Suggestions.LimitedSuggestionsDeterministic` | Frontend/src/main/java/org/example/services/CartService.java:108-113 | the selection depends only on the trigger's name, id and category, the catalog, and the set of ids in the cart |
| `Suggestions.PopupSuggestions` | src/main/java/org/example/controller/SmartSuggestionPopup.java:50-73 | at most one each of starter, dessert and drink, in that order, all from the catalog; nothing and no draw unless the trigger is a main course; one draw per product offered |
| `Suggestions.PopupSuggestionsCoverCategories` | src/main/java/org/example/controller/SmartSuggestionPopup.java:52-73 | starter, dessert and drink are each offered exactly when the catalog has a product of that category, available or not |
| `Suggestions.PopupSuggestionsPicks` | src/main/java/org/example/controller/SmartSuggestionPopup.java:52-71 | the k-th popup product is the catalog product of its category at the index the popup generator's next nextInt gives, counting the draws the popup made before |
| `Suggestions.PopupSkipsExclusions` | src/main/java/org/example/controller/SmartSuggestionPopup.java:53-72 | on one catalog the popup offers an unavailable product and one already in the cart, where the cart store's selection offers neither |
| `SuggestionThrottle.OpenPopup` | src/main/java/org/example/controller/SmartSuggestionPopup.java:87-88 | opening is refused when a prompt is open or there is no owner window; otherwise the flag is set; the clock never moves |
| `SuggestionThrottle.Admits` | src/main/java/org/example/controller/SmartSuggestionPopup.java:46 | an attempt passes the entry guard exactly when no prompt is open and at least 1000 ms have passed since the last shown one |
| `SuggestionThrottle.Complete` | src/main/java/org/example/controller/SmartSuggestionPopup.java:75-78 | an empty list changes nothing; a non-empty list records its time and opens a prompt if an owner exists |
| `SuggestionThrottle.TryShow` | src/main/java/org/example/controller/SmartSuggestionPopup.java:45-83 | an attempt with a prompt open or within 1000 ms of the last one is a no-op; a successful attempt leaves the prompt open and the clock at the selection's time |
| `SuggestionThrottle.Close` | src/main/java/org/example/controller/SmartSuggestionPopup.java:115-128 | skip, hidden, close-request, direct add and option choices clear the flag; cancelling a sub-dialog changes nothing; no close moves the clock |
| `SuggestionThrottle.CloseAll` | src/main/java/org/example/controller/SmartSuggestionPopup.java:115-128 | closes arriving one after another never move the last-shown time and never raise a lowered flag |
| `SuggestionThrottle.CloseAllKeepsLastShown` | src/main/java/org/example/controller/MainController.java:853-872 | any sequence of closes keeps the clock; one real close clears the flag; only cancels leave the state as it was |
| `SuggestionThrottle.SingleFlight` | src/main/java/org/example/controller/MainController.java:770-773 | while a prompt is open, an attempt changes nothing |
| `SuggestionThrottle.RacingCompletionsOpenOnce` | src/main/java/org/example/controller/MainController.java:810-818 | when two attempts that both passed the guard complete, only the first opens a prompt |
| `SuggestionThrottle.RapidRetryIgnored` | src/main/java/org/example/controller/MainController.java:776-779 | an attempt less than a second after a shown prompt is ignored, whatever closes came in between |
| `SuggestionThrottle.AdmittedAfterCloseAndWait` | src/main/java/org/example/controller/SmartSuggestionPopup.java:46 | after a real close and a full second, the next attempt passes the guard |
| `SuggestionThrottle.CancelKeepsBlocking` | src/main/java/org/example/controller/SmartSuggestionPopup.java:281 | cancelling option sub-dialogs, any number of times, keeps the prompt open and further attempts blocked |
| `SuggestionThrottle.EmptySelectionKeepsClock` | src/main/java/org/example/controller/MainController.java:791-800 | an attempt that selects nothing keeps the last-shown time and keeps admitting |
| `Orders.ToOrderItem` | src/main/java/org/example/controller/ShoppingCartController.java:117 | an order item carries the product id narrowed as Long.intValue does (unchanged when in int range, otherwise congruent modulo 2^32), the line's quantity and the unit price |
| `Orders.BuildItems` | src/main/java/org/example/controller/MainController.java:620-628 | one order item per cart line, in cart order |
| `Orders.BuildOrder` | src/main/java/org/example/controller/MainController.java:630-634 | the order carries the name it is given (the pay action passes the trimmed one), one item per line in order, and a total that is both the cart total and what the items add up to |
| `Orders.OrderTotalMatchesItems` | src/main/java/org/example/controller/ShoppingCartController.java:116-118 | the sum of unit price × quantity over the items equals the cart's total |
| `Orders.OrderItemRecoversLine` | src/main/java/org/example/controller/MainController.java:622-627 | an item gives back its line's id, quantity, price and options when the id fits an int and the options are non-empty and comma-free |
| `Orders.LongIdsCollide` | src/main/java/org/example/controller/MainController.java:623 | any two cart lines whose product ids are 2^32 apart reach the backend under the same product id |
| `Orders.Submit` | src/main/java/org/example/controller/ShoppingCartController.java:113-121 | a blank name gives "name required"; otherwise confirmation exactly when the backend's id is positive, with that id; a send failure otherwise |
| `Orders.BlankNameNeverSent` | src/main/java/org/example/controller/MainController.java:612-617 | with a blank name the outcome does not depend on the backend: nothing is sent |
| `Orders.SentNameIsTrimmed` | src/main/java/org/example/controller/ShoppingCartController.java:114 | the name that is sent is non-empty and has no surrounding blanks |
| `CartScreen.Minus` | src/main/java/org/example/controller/ShoppingCartController.java:160 | minus lowers a quantity above 1 by one and removes a line of quantity 1 |
| `CartScreen.Plus` | src/main/java/org/example/controller/ShoppingCartController.java:165 | plus raises only that line's quantity by one and keeps its merge key |
| `CartScreen.Delete` | src/main/java/org/example/controller/ShoppingCartController.java:172 | delete removes exactly the line at that index, whatever its quantity, and keeps the others in order; an index outside the cart changes nothing |
| `CartScreen.ButtonsPreserveValid` | src/main/java/org/example/controller/MainController.java:690-709 | minus, plus and delete keep merge keys unique and quantities at least 1 |
| `CartScreen.MinusTakesOneUnit` | src/main/java/org/example/controller/MainController.java:690-698 | minus takes exactly one unit and its price out of the cart |
| `CartScreen.PlusAddsOneUnit` | src/main/java/org/example/controller/MainController.java:706-709 | plus adds exactly one unit and its price |
| `CartScreen.MinusUndoesPlus` | src/main/java/org/example/controller/ShoppingCartController.java:160-165 | minus after plus on the same line gives back the cart |
| `CartScreen.MinusAtOneRemoves` | src/main/java/org/example/controller/ShoppingCartController.java:160 | at quantity 1, minus removes the line like delete, while updateQuantity(i, 0) would keep it |
| `CartScreen.Step` | src/main/java/org/example/controller/ShoppingCartController.java:55-172 | pay never changes the cart; on a non-empty cart screen minus, plus and delete apply to the pressed line; nothing happens on an empty cart screen or at home; on the confirmation screen only new-order acts, and it empties the cart |
| `CartScreen.PayThenNewOrder` | src/main/java/org/example/controller/ShoppingCartController.java:119-120 | a positive backend id shows confirmation with that id and the cart intact; new-order then empties the cart |
| `CartScreen.FailedPayChangesNothing` | src/main/java/org/example/controller/ShoppingCartController.java:115-120 | a blank name or a non-positive backend answer leaves screen and cart unchanged |
| `CartScreen.StepPreservesValid` | src/main/java/org/example/controller/ShoppingCartController.java:158-172 | every cart-screen action keeps the cart's invariant |
| `ProductDetail.ChosenLabels` | src/main/java/org/example/controller/MenuDisplayController.java:134-139 | the labels are exactly the texts of the selected toggles, one per selected group |
| `ProductDetail.ChosenLabelsAppend` | src/main/java/org/example/controller/MenuDisplayController.java:134-139 | the labels come in the order of the toggle groups |
| `ProductDetail.DetailOptions` | src/main/java/org/example/controller/MenuDisplayController.java:117-163 | main course: the selected texts of spice then side, each once; dessert: [] or [with coffee]; drink: exactly one of with ice / no ice; any other category: no options |
| `ProductDetail.MainDetailOptions` | src/main/java/org/example/controller/MainController.java:419-476 | main course: always [spice, side]; dessert: [] or ["Avec Café"]; drink: exactly one option, "Avec Glaçons" exactly when ice is chosen; otherwise none |
| `ProductDetail.DetailScreensAgree` | src/main/java/org/example/controller/MainController.java:419-470 | with the same labels and both toggles selected, the two detail screens produce the same option lists |
| `ProductDetail.IceChoiceSplitsLines` | src/main/java/org/example/controller/MenuDisplayController.java:157 | the same drink with and without ice makes two cart lines |
| `ProductDetail.SpinnerValue` | src/main/java/org/example/controller/MenuDisplayController.java:167 | the quantity added lies in 1..max and is the requested one when that is in range |
| `ProductDetail.MainSpinnerMax` | src/main/java/org/example/controller/MainController.java:482-483 | the main controller's spinner tops out at min(10, stock), or at 1 without stock |
| `ProductDetail.MainGateIsStricter` | src/main/java/org/example/controller/MainController.java:297 | the main controller's card needs availability and stock; anything it lets through, the menu display's availability gate lets through too |
| `ProductDetail.MenuCardAddable` | src/main/java/org/example/controller/MenuDisplayController.java:66-70 | the menu display screen's add button is enabled exactly for an available product |
| `ProductDetail.MainCardAddable` | src/main/java/org/example/controller/MainController.java:297 | the main controller's card is enabled exactly for an available product with stock |
| `ProductDetail.MainDetailAddable` | src/main/java/org/example/controller/MainController.java:492-496 | the main controller's detail add button is enabled exactly when there is stock |
| `Kiosk.MenuDisplayAdd` | src/main/java/org/example/controller/MenuDisplayController.java:175-184 | an unavailable product gets no add; otherwise the line is added first, then the popup selection runs only if the throttle admits, and moves the generator only then |
| `Kiosk.MenuDisplayAddAddsUnits` | src/main/java/org/example/controller/MenuDisplayController.java:175-177 | every add puts 1 to 10 units into the cart at the product's price, whatever the suggestion side does |
| `Kiosk.OnlyMainCourseSuggests` | src/main/java/org/example/controller/SmartSuggestionPopup.java:52-78 | adding anything but a main course leaves the throttle and the generator untouched |
| `Kiosk.MainAdd` | src/main/java/org/example/controller/MainController.java:497-502 | the line is added first; when the throttle admits, the suggestions are the seeded selection on the updated cart and the throttle moves as an attempt with that many products, so an empty selection leaves it alone; nothing suggested ever is the product just added or in the cart |
| `Kiosk.MainAddRespectsStock` | src/main/java/org/example/controller/MainController.java:482-499 | the main controller adds at least 1 unit, at most 10, and never more than the stock |
| `Kiosk.DefaultOptions` | src/main/java/org/example/controller/MainController.java:986-992 | an accepted drink gets ice, an accepted dessert gets "Standard", anything else gets no options |
| `Kiosk.AcceptLimited` | src/main/java/org/example/controller/MainController.java:986-997 | accepting adds one unit with the default options, so the total rises by the product's price and the cart stays valid; the prompt closes with the clock kept |
| `Kiosk.AcceptedDessertIsNewLine` | src/main/java/org/example/controller/MainController.java:989-992 | an accepted dessert never merges with the same dessert added on the detail screen |
| `Kiosk.AcceptedDrinkJoinsIcedLine` | src/main/java/org/example/controller/MainController.java:987-988 | an accepted drink merges with the same drink added with ice on the detail screen |
| `Kiosk.PopupOptions` | src/main/java/org/example/controller/SmartSuggestionPopup.java:219-272 | each button records its own label: with or without ice, with coffee or nothing; a direct add, a fresh dessert and cancel record nothing |
| `Kiosk.PopupIceJoinsDetailLine` | src/main/java/org/example/controller/SmartSuggestionPopup.java:254-272 | an iced or plain drink accepted in the popup joins the detail screen's line for the same choice exactly when the two translated labels agree |
| `Kiosk.Offered` | src/main/java/org/example/controller/SmartSuggestionPopup.java:164-175 | a drink or a dessert opens its option sub-dialog, anything else is added directly |
| `Kiosk.AcceptFromPopup` | src/main/java/org/example/controller/SmartSuggestionPopup.java:165-177 | cancelling a sub-dialog changes nothing; every other offered choice adds one unit with its options and clears the flag; the clock and the generator do not move |
| `Kiosk.AcceptFromPopupAddsOne` | src/main/java/org/example/controller/SmartSuggestionPopup.java:219-235 | a completed popup choice adds exactly one unit and keeps the cart's invariant |

## Left out

- Product description, image, and spicy flag: presentation only. No modelled operation reads them.
- JavaFX screens, cards, styling, hover effects, alerts and notifications: presentation with no state of its own.
- Network I/O to the backend: the catalog is a parameter, and order creation is a function from order to integer.
- Localized labels and resource bundles: option labels are opaque strings.
- The drink and dessert name tests that pick the coffee or the ice sub-dialog: the model lets the choice carry which dialog was shown. The tests are substring matches on localized names.
- `Platform.runLater`, `PauseTransition` delays and the clock: an attempt is modelled as a guard at `now` followed by its completion at `shownAt`. Interleavings are limited to the two-completions case of `SuggestionThrottle.RacingCompletionsOpenOnce`.
- The singleton accessor of the cart store: lifecycle plumbing.
- `getItems`: it returns a copy of the line list. Under value semantics that is the cart itself. The buttons' in-place edits through the shared lines are modelled as indexed operations on the cart.
- `createCategorySection` in the main controller: it is never called.
- The bit-level behaviour of `java.util.Random` and `String.hashCode`: both are parameters. `Rng` gives one value per draw number, so it does not model how many internal steps a bound consumes.
- `Suggestions.Distinct`: uses value equality where the source's `distinct()` compares products by identity, since the product record does not override `equals`. The draws come from distinct categories, so neither can drop anything (`Suggestions.LimitedSuggestionsInOrder`).
- `CartService.AddProduct`: Java `int` overflow of quantities and counts is not modelled. Quantities are unbounded integers.
- `CartService.GetTotal`: the source sums `double` prices. The model sums whole cents, so rounding of the floating-point sum is not modelled.
- The order's `totalPrice` and `unitPrice` are `double` in the source and whole cents here.
