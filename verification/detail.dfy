/**
 * The product detail screen, in both of its versions: which options a
 * category offers and how the chosen toggles become the option list of the
 * cart line, the quantity spinner's range, and which products get an add
 * action at all. Option labels are opaque strings.
 */
module ProductDetail {
  import opened Catalog
  import opened CartItems
  import opened CartService

  /** A toggle group's selection: possibly nothing selected. */
  datatype Choice = NoChoice | Chosen(text: string)

  /** What the customer set on the detail screen. */
  datatype Selection = Selection(spice: Choice, side: Choice, withCoffee: bool, withIce: bool)

  /** The translated labels that the menu display screen puts into option lists. */
  datatype OptionLabels = OptionLabels(withCoffee: string, withIce: string, noIce: string)

  /** How many toggle groups have a selection. */
  function ChosenCount(choices: seq<Choice>): nat {
    if choices == [] then 0 else (if choices[0].Chosen? then 1 else 0) + ChosenCount(choices[1..])
  }

  /** The toggle groups in order: each group with a selection adds its text, the others nothing. */
  function ChosenLabels(choices: seq<Choice>): (r: seq<string>)
    ensures |r| == ChosenCount(choices) <= |choices|
    ensures forall x :: x in r <==> Chosen(x) in choices
  {
    if choices == [] then []
    else
      var rest := ChosenLabels(choices[1..]);
      assert choices == [choices[0]] + choices[1..];
      match choices[0]
      case Chosen(x) => [x] + rest
      case NoChoice => rest
  }

  /** The labels keep the order of the groups: reading two runs of groups is reading each in turn. */
  lemma {:induction false} ChosenLabelsAppend(a: seq<Choice>, b: seq<Choice>)
    ensures ChosenLabels(a + b) == ChosenLabels(a) + ChosenLabels(b)
    decreases |a|
  {
    if a != [] {
      assert (a + b)[1..] == a[1..] + b;
      ChosenLabelsAppend(a[1..], b);
    } else {
      assert a + b == b;
    }
  }

  /** The menu display screen's rule from category to option list. */
  function DetailOptions(categoryId: int, sel: Selection, labels: OptionLabels): (r: seq<string>)
    ensures |r| <= 2
    ensures categoryId == Main ==> forall x :: x in r ==> Chosen(x) == sel.spice || Chosen(x) == sel.side
    ensures categoryId == Main && sel.spice.Chosen? && sel.side.Chosen? ==> r == [sel.spice.text, sel.side.text]
    ensures categoryId == Main && sel.spice.Chosen? && !sel.side.Chosen? ==> r == [sel.spice.text]
    ensures categoryId == Main && !sel.spice.Chosen? && sel.side.Chosen? ==> r == [sel.side.text]
    ensures categoryId == Main ==> (r == [] <==> sel.spice == NoChoice && sel.side == NoChoice)
    ensures categoryId == Dessert ==> (r == [] || r == [labels.withCoffee]) && (r != [] <==> sel.withCoffee)
    ensures categoryId == Drink ==> |r| == 1 && (r[0] == labels.withIce || r[0] == labels.noIce)
    ensures categoryId == Drink ==> (sel.withIce ==> r[0] == labels.withIce) && (!sel.withIce ==> r[0] == labels.noIce)
    ensures categoryId !in {Main, Dessert, Drink} ==> r == []
  {
    if categoryId == Main then
      var r := ChosenLabels([sel.spice, sel.side]);
      assert ChosenLabels([sel.side]) == (if sel.side.Chosen? then [sel.side.text] else []);
      r
    else if categoryId == Dessert then (if sel.withCoffee then [labels.withCoffee] else [])
    else if categoryId == Drink then [if sel.withIce then labels.withIce else labels.noIce]
    else []
  }

  /** The option literals of the main controller's detail screen. */
  const WithCoffeeText: string := "Avec Café"
  const WithIceText: string := "Avec Glaçons"
  const NoIceText: string := "Sans Glaçons"

  /**
   * The main controller's rule: a main course always reports spice and side
   * (both groups start with a selection), the other two use fixed literals.
   */
  function MainDetailOptions(categoryId: int, spice: string, side: string, withCoffee: bool, withIce: bool): (r: seq<string>)
    ensures categoryId == Main ==> |r| == 2 && r[0] == spice && r[1] == side
    ensures categoryId == Dessert ==> r == (if withCoffee then [WithCoffeeText] else [])
    ensures categoryId == Drink ==> |r| == 1 && (r[0] == WithIceText <==> withIce)
    ensures categoryId !in {Main, Dessert, Drink} ==> r == []
  {
    if categoryId == Main then [spice, side]
    else if categoryId == Dessert then (if withCoffee then [WithCoffeeText] else [])
    else if categoryId == Drink then [if withIce then WithIceText else NoIceText]
    else []
  }

  /** The two screens agree whenever the same labels reach the option list. */
  lemma DetailScreensAgree(categoryId: int, spice: string, side: string, withCoffee: bool, withIce: bool)
    ensures DetailOptions(categoryId, Selection(Chosen(spice), Chosen(side), withCoffee, withIce),
                          OptionLabels(WithCoffeeText, WithIceText, NoIceText))
         == MainDetailOptions(categoryId, spice, side, withCoffee, withIce)
  {
  }

  /**
   * Different option choices for the same drink become separate cart lines:
   * the option list is part of the merge key.
   */
  lemma IceChoiceSplitsLines(p: Product, labels: OptionLabels)
    requires p.categoryId == Drink && labels.withIce != labels.noIce
    ensures var iced := DetailOptions(Drink, Selection(NoChoice, NoChoice, false, true), labels);
            var plain := DetailOptions(Drink, Selection(NoChoice, NoChoice, false, false), labels);
            |AddProduct(AddProduct([], p, 1, iced), p, 1, plain)| == 2
  {
  }

  // ---------------------------------------------------------------- quantity

  /** The menu display screen's spinner runs from 1 to 10. */
  const MaxPerAdd: int := 10

  /** An integer spinner with range 1..max keeps its value inside the range. */
  function SpinnerValue(requested: int, max: int): (r: int)
    requires 1 <= max
    ensures 1 <= r <= max
    ensures 1 <= requested <= max ==> r == requested
    ensures requested < 1 ==> r == 1
    ensures requested > max ==> r == max
  {
    if requested < 1 then 1 else if requested > max then max else requested
  }

  /** The main controller's spinner bound: the stock, capped at 10, and 1 when the stock is not positive. */
  function MainSpinnerMax(p: Product): (r: int)
    ensures 1 <= r <= MaxPerAdd
    ensures p.stockQuantity > 0 ==> r <= p.stockQuantity
    ensures p.stockQuantity >= MaxPerAdd ==> r == MaxPerAdd
    ensures 0 < p.stockQuantity < MaxPerAdd ==> r == p.stockQuantity
    ensures p.stockQuantity <= 0 ==> r == 1
  {
    var maxQty := if p.stockQuantity > 0 then p.stockQuantity else 1;
    if maxQty < MaxPerAdd then maxQty else MaxPerAdd
  }

  // ---------------------------------------------------------------- gates

  /** The menu display screen's card: only an available product opens the detail screen. */
  predicate MenuCardAddable(p: Product) {
    p.available
  }

  /** The main controller's card also requires stock, and its detail button only stock. */
  predicate MainCardAddable(p: Product) {
    p.available && p.stockQuantity > 0
  }

  predicate MainDetailAddable(p: Product) {
    p.stockQuantity > 0
  }

  /** The main controller's gates are the stricter ones: whatever it lets through, the menu display would too. */
  lemma MainGateIsStricter(p: Product)
    ensures MainCardAddable(p) ==> MenuCardAddable(p) && MainDetailAddable(p)
    ensures MenuCardAddable(p) && p.stockQuantity <= 0 ==> !MainCardAddable(p)
  {
  }
}
