/**
 * Suggestion selection after a main course is added. Two versions live in the
 * program and both are modelled:
 *  - LimitedSuggestions: the cart store's seeded selection (dessert, drink,
 *    starter), restricted to available products that are neither the trigger
 *    nor already in the cart;
 *  - PopupSuggestions: the suggestion popup's selection (starter, dessert,
 *    drink) from a generator shared by the whole session, with no exclusion.
 * The pseudo-random generator and the string hash are parameters.
 */
module Suggestions {
  import opened JavaLang
  import opened Catalog
  import opened CartItems
  import opened CartService

  /** A pseudo-random source: what the `drawNo`-th nextInt(bound) of a generator seeded with `seed` returns. */
  type Rng = (int, nat, nat) -> int

  /**
   * One nextInt(bound): an index into a non-empty list. nextInt's own range
   * promise is kept by reading any value the generator gives outside
   * [0, bound) as 0.
   */
  function Draw(rng: Rng, seed: int, drawNo: nat, bound: nat): (r: nat)
    requires 0 < bound
    ensures r < bound
    ensures 0 <= rng(seed, drawNo, bound) < bound ==> r == rng(seed, drawNo, bound)
  {
    var v := rng(seed, drawNo, bound);
    if 0 <= v < bound then v else 0
  }

  /** Math.abs((name + id).hashCode()), the string hash being a parameter. */
  function Seed(hash: string -> int, trigger: Product): (r: int)
    ensures IsInt32(r)
    ensures 0 <= r || r == MinInt32
  {
    Abs32(ToInt32(hash(trigger.name + LongText(trigger.id))))
  }

  // ---------------------------------------------------------------- helpers

  function CartIds(c: Cart): set<int> {
    set k | 0 <= k < |c| :: c[k].product.id
  }

  predicate Eligible(p: Product, triggerId: int, inCart: set<int>) {
    p.id != triggerId && p.id !in inCart && p.available
  }

  /** The catalog products that may be suggested, in catalog order. */
  function EligiblePool(catalog: seq<Product>, triggerId: int, inCart: set<int>): (r: seq<Product>)
    ensures |r| <= |catalog|
    ensures forall x :: x in r <==> x in catalog && Eligible(x, triggerId, inCart)
  {
    if catalog == [] then []
    else
      var rest := EligiblePool(catalog[1..], triggerId, inCart);
      assert forall x :: x in catalog <==> x == catalog[0] || x in catalog[1..];
      if Eligible(catalog[0], triggerId, inCart) then [catalog[0]] + rest else rest
  }

  /** The pool keeps catalog order: filtering two runs of the catalog is filtering each in turn. */
  lemma {:induction false} EligiblePoolAppend(a: seq<Product>, b: seq<Product>, triggerId: int, inCart: set<int>)
    ensures EligiblePool(a + b, triggerId, inCart) == EligiblePool(a, triggerId, inCart) + EligiblePool(b, triggerId, inCart)
    decreases |a|
  {
    if a != [] {
      assert (a + b)[1..] == a[1..] + b;
      EligiblePoolAppend(a[1..], b, triggerId, inCart);
    } else {
      assert a + b == b;
    }
  }

  predicate HasCategory(s: seq<Product>, cat: int) {
    exists i :: 0 <= i < |s| && s[i].categoryId == cat
  }

  predicate NoDuplicates<T(==)>(s: seq<T>) {
    forall i, j :: 0 <= i < j < |s| ==> s[i] != s[j]
  }

  /** Position of `cat` in a draw order (the length of the order when absent). */
  function Rank(order: seq<int>, cat: int): (r: nat)
    ensures r <= |order|
    ensures r < |order| <==> cat in order
    ensures r < |order| ==> order[r] == cat
  {
    if order == [] then 0 else if order[0] == cat then 0 else 1 + Rank(order[1..], cat)
  }

  /** Categories appear strictly in the given order: at most one product per category. */
  predicate InDrawOrder(s: seq<Product>, order: seq<int>) {
    forall i, j :: 0 <= i < j < |s| ==> Rank(order, s[i].categoryId) < Rank(order, s[j].categoryId)
  }

  lemma InDrawOrderNoDuplicates(s: seq<Product>, order: seq<int>)
    requires InDrawOrder(s, order)
    ensures NoDuplicates(s)
  {
  }

  // ---------------------------------------------------------------- drawing
  /**
   * For each category of `order` in turn, draw one product of that category
   * from `pool` when there is one. Only a non-empty category consumes a draw,
   * so the result's second component counts the draws made from `drawNo` on.
   */
  function DrawCategories(rng: Rng, seed: int, drawNo: nat, pool: seq<Product>, order: seq<int>): (r: (seq<Product>, nat))
    ensures |r.0| <= |order|
    ensures r.1 == drawNo + |r.0|
    ensures forall x :: x in r.0 ==> x in pool && x.categoryId in order
    decreases |order|
  {
    if order == [] then ([], drawNo)
    else
      var candidates := OfCategory(pool, order[0]);
      if candidates == [] then DrawCategories(rng, seed, drawNo, pool, order[1..])
      else
        var x := candidates[Draw(rng, seed, drawNo, |candidates|)];
        var rest := DrawCategories(rng, seed, drawNo + 1, pool, order[1..]);
        ([x] + rest.0, rest.1)
  }

  /** The product at draw number `drawNo` is the one the generator names in its category's list. */
  predicate PicksOne(x: Product, rng: Rng, seed: int, drawNo: nat, pool: seq<Product>) {
    var cs := OfCategory(pool, x.categoryId);
    0 < |cs| && x == cs[Draw(rng, seed, drawNo, |cs|)]
  }

  /** Which product each draw picks: every product of `r`, the draws numbered on from `drawNo`. */
  predicate PicksFrom(r: seq<Product>, rng: Rng, seed: int, drawNo: nat, pool: seq<Product>)
    decreases |r|
  {
    r == [] || (PicksOne(r[0], rng, seed, drawNo, pool) && PicksFrom(r[1..], rng, seed, drawNo + 1, pool))
  }

  /** The k-th product of a run of draws is the one the (drawNo + k)-th draw names. */
  lemma {:induction false} PicksFromAt(r: seq<Product>, rng: Rng, seed: int, drawNo: nat, pool: seq<Product>, k: nat)
    requires PicksFrom(r, rng, seed, drawNo, pool) && k < |r|
    ensures PicksOne(r[k], rng, seed, drawNo + k, pool)
    decreases k
  {
    if k > 0 {
      PicksFromAt(r[1..], rng, seed, drawNo + 1, pool, k - 1);
      assert r[1..][k - 1] == r[k];
      assert (drawNo + 1) + (k - 1) == drawNo + k;
    }
  }

  /** Every product drawn is the one the generator's draw names in its category's list. */
  lemma {:induction false} DrawCategoriesPicks(rng: Rng, seed: int, drawNo: nat, pool: seq<Product>, order: seq<int>)
    ensures PicksFrom(DrawCategories(rng, seed, drawNo, pool, order).0, rng, seed, drawNo, pool)
    decreases |order|
  {
    if order != [] {
      var candidates := OfCategory(pool, order[0]);
      if candidates == [] {
        DrawCategoriesPicks(rng, seed, drawNo, pool, order[1..]);
      } else {
        var x := candidates[Draw(rng, seed, drawNo, |candidates|)];
        var rest := DrawCategories(rng, seed, drawNo + 1, pool, order[1..]).0;
        assert x in candidates;
        assert OfCategory(pool, x.categoryId) == candidates;
        DrawCategoriesPicks(rng, seed, drawNo + 1, pool, order[1..]);
        assert ([x] + rest)[1..] == rest;
      }
    }
  }

  lemma HasCategoryOfSubset(s: seq<Product>, pool: seq<Product>, cat: int)
    requires forall x :: x in s ==> x in pool
    requires HasCategory(s, cat)
    ensures HasCategory(pool, cat)
  {
    var i :| 0 <= i < |s| && s[i].categoryId == cat;
    assert s[i] in s;
    var k :| 0 <= k < |pool| && pool[k] == s[i];
  }

  lemma HasCategoryOfCategory(pool: seq<Product>, cat: int)
    requires HasCategory(pool, cat)
    ensures OfCategory(pool, cat) != []
  {
  }

  /** A category of the order the pool has is represented in the draw. */
  lemma {:induction false} DrawCategoriesFinds(rng: Rng, seed: int, drawNo: nat, pool: seq<Product>, order: seq<int>, cat: int)
    requires cat in order && HasCategory(pool, cat)
    ensures HasCategory(DrawCategories(rng, seed, drawNo, pool, order).0, cat)
    decreases |order|
  {
    var r := DrawCategories(rng, seed, drawNo, pool, order).0;
    var candidates := OfCategory(pool, order[0]);
    if cat == order[0] {
      HasCategoryOfCategory(pool, cat);
      var x := candidates[Draw(rng, seed, drawNo, |candidates|)];
      assert x in candidates;
      assert r[0] == x;
    } else {
      assert cat in order[1..];
      var next := if candidates == [] then drawNo else drawNo + 1;
      var rest := DrawCategories(rng, seed, next, pool, order[1..]).0;
      DrawCategoriesFinds(rng, seed, next, pool, order[1..], cat);
      var i :| 0 <= i < |rest| && rest[i].categoryId == cat;
      if candidates == [] {
        assert r == rest;
      } else {
        assert r[i + 1] == rest[i];
      }
    }
  }

  /** A category of the order is represented in the draw exactly when the pool has a product of it. */
  lemma DrawCategoriesComplete(rng: Rng, seed: int, drawNo: nat, pool: seq<Product>, order: seq<int>, cat: int)
    requires cat in order
    ensures HasCategory(DrawCategories(rng, seed, drawNo, pool, order).0, cat) <==> HasCategory(pool, cat)
  {
    var r := DrawCategories(rng, seed, drawNo, pool, order).0;
    if HasCategory(r, cat) {
      HasCategoryOfSubset(r, pool, cat);
    }
    if HasCategory(pool, cat) {
      DrawCategoriesFinds(rng, seed, drawNo, pool, order, cat);
    }
  }

  /** With a duplicate-free order, the draw follows the order: at most one product per category. */
  lemma {:induction false} DrawCategoriesOrdered(rng: Rng, seed: int, drawNo: nat, pool: seq<Product>, order: seq<int>)
    requires NoDuplicates(order)
    ensures InDrawOrder(DrawCategories(rng, seed, drawNo, pool, order).0, order)
    decreases |order|
  {
    if order != [] {
      var candidates := OfCategory(pool, order[0]);
      var next := if candidates == [] then drawNo else drawNo + 1;
      var rest := DrawCategories(rng, seed, next, pool, order[1..]).0;
      assert NoDuplicates(order[1..]);
      DrawCategoriesOrdered(rng, seed, next, pool, order[1..]);
      RankInTail(order, rest);
      if candidates != [] {
        var x := candidates[Draw(rng, seed, drawNo, |candidates|)];
        assert x in candidates;
        InDrawOrderCons(x, rest, order);
      }
    }
  }

  /** A product of the first category in front of a draw that ranks after it keeps the draw order. */
  lemma InDrawOrderCons(x: Product, rest: seq<Product>, order: seq<int>)
    requires Rank(order, x.categoryId) == 0
    requires forall i :: 0 <= i < |rest| ==> 0 < Rank(order, rest[i].categoryId)
    requires InDrawOrder(rest, order)
    ensures InDrawOrder([x] + rest, order)
  {
    var r := [x] + rest;
    forall i, j | 0 <= i < j < |r|
      ensures Rank(order, r[i].categoryId) < Rank(order, r[j].categoryId)
    {
      assert r[j] == rest[j - 1];
      if i > 0 {
        assert r[i] == rest[i - 1];
      }
    }
  }

  /** The products drawn for the tail of a duplicate-free order all rank after its head. */
  lemma RankInTail(order: seq<int>, s: seq<Product>)
    requires order != []
    requires forall x :: x in s ==> x.categoryId in order[1..]
    requires NoDuplicates(order)
    ensures InDrawOrder(s, order[1..]) ==> InDrawOrder(s, order)
    ensures forall i :: 0 <= i < |s| ==> 0 < Rank(order, s[i].categoryId)
  {
  }

  /** Stream.distinct(): keeps the first occurrence of each element. */
  function Distinct(s: seq<Product>): (r: seq<Product>)
    ensures forall x :: x in r <==> x in s
    ensures NoDuplicates(r)
    ensures NoDuplicates(s) ==> r == s
    decreases |s|
  {
    if s == [] then []
    else
      var init := s[..|s| - 1];
      var r := Distinct(init);
      assert forall x :: x in s <==> x in init || x == s[|s| - 1];
      assert NoDuplicates(s) ==> NoDuplicates(init) && s[|s| - 1] !in init;
      assert s == init + [s[|s| - 1]];
      if s[|s| - 1] in r then r else r + [s[|s| - 1]]
  }

  /** Stream.limit(n). */
  function Limit<T>(s: seq<T>, n: nat): (r: seq<T>)
    ensures |r| <= n && r <= s
    ensures |s| <= n ==> r == s
  {
    if |s| <= n then s else s[..n]
  }


  // ---------------------------------------------------------------- cart-store selection

  const CartServiceOrder: seq<int> := [Dessert, Drink, Starter]

  /** getLimitedSuggestions, with the catalog passed in instead of fetched. */
  function LimitedSuggestions(rng: Rng, hash: string -> int, trigger: Product, catalog: seq<Product>, c: Cart): (r: seq<Product>)
    ensures |r| <= 3
    ensures trigger.categoryId != Main ==> r == []
    ensures forall x :: x in r ==> x in catalog && x.id != trigger.id && x.id !in CartIds(c) && x.available
    ensures forall x :: x in r ==> x.categoryId in CartServiceOrder
  {
    if trigger.categoryId != Main then []
    else
      var picks := DrawCategories(rng, Seed(hash, trigger), 0, EligiblePool(catalog, trigger.id, CartIds(c)), CartServiceOrder).0;
      Limit(Distinct(picks), 3)
  }

  /**
   * The trailing distinct-and-limit never changes what was drawn: the draws
   * are already distinct and at most 3, one per category in the order
   * dessert, drink, starter.
   */
  lemma LimitedSuggestionsInOrder(rng: Rng, hash: string -> int, trigger: Product, catalog: seq<Product>, c: Cart)
    requires trigger.categoryId == Main
    ensures LimitedSuggestions(rng, hash, trigger, catalog, c)
         == DrawCategories(rng, Seed(hash, trigger), 0, EligiblePool(catalog, trigger.id, CartIds(c)), CartServiceOrder).0
    ensures InDrawOrder(LimitedSuggestions(rng, hash, trigger, catalog, c), CartServiceOrder)
    ensures NoDuplicates(LimitedSuggestions(rng, hash, trigger, catalog, c))
  {
    var pool := EligiblePool(catalog, trigger.id, CartIds(c));
    var picks := DrawCategories(rng, Seed(hash, trigger), 0, pool, CartServiceOrder).0;
    DrawCategoriesOrdered(rng, Seed(hash, trigger), 0, pool, CartServiceOrder);
    InDrawOrderNoDuplicates(picks, CartServiceOrder);
  }

  /**
   * The k-th suggestion is the eligible product of its category at the index
   * the k-th nextInt of the generator seeded from the trigger gives
   * (PicksFromAt reads off one position).
   */
  lemma LimitedSuggestionsPicks(rng: Rng, hash: string -> int, trigger: Product, catalog: seq<Product>, c: Cart)
    ensures PicksFrom(LimitedSuggestions(rng, hash, trigger, catalog, c), rng, Seed(hash, trigger), 0,
                      EligiblePool(catalog, trigger.id, CartIds(c)))
  {
    if trigger.categoryId == Main {
      LimitedSuggestionsInOrder(rng, hash, trigger, catalog, c);
      DrawCategoriesPicks(rng, Seed(hash, trigger), 0, EligiblePool(catalog, trigger.id, CartIds(c)), CartServiceOrder);
    }
  }

  /** Each of dessert, drink and starter is suggested exactly when some eligible product has that category. */
  lemma LimitedSuggestionsCoverCategories(rng: Rng, hash: string -> int, trigger: Product, catalog: seq<Product>, c: Cart, cat: int)
    requires trigger.categoryId == Main && cat in CartServiceOrder
    ensures HasCategory(LimitedSuggestions(rng, hash, trigger, catalog, c), cat)
        <==> HasCategory(EligiblePool(catalog, trigger.id, CartIds(c)), cat)
  {
    LimitedSuggestionsInOrder(rng, hash, trigger, catalog, c);
    DrawCategoriesComplete(rng, Seed(hash, trigger), 0, EligiblePool(catalog, trigger.id, CartIds(c)), CartServiceOrder, cat);
  }


  /**
   * Determinism: the result depends on the cart only through the set of product
   * ids in it, and on the trigger only through its name, id and category.
   */
  lemma LimitedSuggestionsDeterministic(rng: Rng, hash: string -> int, t1: Product, t2: Product, catalog: seq<Product>, c1: Cart, c2: Cart)
    requires t1.name == t2.name && t1.id == t2.id && t1.categoryId == t2.categoryId
    requires CartIds(c1) == CartIds(c2)
    ensures LimitedSuggestions(rng, hash, t1, catalog, c1) == LimitedSuggestions(rng, hash, t2, catalog, c2)
  {
  }

  // ---------------------------------------------------------------- popup selection

  const PopupOrder: seq<int> := [Starter, Dessert, Drink]

  /**
   * tryShowSuggestion's selection: one unseeded generator lives as long as the
   * popup controller, so the draws continue from `drawsSoFar`; the second
   * component is the generator's position afterwards.
   */
  function PopupSuggestions(rng: Rng, streamSeed: int, drawsSoFar: nat, trigger: Product, catalog: seq<Product>): (r: (seq<Product>, nat))
    ensures |r.0| <= 3
    ensures r.1 == drawsSoFar + |r.0|
    ensures trigger.categoryId != Main ==> r == ([], drawsSoFar)
    ensures forall x :: x in r.0 ==> x in catalog && x.categoryId in PopupOrder
    ensures InDrawOrder(r.0, PopupOrder)
  {
    if trigger.categoryId == Main then
      DrawCategoriesOrdered(rng, streamSeed, drawsSoFar, catalog, PopupOrder);
      DrawCategories(rng, streamSeed, drawsSoFar, catalog, PopupOrder)
    else ([], drawsSoFar)
  }

  /**
   * The k-th popup suggestion is the catalog product of its category at the
   * index the popup generator's next nextInt gives, counting on from the
   * draws the session already made.
   */
  lemma PopupSuggestionsPicks(rng: Rng, streamSeed: int, drawsSoFar: nat, trigger: Product, catalog: seq<Product>, k: nat)
    requires k < |PopupSuggestions(rng, streamSeed, drawsSoFar, trigger, catalog).0|
    ensures PicksOne(PopupSuggestions(rng, streamSeed, drawsSoFar, trigger, catalog).0[k], rng, streamSeed, drawsSoFar + k, catalog)
  {
    DrawCategoriesPicks(rng, streamSeed, drawsSoFar, catalog, PopupOrder);
    PicksFromAt(DrawCategories(rng, streamSeed, drawsSoFar, catalog, PopupOrder).0, rng, streamSeed, drawsSoFar, catalog, k);
  }

  /** Each of starter, dessert and drink is offered exactly when the catalog has a product of it, available or not. */
  lemma PopupSuggestionsCoverCategories(rng: Rng, streamSeed: int, drawsSoFar: nat, trigger: Product, catalog: seq<Product>, cat: int)
    requires trigger.categoryId == Main && cat in PopupOrder
    ensures HasCategory(PopupSuggestions(rng, streamSeed, drawsSoFar, trigger, catalog).0, cat) <==> HasCategory(catalog, cat)
  {
    DrawCategoriesComplete(rng, streamSeed, drawsSoFar, catalog, PopupOrder, cat);
  }

  /**
   * The two selections disagree on exclusion: with an unavailable starter and a
   * dessert already in the cart, the popup offers both, the cart store neither.
   */
  lemma PopupSkipsExclusions()
    ensures PopupSuggestions(ZeroRng, 7, 0, SampleMain, [SampleStarter, SampleDessert]).0 == [SampleStarter, SampleDessert]
    ensures LimitedSuggestions(ZeroRng, (s: string) => 0, SampleMain, [SampleStarter, SampleDessert], [CartItem(SampleDessert, 1, [])]) == []
  {
    var catalog := [SampleStarter, SampleDessert];
    var cart := [CartItem(SampleDessert, 1, [])];
    assert OfCategory(catalog, Starter) == [SampleStarter];
    assert OfCategory(catalog, Dessert) == [SampleDessert];
    assert OfCategory(catalog, Drink) == [];
    assert DrawCategories(ZeroRng, 7, 2, catalog, [Drink]) == ([], 2);
    assert DrawCategories(ZeroRng, 7, 1, catalog, [Dessert, Drink]) == ([SampleDessert], 2);
    assert cart[0].product.id == 3;
    assert 3 in CartIds(cart);
    assert EligiblePool(catalog, 1, CartIds(cart)) == [];
    var h := (s: string) => 0;
    LimitedSuggestionsInOrder(ZeroRng, h, SampleMain, catalog, cart);
    var drawn := DrawCategories(ZeroRng, Seed(h, SampleMain), 0, [], CartServiceOrder).0;
    assert drawn == [];
  }

  const SampleMain := Product(1, "pho", 950, Main, true, 5)
  const SampleStarter := Product(2, "nems", 450, Starter, false, 0)
  const SampleDessert := Product(3, "mochi", 300, Dessert, true, 8)

  function ZeroRng(seed: int, drawNo: nat, bound: nat): int {
    0
  }
}
