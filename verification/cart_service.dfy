/**
 * The cart store: an ordered list of lines with merge-on-add, bounds-checked
 * removal and quantity update, and totals folded over the current lines.
 */
module CartService {
  import opened Catalog
  import opened CartItems

  type Cart = seq<CartItem>

  /** Whether adding `p` with `options` would merge into `item`. */
  predicate Matches(item: CartItem, p: Product, options: seq<string>) {
    item.product.id == p.id && item.options == options
  }

  /** The store's invariant: every quantity is at least 1 and no two lines share a merge key. */
  predicate ValidCart(c: Cart) {
    && (forall k :: 0 <= k < |c| ==> c[k].quantity >= 1)
    && (forall j, k :: 0 <= j < k < |c| ==> !SameProductWithSameOptions(c[j], c[k]))
  }

  /** Position of the first line the selection merges into, or -1 when there is none. */
  function FindLine(c: Cart, p: Product, options: seq<string>): (r: int)
    ensures -1 <= r < |c|
    ensures r == -1 <==> forall k :: 0 <= k < |c| ==> !Matches(c[k], p, options)
    ensures 0 <= r ==> Matches(c[r], p, options)
    ensures 0 <= r ==> forall k :: 0 <= k < r ==> !Matches(c[k], p, options)
  {
    if c == [] then -1
    else if Matches(c[0], p, options) then 0
    else
      var r := FindLine(c[1..], p, options);
      if r == -1 then -1 else r + 1
  }

  /** addProduct: merge into the matching line, or append a new line at the end. */
  function AddProduct(c: Cart, p: Product, quantity: int, options: seq<string>): (r: Cart)
    ensures |r| == |c| || |r| == |c| + 1
    ensures |r| == |c| + 1 <==> forall k :: 0 <= k < |c| ==> !Matches(c[k], p, options)
    ensures |r| == |c| + 1 ==> r == c + [CartItem(p, quantity, options)]
  {
    var i := FindLine(c, p, options);
    if i < 0 then c + [CartItem(p, quantity, options)]
    else c[i := SetQuantity(c[i], c[i].quantity + quantity)]
  }

  /** removeItem: drop line `index` when it exists, otherwise leave the cart alone. */
  function RemoveItem(c: Cart, index: int): (r: Cart)
    ensures !(0 <= index < |c|) ==> r == c
    ensures 0 <= index < |c| ==> |r| == |c| - 1
    ensures 0 <= index < |c| ==> forall k :: 0 <= k < |r| ==> r[k] == (if k < index then c[k] else c[k + 1])
  {
    if 0 <= index < |c| then c[..index] + c[index + 1..] else c
  }

  /** updateQuantity: only a valid index and a positive quantity change anything. */
  function UpdateQuantity(c: Cart, index: int, quantity: int): (r: Cart)
    ensures |r| == |c|
    ensures forall k :: 0 <= k < |c| && k != index ==> r[k] == c[k]
    ensures 0 <= index < |c| && quantity > 0 ==> r[index] == SetQuantity(c[index], quantity)
    ensures !(0 <= index < |c| && quantity > 0) ==> r == c
  {
    if 0 <= index < |c| && quantity > 0 then c[index := SetQuantity(c[index], quantity)] else c
  }

  /** clear: an empty cart, whose totals are zero. */
  function Clear(c: Cart): (r: Cart)
    ensures ItemCount(r) == 0 && TotalProductCount(r) == 0 && Total(r) == 0
  {
    []
  }

  // ---------------------------------------------------------------- totals

  /** A fold of `f` over the lines. */
  function Sum(c: Cart, f: CartItem -> int): int {
    if c == [] then 0 else f(c[0]) + Sum(c[1..], f)
  }

  function Quantity(item: CartItem): int {
    item.quantity
  }

  /** getTotal, in cents. */
  function Total(c: Cart): int {
    Sum(c, TotalPrice)
  }

  /** getTotalProductCount: the units in the cart. */
  function TotalProductCount(c: Cart): int {
    Sum(c, Quantity)
  }

  /** getItemCount: the distinct lines in the cart. */
  function ItemCount(c: Cart): (r: int)
    ensures r >= 0 && (r == 0 <==> c == [])
  {
    |c|
  }

  lemma {:induction false} SumAppend(a: Cart, b: Cart, f: CartItem -> int)
    ensures Sum(a + b, f) == Sum(a, f) + Sum(b, f)
    decreases |a|
  {
    if a == [] {
      assert a + b == b;
    } else {
      assert (a + b)[1..] == a[1..] + b;
      SumAppend(a[1..], b, f);
    }
  }

  lemma SumSplit(c: Cart, i: int, f: CartItem -> int)
    requires 0 <= i < |c|
    ensures Sum(c, f) == Sum(c[..i], f) + f(c[i]) + Sum(c[i + 1..], f)
  {
    assert c == c[..i] + ([c[i]] + c[i + 1..]);
    SumAppend(c[..i], [c[i]] + c[i + 1..], f);
    assert ([c[i]] + c[i + 1..])[1..] == c[i + 1..];
  }

  /** Replacing one line changes the fold by exactly that line's difference. */
  lemma SumUpdate(c: Cart, i: int, x: CartItem, f: CartItem -> int)
    requires 0 <= i < |c|
    ensures Sum(c[i := x], f) == Sum(c, f) - f(c[i]) + f(x)
  {
    var d := c[i := x];
    SumSplit(c, i, f);
    SumSplit(d, i, f);
    assert d[..i] == c[..i] && d[i + 1..] == c[i + 1..];
  }

  /** Removing one line takes exactly that line out of the fold. */
  lemma SumRemove(c: Cart, i: int, f: CartItem -> int)
    requires 0 <= i < |c|
    ensures Sum(RemoveItem(c, i), f) == Sum(c, f) - f(c[i])
  {
    SumSplit(c, i, f);
    SumAppend(c[..i], c[i + 1..], f);
  }

  /** The loop of getTotal computes the fold. */
  method GetTotal(c: Cart) returns (total: int)
    ensures total == Total(c)
    ensures c == [] ==> total == 0
  {
    total := 0;
    var i := 0;
    while i < |c|
      invariant 0 <= i <= |c|
      invariant total == Sum(c[..i], TotalPrice)
    {
      SumAppend(c[..i], [c[i]], TotalPrice);
      assert c[..i + 1] == c[..i] + [c[i]];
      total := total + TotalPrice(c[i]);
      i := i + 1;
    }
    assert c[..i] == c;
  }

  /** The loop of getTotalProductCount computes the sum of quantities. */
  method GetTotalProductCount(c: Cart) returns (count: int)
    ensures count == TotalProductCount(c)
    ensures ValidCart(c) ==> count >= |c|
  {
    count := 0;
    var i := 0;
    while i < |c|
      invariant 0 <= i <= |c|
      invariant count == Sum(c[..i], Quantity)
    {
      SumAppend(c[..i], [c[i]], Quantity);
      assert c[..i + 1] == c[..i] + [c[i]];
      count := count + c[i].quantity;
      i := i + 1;
    }
    assert c[..i] == c;
    if ValidCart(c) {
      CountsAgree(c);
    }
  }

  /** Lines and units differ: with quantities at least 1 there are never fewer units than lines. */
  lemma {:induction false} CountsAgree(c: Cart)
    requires ValidCart(c)
    ensures ItemCount(c) <= TotalProductCount(c)
    ensures ItemCount(c) == TotalProductCount(c) <==> forall k :: 0 <= k < |c| ==> c[k].quantity == 1
    ensures 0 <= Total(c)
    decreases |c|
  {
    if c != [] {
      assert ValidCart(c[1..]) by {
        forall j, k | 0 <= j < k < |c[1..]|
          ensures !SameProductWithSameOptions(c[1..][j], c[1..][k])
        {
          assert c[1..][j] == c[j + 1] && c[1..][k] == c[k + 1];
        }
      }
      CountsAgree(c[1..]);
      assert c[0].quantity >= 1;
      if ItemCount(c) == TotalProductCount(c) {
        forall k | 0 <= k < |c|
          ensures c[k].quantity == 1
        {
          if k > 0 {
            assert c[k] == c[1..][k - 1];
          }
        }
      }
      if forall k :: 0 <= k < |c| ==> c[k].quantity == 1 {
        assert forall k :: 0 <= k < |c[1..]| ==> c[1..][k].quantity == 1 by {
          forall k | 0 <= k < |c[1..]|
            ensures c[1..][k].quantity == 1
          {
            assert c[1..][k] == c[k + 1];
          }
        }
      }
      assert TotalPrice(c[0]) >= 0;
    }
  }

  // ---------------------------------------------------------------- add

  /** When a line matches, addProduct raises the first matching line's quantity and keeps its product record. */
  lemma AddProductMergesFirstMatch(c: Cart, p: Product, quantity: int, options: seq<string>, k: int)
    requires 0 <= k < |c| && Matches(c[k], p, options)
    requires forall j :: 0 <= j < k ==> !Matches(c[j], p, options)
    ensures AddProduct(c, p, quantity, options) == c[k := SetQuantity(c[k], c[k].quantity + quantity)]
  {
  }

  /** In a valid cart the matching line is unique, so that is the line that grows; the line count is unchanged. */
  lemma AddProductMerges(c: Cart, p: Product, quantity: int, options: seq<string>, k: int)
    requires ValidCart(c)
    requires 0 <= k < |c| && Matches(c[k], p, options)
    ensures AddProduct(c, p, quantity, options) == c[k := SetQuantity(c[k], c[k].quantity + quantity)]
    ensures ItemCount(AddProduct(c, p, quantity, options)) == ItemCount(c)
  {
  }

  /** Adding twice the same product with the same options leaves one line holding both quantities. */
  lemma AddTwiceMerges(c: Cart, p: Product, options: seq<string>)
    requires forall k :: 0 <= k < |c| ==> !Matches(c[k], p, options)
    ensures AddProduct(AddProduct(c, p, 1, options), p, 1, options) == c + [CartItem(p, 2, options)]
  {
    var c1 := AddProduct(c, p, 1, options);
    assert c1 == c + [CartItem(p, 1, options)];
    AddProductMergesFirstMatch(c1, p, 1, options, |c|);
  }

  /** Adding units raises the unit count by the quantity, and the total by quantity times the price. */
  lemma AddProductTotals(c: Cart, p: Product, quantity: int, options: seq<string>)
    requires forall k :: 0 <= k < |c| && c[k].product.id == p.id ==> c[k].product.priceCents == p.priceCents
    ensures TotalProductCount(AddProduct(c, p, quantity, options)) == TotalProductCount(c) + quantity
    ensures Total(AddProduct(c, p, quantity, options)) == Total(c) + p.priceCents * quantity
  {
    var i := FindLine(c, p, options);
    var item := CartItem(p, quantity, options);
    if i < 0 {
      SumAppend(c, [item], Quantity);
      SumAppend(c, [item], TotalPrice);
    } else {
      var x := SetQuantity(c[i], c[i].quantity + quantity);
      SumUpdate(c, i, x, Quantity);
      SumUpdate(c, i, x, TotalPrice);
      TotalPriceOfQuantity(c[i], c[i].quantity + quantity);
    }
  }

  // ---------------------------------------------------------------- invariant

  lemma AddProductPreservesValid(c: Cart, p: Product, quantity: int, options: seq<string>)
    requires ValidCart(c) && quantity >= 1
    ensures ValidCart(AddProduct(c, p, quantity, options))
  {
  }

  lemma RemoveItemPreservesValid(c: Cart, index: int)
    requires ValidCart(c)
    ensures ValidCart(RemoveItem(c, index))
  {
  }

  lemma UpdateQuantityPreservesValid(c: Cart, index: int, quantity: int)
    requires ValidCart(c)
    ensures ValidCart(UpdateQuantity(c, index, quantity))
  {
  }

  /** Removing a line lowers the totals by exactly what that line contributed. */
  lemma RemoveItemTotals(c: Cart, index: int)
    requires 0 <= index < |c|
    ensures Total(RemoveItem(c, index)) == Total(c) - TotalPrice(c[index])
    ensures TotalProductCount(RemoveItem(c, index)) == TotalProductCount(c) - c[index].quantity
  {
    SumRemove(c, index, TotalPrice);
    SumRemove(c, index, Quantity);
  }
}
