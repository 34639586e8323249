/** The cart page's arithmetic: the defensive total and the per-line
    subtotal. Prices are exact integers (cents); a missing price or quantity
    is `None`. The operations that change the cart belong to the cart
    context, which is not part of this model. */
module Cart {
  import opened Wrappers

  datatype LineItem = LineItem(id: int, title: Option<string>, price: Option<int>, quantity: Option<int>)

  /** `x || 0` for a number that may be missing. */
  function OrZero(x: Option<int>): int {
    x.GetOr(0)
  }

  /** `(item.price || 0) * (item.quantity || 0)`, the subtotal shown next to a line. */
  function Subtotal(item: LineItem): (r: int)
    ensures item.price.None? || item.quantity.None? ==> r == 0
    ensures item.price.Some? && item.quantity.Some? ==> r == item.price.value * item.quantity.value
  {
    OrZero(item.price) * OrZero(item.quantity)
  }

  /** `cart.reduce((sum, item) => sum + Subtotal(item), 0)`: a left fold
      from 0. With non-negative prices and quantities it is never negative. */
  function Total(cart: seq<LineItem>): (r: int)
    ensures (forall k :: 0 <= k < |cart| ==> OrZero(cart[k].price) >= 0 && OrZero(cart[k].quantity) >= 0) ==> r >= 0
  {
    if cart == [] then 0 else Total(cart[..|cart| - 1]) + Subtotal(cart[|cart| - 1])
  }

  /** The quantity displayed for a line: `item.quantity || 0`. */
  function DisplayedQuantity(item: LineItem): (q: int)
    ensures item.quantity.None? ==> q == 0
    ensures item.quantity.Some? ==> q == item.quantity.value
  {
    OrZero(item.quantity)
  }

  const UNNAMED := "Unnamed Product"

  /** The title displayed for a line: `item.title || "Unnamed Product"`. */
  function DisplayedTitle(item: LineItem): (t: string)
    ensures t != ""
    ensures item.title.Some? && item.title.value != "" ==> t == item.title.value
    ensures item.title.None? || item.title.value == "" ==> t == UNNAMED
  {
    if item.title.Some? && item.title.value != "" then item.title.value else UNNAMED
  }

  /** `cart.length === 0` selects the "Your cart is empty" message, shown
      only when there are no lines and hence a total of 0. */
  function ShowsEmptyMessage(cart: seq<LineItem>): (b: bool)
    ensures b <==> cart == []
    ensures b ==> Total(cart) == 0
  {
    |cart| == 0
  }

  /** The amount shown for a line is its price times the quantity shown for it. */
  lemma SubtotalAgreesWithDisplayedQuantity(item: LineItem)
    ensures Subtotal(item) == OrZero(item.price) * DisplayedQuantity(item)
    ensures item.quantity.None? ==> Subtotal(item) == 0
  {
  }

  /** Sum of a sequence of integers, from the right: the reference definition. */
  function Sum(xs: seq<int>): int {
    if xs == [] then 0 else xs[0] + Sum(xs[1..])
  }

  /** The subtotals displayed, one per line, in cart order. */
  function Subtotals(cart: seq<LineItem>): (r: seq<int>)
    ensures |r| == |cart|
    ensures forall k :: 0 <= k < |cart| ==> r[k] == Subtotal(cart[k])
  {
    seq(|cart|, k requires 0 <= k < |cart| => Subtotal(cart[k]))
  }

  lemma TotalEmpty()
    ensures Total([]) == 0
  {
  }

  /** The total is additive over concatenated carts. */
  lemma {:induction false} TotalAppend(a: seq<LineItem>, b: seq<LineItem>)
    ensures Total(a + b) == Total(a) + Total(b)
    decreases |b|
  {
    if b != [] {
      var ab := a + b;
      assert ab[..|ab| - 1] == a + b[..|b| - 1];
      assert ab[|ab| - 1] == b[|b| - 1];
      TotalAppend(a, b[..|b| - 1]);
    } else {
      assert a + b == a;
    }
  }

  /** A cart of one line totals that line's subtotal. */
  lemma TotalSingle(item: LineItem)
    ensures Total([item]) == Subtotal(item)
  {
    assert [item][..0] == [];
  }

  /** The displayed subtotals add up to the displayed total. */
  lemma {:induction false} TotalIsSumOfSubtotals(cart: seq<LineItem>)
    ensures Total(cart) == Sum(Subtotals(cart))
  {
    if cart != [] {
      TotalIsSumOfSubtotals(cart[1..]);
      assert cart == [cart[0]] + cart[1..];
      TotalAppend([cart[0]], cart[1..]);
      TotalSingle(cart[0]);
      assert Subtotals(cart)[1..] == Subtotals(cart[1..]);
    }
  }

  /** A line with a missing price or quantity changes nothing, wherever it sits. */
  lemma IncompleteLineAddsNothing(a: seq<LineItem>, item: LineItem, b: seq<LineItem>)
    requires item.price.None? || item.quantity.None?
    ensures Total(a + [item] + b) == Total(a + b)
  {
    TotalAppend(a + [item], b);
    TotalAppend(a, [item]);
    TotalSingle(item);
    TotalAppend(a, b);
  }
}
