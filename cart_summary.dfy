/**
 * The order summary beside the cart: subtotal, savings against the original prices, shipping with
 * its own free-shipping threshold, and the hint telling the shopper how much more to add.
 */
module CartSummary {
  import opened Seqs
  import Checkout

  /** A cart row as the summary reads it: the quantity and the product's two prices. */
  datatype CartItem = CartItem(quantity: int, price: int, originalPrice: int)

  /** The summary charges shipping unless the subtotal is above this amount. */
  const FreeShippingAbove := 999
  const ShippingFee := 99

  function LineAmount(item: CartItem): int {
    item.price * item.quantity
  }

  function LineOriginalAmount(item: CartItem): int {
    item.originalPrice * item.quantity
  }

  function Subtotal(items: seq<CartItem>): int {
    Sum(items, LineAmount)
  }

  function OriginalTotal(items: seq<CartItem>): int {
    Sum(items, LineOriginalAmount)
  }

  function Savings(items: seq<CartItem>): int {
    OriginalTotal(items) - Subtotal(items)
  }

  /** The "You Save" line shows only when the original prices add up to more than the prices paid. */
  predicate ShowsSavings(items: seq<CartItem>) {
    Savings(items) > 0
  }

  function Shipping(items: seq<CartItem>): (fee: int)
    ensures fee == 0 || fee == ShippingFee
    ensures fee == 0 <==> Subtotal(items) > FreeShippingAbove
  {
    if Subtotal(items) > FreeShippingAbove then 0 else ShippingFee
  }

  function Total(items: seq<CartItem>): (total: int)
    ensures Subtotal(items) <= total <= Subtotal(items) + ShippingFee
    ensures total == Subtotal(items) <==> Subtotal(items) > FreeShippingAbove
  {
    Subtotal(items) + Shipping(items)
  }

  /** The free-shipping hint shows only when the subtotal is at most the threshold. */
  predicate ShowsHint(items: seq<CartItem>) {
    Subtotal(items) <= FreeShippingAbove
  }

  /** "Add ₹(1000 - subtotal) more for free shipping". */
  function HintAmount(items: seq<CartItem>): int {
    1000 - Subtotal(items)
  }

  /** The hint shows exactly when shipping is charged, so it never accompanies a "(Free)" label. */
  lemma HintOnlyWhenCharged(items: seq<CartItem>)
    ensures ShowsHint(items) <==> Shipping(items) == ShippingFee
    ensures ShowsHint(items) <==> Total(items) == Subtotal(items) + ShippingFee
  {
  }

  /**
   * The hinted amount is exact: a subtotal raised by it crosses the threshold, one less does not, and
   * the amount shown is always positive.
   */
  lemma HintAmountIsExact(items: seq<CartItem>)
    requires ShowsHint(items)
    ensures HintAmount(items) > 0
    ensures Subtotal(items) + HintAmount(items) > FreeShippingAbove
    ensures Subtotal(items) + HintAmount(items) - 1 <= FreeShippingAbove
  {
  }

  /** With quantities never negative and no product priced above its original price, savings are never negative. */
  lemma {:induction false} SavingsNonNegative(items: seq<CartItem>)
    requires forall i :: 0 <= i < |items| ==> items[i].quantity >= 0 && items[i].price <= items[i].originalPrice
    ensures Savings(items) >= 0
    decreases |items|
  {
    if items != [] {
      var init := items[..|items| - 1];
      var last := items[|items| - 1];
      assert forall i :: 0 <= i < |init| ==> init[i] == items[i];
      SavingsNonNegative(init);
      assert Savings(items) == Savings(init) + (last.originalPrice - last.price) * last.quantity;
      assert (last.originalPrice - last.price) * last.quantity >= 0;
    }
  }

  /**
   * The cart summary and the checkout page disagree on free shipping: for the same subtotal, they
   * charge differently exactly when the subtotal is above 999 and at most 1999 (free here, ₹99 at checkout).
   */
  lemma ThresholdsDisagree(items: seq<CartItem>, lines: seq<Checkout.CheckoutLine>)
    requires Subtotal(items) == Checkout.Subtotal(lines)
    ensures Shipping(items) != Checkout.Shipping(lines) <==> FreeShippingAbove < Subtotal(items) <= Checkout.FreeShippingAbove
    ensures Shipping(items) != Checkout.Shipping(lines) ==> Shipping(items) == 0 && Checkout.Shipping(lines) == ShippingFee
  {
  }
}
