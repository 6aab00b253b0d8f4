/** The rules embedded in src/pages/CartPage.tsx: the order summary (free
    shipping above 50, 8% tax), the guard in front of UPDATE_QUANTITY, the
    coupon check, the per-line amount and the empty-cart view. */
module CartPage {
  import opened Catalog
  import opened Cart
  import opened Text

  const FreeShippingThreshold: real := 50.0
  const ShippingFee: real := 5.99
  const TaxRate: real := 0.08

  /** Shipping for a subtotal: free strictly above the threshold, the flat fee otherwise. */
  function Shipping(subtotal: real): (r: real)
    ensures r == 0.0 <==> subtotal > FreeShippingThreshold
    ensures r == 0.0 || r == ShippingFee
  {
    if subtotal > FreeShippingThreshold then 0.0 else ShippingFee
  }

  /** The 8% tax on the subtotal: nothing on an empty cart, and never negative
      nor more than a non-negative subtotal. */
  function Tax(subtotal: real): (r: real)
    ensures subtotal == 0.0 ==> r == 0.0
    ensures subtotal >= 0.0 ==> 0.0 <= r <= subtotal
    ensures r * 25.0 == subtotal * 2.0
  {
    subtotal * TaxRate
  }

  /** What the buyer is charged: subtotal, plus shipping, plus 8% tax on the subtotal. */
  function OrderTotal(subtotal: real): (r: real)
    ensures r == subtotal * 1.08 + Shipping(subtotal)
    ensures subtotal >= 0.0 ==> r >= subtotal
  {
    subtotal + Shipping(subtotal) + Tax(subtotal)
  }

  /** The summary is not monotone in the subtotal: a cart worth exactly 50 costs
      more in total than one worth 50.01, because shipping drops to zero only
      strictly above 50. */
  lemma ShippingCliff()
    ensures OrderTotal(50.0) == 59.99
    ensures OrderTotal(50.01) == 54.0108
    ensures OrderTotal(50.0) > OrderTotal(50.01)
  {
  }

  /** `handleQuantityChange`: a quantity below 1 is dropped before it reaches the
      reducer; any other quantity is forwarded unchanged. */
  function ChangeQuantity(s: CartState, id: string, q: int): (r: CartState)
    ensures q < 1 ==> r == s
    ensures q >= 1 ==> r == Reduce(s, UpdateQuantity(id, q))
  {
    if q < 1 then s else Reduce(s, UpdateQuantity(id, q))
  }

  /** Every entry holds at least one unit. */
  predicate PositiveQuantities(items: seq<CartItem>) {
    forall k :: 0 <= k < |items| ==> items[k].quantity >= 1
  }

  /** Through this page (and ADD_TO_CART, REMOVE, CLEAR) a cart can never come to
      hold an entry of zero or negative quantity, although the reducer itself
      would store one. */
  lemma GuardKeepsQuantitiesPositive(s: CartState, a: Action)
    requires PositiveQuantities(s.items)
    requires !a.UpdateQuantity?
    ensures PositiveQuantities(Reduce(s, a).items)
    ensures forall id, q :: PositiveQuantities(ChangeQuantity(s, id, q).items)
  {
    forall id, q ensures PositiveQuantities(ChangeQuantity(s, id, q).items) {
      if q >= 1 {
        var r := ChangeQuantity(s, id, q);
        assert forall k :: 0 <= k < |r.items| ==> r.items[k].quantity == q || r.items[k] == s.items[k];
      }
    }
    if a.RemoveFromCart? {
      var r := Reduce(s, a);
      forall k | 0 <= k < |r.items| ensures r.items[k].quantity >= 1 {
        assert r.items[k] in s.items;
      }
    }
  }

  /** The reducer alone does store a zero quantity: one entry of quantity 0 makes
      the unit count 0 while the cart still has an entry. */
  lemma ZeroQuantityReachesReducer(p: Product)
    ensures var s := Reduce(Reduce(InitialState, AddToCart(p)), UpdateQuantity(p.id, 0));
      |s.items| == 1 && s.itemCount == 0
  {
    var s1 := Reduce(InitialState, AddToCart(p));
    assert s1.items == [CartItem(p, 1)];
    var s2 := Reduce(s1, UpdateQuantity(p.id, 0));
    assert s2.items == [CartItem(p, 0)];
    ItemCountAppend([], CartItem(p, 0));
  }

  /** The page shows its empty view when the unit count is zero, which for a
      state whose figures are in step means the entries hold no unit at all. */
  function ShowsEmptyCart(s: CartState): (r: bool)
    ensures Fresh(s) ==> (r <==> ItemCount(s.items) == 0)
    ensures s == InitialState ==> r
  {
    s.itemCount == 0
  }

  lemma {:induction false} PositiveItemCount(items: seq<CartItem>)
    requires PositiveQuantities(items)
    ensures ItemCount(items) >= |items|
    decreases |items|
  {
    if |items| > 0 {
      PositiveItemCount(items[..|items| - 1]);
    }
  }

  /** For a cart whose entries all hold at least one unit, the empty view is
      shown exactly when there are no entries. */
  lemma EmptyViewIffNoEntries(s: CartState)
    requires Fresh(s) && PositiveQuantities(s.items)
    ensures ShowsEmptyCart(s) <==> s.items == []
  {
    PositiveItemCount(s.items);
  }

  /** The amount printed on a cart line: the discounted unit price times the
      quantity when the discount is truthy, base price times quantity otherwise. */
  function LineAmount(item: CartItem): (r: real)
    ensures r == LineTotal(item)
  {
    if item.product.discountPercentage.Some? && item.product.discountPercentage.value != 0.0 then
      item.product.price * (1.0 - item.product.discountPercentage.value / 100.0) * item.quantity as real
    else
      item.product.price * item.quantity as real
  }

  const CouponCode := "discount10"
  const MissingCouponMessage := "Please enter a coupon code"
  const InvalidCouponMessage := "Invalid coupon code"

  /** `handleApplyCoupon`: the error message it leaves behind. It never changes
      the cart or the order total; the accepted code only clears the message. */
  function ApplyCoupon(code: string): (err: string)
    ensures IsBlank(code) ==> err == MissingCouponMessage
    ensures !IsBlank(code) ==> (err == "" <==> Lower(code) == CouponCode)
    ensures !IsBlank(code) && Lower(code) != CouponCode ==> err == InvalidCouponMessage
  {
    if IsBlank(code) then MissingCouponMessage
    else if Lower(code) == CouponCode then ""
    else InvalidCouponMessage
  }

  /** Two codes that differ only in letter case get the same answer. */
  lemma CouponIgnoresCase(a: string, b: string)
    requires Lower(a) == Lower(b)
    ensures ApplyCoupon(a) == ApplyCoupon(b)
    ensures ApplyCoupon(a) == "" <==> !IsBlank(a) && Lower(a) == CouponCode
  {
    LowerNormalises(a);
    LowerNormalises(b);
  }

  /** The coupon is matched regardless of letter case, but surrounding spaces are
      not trimmed before the comparison. */
  lemma CouponCaseInsensitiveNotTrimmed()
    ensures ApplyCoupon("DISCOUNT10") == ""
    ensures ApplyCoupon("Discount10") == ""
    ensures ApplyCoupon(" discount10") == InvalidCouponMessage
    ensures ApplyCoupon("   ") == MissingCouponMessage
  {
    assert !IsBlank("DISCOUNT10") by { assert !IsWhitespace("DISCOUNT10"[0]); }
    assert !IsBlank("Discount10") by { assert !IsWhitespace("Discount10"[0]); }
    assert Lower("DISCOUNT10") == CouponCode;
    assert Lower("Discount10") == CouponCode;
    assert !IsBlank(" discount10") by { assert !IsWhitespace(" discount10"[1]); }
    assert Lower(" discount10") != CouponCode by { assert |Lower(" discount10")| != |CouponCode|; }
  }
}
