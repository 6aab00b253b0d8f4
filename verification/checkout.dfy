/** src/pages/CheckoutPage.tsx: the order summary, the empty-cart guard and
    the submit handler, which clears the cart only once the order exists. */
module Checkout {
  import opened Wrappers
  import opened Catalog
  import opened Cart
  import CartPage
  import opened Orders

  datatype Summary = Summary(subtotal: real, shipping: real, tax: real, orderTotal: real)

  /** The summary block: subtotal is the cart's (discounted) total. */
  function SummaryOf(s: CartState): (r: Summary)
    ensures r.subtotal == s.total
    ensures r.shipping == 0.0 <==> s.total > 50.0
    ensures r.shipping == CartPage.Shipping(s.total) && r.tax == CartPage.Tax(s.total)
    ensures r.orderTotal == r.subtotal + r.shipping + r.tax == CartPage.OrderTotal(s.total)
  {
    var shipping := if s.total > 50.0 then 0.0 else 5.99;
    var tax := s.total * 0.08;
    Summary(s.total, shipping, tax, s.total + shipping + tax)
  }

  /** What the page renders: the empty view for a cart without entries
      (there is no form, so nothing can be submitted), the form otherwise. */
  datatype View = EmptyCartView | CheckoutForm(summary: Summary, lines: seq<real>)

  /** The amount a summary line prints: base price times quantity. */
  function BaseLine(item: CartItem): real {
    item.product.price * item.quantity as real
  }

  /** One summary line per entry: base price times quantity, without the discount. */
  function SummaryLines(items: seq<CartItem>): (lines: seq<real>)
    ensures |lines| == |items|
    ensures forall k :: 0 <= k < |items| ==> lines[k] == items[k].product.price * items[k].quantity as real
  {
    seq(|items|, k requires 0 <= k < |items| => BaseLine(items[k]))
  }

  function Render(s: CartState): (v: View)
    ensures v.EmptyCartView? <==> |s.items| == 0
    ensures v.CheckoutForm? ==> v.summary == SummaryOf(s) && |v.lines| == |s.items|
  {
    if |s.items| == 0 then EmptyCartView else CheckoutForm(SummaryOf(s), SummaryLines(s.items))
  }

  function SumOf(xs: seq<real>): real {
    if |xs| == 0 then 0.0 else SumOf(xs[..|xs| - 1]) + xs[|xs| - 1]
  }

  /** Price non-negative, discount within [0, 100], quantity non-negative. */
  predicate WellPricedItem(item: CartItem) {
    && item.product.price >= 0.0
    && item.quantity >= 0
    && (item.product.discountPercentage.Some? ==> 0.0 <= item.product.discountPercentage.value <= 100.0)
  }

  predicate WellPriced(items: seq<CartItem>) {
    forall k :: 0 <= k < |items| ==> WellPricedItem(items[k])
  }

  predicate NoDiscounts(items: seq<CartItem>) {
    forall k :: 0 <= k < |items| ==> !HasDiscount(items[k].product)
  }

  /** One entry: the discounted line never exceeds the undiscounted one. */
  lemma LineBound(item: CartItem)
    requires WellPricedItem(item)
    ensures LineTotal(item) <= BaseLine(item)
    ensures !HasDiscount(item.product) ==> LineTotal(item) == BaseLine(item)
  {
    EffectivePriceBounds(item.product);
    var e := EffectivePrice(item.product);
    var q := item.quantity as real;
    assert (item.product.price - e) * q >= 0.0;
    assert item.product.price * q - e * q == (item.product.price - e) * q;
  }

  /** Dropping the last entry drops its line from the printed lines and its
      line total from the subtotal. */
  lemma LinesStep(items: seq<CartItem>)
    requires |items| > 0
    ensures var init := items[..|items| - 1];
      var last := items[|items| - 1];
      && SumOf(SummaryLines(items)) == SumOf(SummaryLines(init)) + BaseLine(last)
      && Total(items) == Total(init) + LineTotal(last)
  {
    var n := |items|;
    var init := items[..n - 1];
    var lines := SummaryLines(items);
    assert lines[..n - 1] == SummaryLines(init) by {
      var other := SummaryLines(init);
      forall k | 0 <= k < n - 1 ensures lines[..n - 1][k] == other[k] {
        assert init[k] == items[k];
      }
    }
  }

  /** Dropping the last entry keeps a cart well priced and free of discounts. */
  lemma PrefixKeepsPricing(items: seq<CartItem>)
    requires |items| > 0
    ensures WellPriced(items) ==> WellPriced(items[..|items| - 1])
    ensures NoDiscounts(items) ==> NoDiscounts(items[..|items| - 1])
  {
    var init := items[..|items| - 1];
    assert forall k :: 0 <= k < |init| ==> init[k] == items[k];
  }

  /** The lines are printed undiscounted while the subtotal is discounted: for
      sensible prices the lines never add up to less than the subtotal, and they
      add up to exactly the subtotal when no entry carries a discount. */
  lemma {:induction false} LinesVersusSubtotal(items: seq<CartItem>)
    requires WellPriced(items)
    ensures SumOf(SummaryLines(items)) >= Total(items)
    ensures NoDiscounts(items) ==> SumOf(SummaryLines(items)) == Total(items)
    decreases |items|
  {
    if |items| > 0 {
      var init := items[..|items| - 1];
      PrefixKeepsPricing(items);
      LinesVersusSubtotal(init);
      LineBound(items[|items| - 1]);
      LinesStep(items);
    }
  }

  datatype SubmitOutcome = SubmitOutcome(cart: CartState, store: OrderStore, placed: bool)

  /** `handleSubmit`: create the order for the summary's order total, then clear
      the cart. When `createOrder` throws, the cart is left as it was. */
  function Submit(s: CartState, address: ShippingAddress, backend: Backend, store: OrderStore): (out: SubmitOutcome)
    ensures var created := CreateOrder(s.items, address, CartPage.OrderTotal(s.total), backend, store);
      && out.store == created.store
      && out.placed == created.result.Success?
      && (out.placed ==> out.cart == Reduce(s, ClearCart))
      && (!out.placed ==> out.cart == s)
    ensures out.placed ==> out.cart.items == [] && out.store.orders[|out.store.orders| - 1].total == SummaryOf(s).orderTotal
  {
    var created := CreateOrder(s.items, address, CartPage.OrderTotal(s.total), backend, store);
    if created.result.Success? then
      SubmitOutcome(Reduce(s, ClearCart), created.store, true)
    else
      SubmitOutcome(s, created.store, false)
  }

  /** The page as a whole: submitting is possible only from the form, so on an
      empty cart it changes nothing. */
  function SubmitFromPage(s: CartState, address: ShippingAddress, backend: Backend, store: OrderStore): (out: SubmitOutcome)
    ensures Render(s).EmptyCartView? ==> out == SubmitOutcome(s, store, false)
    ensures Render(s).CheckoutForm? ==> out == Submit(s, address, backend, store)
  {
    if |s.items| == 0 then SubmitOutcome(s, store, false) else Submit(s, address, backend, store)
  }
}
