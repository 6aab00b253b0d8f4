/** Products as the storefront sees them (src/types/index.ts) and the one
    pricing rule every page repeats: a percentage discount applies only when
    the discount field is truthy. */
module Catalog {
  import opened Wrappers

  datatype Seller = Seller(id: string, name: string, rating: real)

  datatype Product = Product(
    id: string,
    title: string,
    description: string,
    price: real,
    discountPercentage: Option<real>,
    rating: real,
    stock: int,
    brand: string,
    category: string,
    thumbnail: string,
    images: seq<string>,
    seller: Seller
  )

  /** JavaScript truthiness of the optional discount: absent and 0 are both falsy. */
  predicate HasDiscount(p: Product) {
    p.discountPercentage.Some? && p.discountPercentage.value != 0.0
  }

  /** The unit price a buyer pays: the price less d percent for a discount d
      that is present and not zero, the base price otherwise. */
  function EffectivePrice(p: Product): (r: real)
    ensures !HasDiscount(p) ==> r == p.price
    ensures HasDiscount(p) ==> r == p.price - p.price * p.discountPercentage.value / 100.0
  {
    if HasDiscount(p) then p.price * (1.0 - p.discountPercentage.value / 100.0) else p.price
  }

  /** The product page's `discountedPrice`: `null` for a falsy discount. */
  function DiscountedPrice(p: Product): (r: Option<real>)
    ensures r.None? <==> !HasDiscount(p)
    ensures r.Some? ==> r.value == EffectivePrice(p)
  {
    if HasDiscount(p) then Some(p.price * (1.0 - p.discountPercentage.value / 100.0)) else None
  }

  /** A discount within [0, 100] on a non-negative price never raises the price
      nor drives it below zero; a discount strictly inside (0, 100] on a positive
      price strictly lowers it. */
  lemma EffectivePriceBounds(p: Product)
    requires p.price >= 0.0
    requires p.discountPercentage.Some? ==> 0.0 <= p.discountPercentage.value <= 100.0
    ensures 0.0 <= EffectivePrice(p) <= p.price
    ensures HasDiscount(p) && p.price > 0.0 ==> EffectivePrice(p) < p.price
  {
    if HasDiscount(p) {
      var d := p.discountPercentage.value;
      var f := 1.0 - d / 100.0;
      assert EffectivePrice(p) == p.price * f;
      assert 0.0 <= f <= 1.0;
      assert p.price - p.price * f == p.price * (1.0 - f);
      assert p.price * (1.0 - f) >= 0.0;
      assert p.price * f >= 0.0;
      if p.price > 0.0 {
        assert 1.0 - f > 0.0;
        assert p.price * (1.0 - f) > 0.0;
      }
    }
  }
}
