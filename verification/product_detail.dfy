/** src/pages/ProductDetailPage.tsx: normalising the loaded product's image
    list, the quantity selector and the multi-unit "add to cart" button. */
module ProductDetail {
  import opened Wrappers
  import opened Catalog
  import opened Cart

  /** The `images` column as it may arrive: missing or another falsy value, an
      array, or a single non-array value. */
  datatype ImagesField = NoImages | ImageArray(urls: seq<string>) | ImageValue(url: string)

  /** The image list the page works with: a stored list is kept, a single
      stored URL becomes a one-element list, and without images the thumbnail
      alone, or nothing. An empty string counts as missing. */
  function NormalizeImages(field: ImagesField, thumbnail: string): (r: seq<string>)
    ensures field.ImageArray? ==> r == field.urls
    ensures field.ImageValue? && field.url != "" ==> r == [field.url]
    ensures (field.NoImages? || field == ImageValue("")) ==>
              (thumbnail != "" ==> r == [thumbnail]) && (thumbnail == "" ==> r == [])
    ensures thumbnail != "" && !field.ImageArray? ==> |r| == 1
  {
    match field
    case ImageArray(urls) => urls
    case ImageValue(url) =>
      if url != "" then [url] else if thumbnail != "" then [thumbnail] else []
    case NoImages => if thumbnail != "" then [thumbnail] else []
  }

  /** The first entry, or the empty string for an empty list. */
  function FirstOrEmpty(images: seq<string>): string {
    if |images| > 0 then images[0] else ""
  }

  /** The picture shown: the thumbnail, else the first image, else nothing. */
  function DisplayThumbnail(thumbnail: string, images: seq<string>): (r: string)
    ensures thumbnail != "" ==> r == thumbnail
    ensures thumbnail == "" ==> r == FirstOrEmpty(images)
  {
    if thumbnail != "" then thumbnail else FirstOrEmpty(images)
  }

  /** After normalisation, a product that had a thumbnail always shows a
      thumbnail, and the initially selected image is empty only when the
      normalised list is empty or starts with an empty string. */
  lemma NormalizedThumbnail(field: ImagesField, thumbnail: string)
    ensures var images := NormalizeImages(field, thumbnail);
      && (thumbnail != "" ==> DisplayThumbnail(thumbnail, images) == thumbnail)
      && (thumbnail != "" && !field.ImageArray? ==> FirstOrEmpty(images) != "")
      && (!field.ImageArray? ==> (FirstOrEmpty(images) == "" <==> images == []))
  {
  }

  /** `handleQuantityChange`: the parsed selection is kept only when it lies in
      1..stock for a loaded product; otherwise the previous quantity stays.
      `None` stands for a value `parseInt` cannot read. */
  function ChangeQuantity(current: int, val: Option<int>, product: Option<Product>): (r: int)
    ensures (val.Some? && product.Some? && 1 <= val.value <= product.value.stock) ==> r == val.value
    ensures !(val.Some? && product.Some? && 1 <= val.value <= product.value.stock) ==> r == current
  {
    if val.Some? && val.value > 0 && product.Some? && val.value <= product.value.stock then val.value else current
  }

  /** The quantity selector's options: 1 up to the stock, at most 10. A
      negative stock makes the array construction throw. */
  function QuantityOptions(stock: int): (r: Result<seq<int>>)
    ensures stock < 0 <==> r.Failure?
    ensures r.Success? ==> |r.value| == (if stock < 10 then stock else 10)
    ensures r.Success? ==> forall k :: 0 <= k < |r.value| ==> r.value[k] == k + 1
  {
    var n := if stock < 10 then stock else 10;
    if n < 0 then Failure("RangeError: Invalid array length")
    else Success(seq(n, k requires 0 <= k < n => k + 1))
  }

  /** Every option the selector offers is accepted by the change handler, and
      the selector offers exactly the values 1..min(10, stock). */
  lemma OptionsAreAccepted(p: Product, current: int, v: int)
    requires p.stock >= 0
    ensures var opts := QuantityOptions(p.stock).value;
      (v in opts <==> 1 <= v <= p.stock && v <= 10)
    ensures v in QuantityOptions(p.stock).value ==> ChangeQuantity(current, Some(v), Some(p)) == v
  {
    var opts := QuantityOptions(p.stock).value;
    if 1 <= v <= p.stock && v <= 10 {
      assert opts[v - 1] == v;
    }
  }

  /** `handleAddToCart`: for a loaded product and 0 < quantity <= stock,
      dispatch ADD_TO_CART `quantity` times; otherwise do nothing. */
  method HandleAddToCart(s: CartState, product: Option<Product>, quantity: int) returns (r: CartState)
    ensures !(product.Some? && 0 < quantity <= product.value.stock) ==> r == s
    ensures product.Some? && 0 < quantity <= product.value.stock ==>
      var id := product.value.id;
      && Fresh(r)
      && QuantityOf(r.items, id) == QuantityOf(s.items, id) + quantity
      && ItemCount(r.items) == ItemCount(s.items) + quantity
      && (forall other :: other != id ==> QuantityOf(r.items, other) == QuantityOf(s.items, other))
      && (DistinctIds(s.items) ==> DistinctIds(r.items))
  {
    r := s;
    if product.Some? && quantity > 0 && product.value.stock >= quantity {
      var p := product.value;
      var i := 0;
      while i < quantity
        invariant 0 <= i <= quantity
        invariant i > 0 ==> Fresh(r)
        invariant QuantityOf(r.items, p.id) == QuantityOf(s.items, p.id) + i
        invariant ItemCount(r.items) == ItemCount(s.items) + i
        invariant forall other :: other != p.id ==> QuantityOf(r.items, other) == QuantityOf(s.items, other)
        invariant DistinctIds(s.items) ==> DistinctIds(r.items)
      {
        var next := Reduce(r, Action.AddToCart(p));
        AddCounts(r, p);
        if DistinctIds(r.items) {
          ReduceKeepsDistinct(r, Action.AddToCart(p));
        }
        r := next;
        i := i + 1;
      }
    }
  }
}
