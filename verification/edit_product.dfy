/** src/pages/EditProductPage.tsx: per-product drafts of field edits, new files
    and previews, the main-image index kept per product id, the image removal
    handlers, the save handler and the delete filter.

    The page shows, for each product, its stored images followed by the
    previews of the new files, and selecting the k-th preview records the
    combined index `existing + k` as main. The removal handlers as written
    compare the main index with a list-local index and never step it back;
    they are modelled as written, and the corrected handlers, which shift the
    combined index the way the create page does, are proved to keep the
    selected image selected. */
module EditProduct {
  import opened Wrappers
  import opened Catalog
  import opened ProductImages

  // ---------------------------------------------------------------------------
  // Field drafts

  /** The pending edits of one product: each field the form edits, when edited. */
  datatype Draft = Draft(
    title: Option<string>,
    price: Option<real>,
    stock: Option<int>,
    category: Option<string>,
    description: Option<string>,
    brand: Option<string>,
    discountPercentage: Option<real>)

  const EmptyDraft := Draft(None, None, None, None, None, None, None)

  /** One `handleFieldChange(productId, field, value)` call. */
  datatype FieldEdit =
    | SetTitle(title: string)
    | SetPrice(price: real)
    | SetStock(stock: int)
    | SetCategory(category: string)
    | SetDescription(description: string)
    | SetBrand(brand: string)
    | SetDiscount(discount: real)

  function ApplyEdit(d: Draft, e: FieldEdit): Draft {
    match e
    case SetTitle(v) => d.(title := Some(v))
    case SetPrice(v) => d.(price := Some(v))
    case SetStock(v) => d.(stock := Some(v))
    case SetCategory(v) => d.(category := Some(v))
    case SetDescription(v) => d.(description := Some(v))
    case SetBrand(v) => d.(brand := Some(v))
    case SetDiscount(v) => d.(discountPercentage := Some(v))
  }

  /** The pending edits of a product, or none when it has no draft yet. */
  function DraftOf(drafts: map<string, Draft>, id: string): Draft {
    if id in drafts then drafts[id] else EmptyDraft
  }

  /** `handleFieldChange`: that product's draft gets the one field. */
  function FieldChange(drafts: map<string, Draft>, id: string, e: FieldEdit): (r: map<string, Draft>)
    ensures r.Keys == drafts.Keys + {id}
    ensures forall other :: other != id ==> DraftOf(r, other) == DraftOf(drafts, other)
  {
    drafts[id := ApplyEdit(DraftOf(drafts, id), e)]
  }

  /** The values the edit form shows for a product. */
  datatype Shown = Shown(
    title: string,
    price: real,
    stock: int,
    category: string,
    description: string,
    brand: string,
    discountPercentage: Option<real>)

  /** What the form shows: a drafted value wins over the stored one. */
  function Display(p: Product, d: Draft): Shown {
    Shown(d.title.GetOr(p.title), d.price.GetOr(p.price), d.stock.GetOr(p.stock),
          d.category.GetOr(p.category), d.description.GetOr(p.description),
          d.brand.GetOr(p.brand),
          if d.discountPercentage.Some? then d.discountPercentage else p.discountPercentage)
  }

  /** The shown values with the edited field replaced by the new value. */
  function Overwrite(s: Shown, e: FieldEdit): Shown {
    match e
    case SetTitle(v) => s.(title := v)
    case SetPrice(v) => s.(price := v)
    case SetStock(v) => s.(stock := v)
    case SetCategory(v) => s.(category := v)
    case SetDescription(v) => s.(description := v)
    case SetBrand(v) => s.(brand := v)
    case SetDiscount(v) => s.(discountPercentage := Some(v))
  }

  /** A field edit changes exactly the edited field of the edited product's
      form: that field now shows the new value, every other field still shows
      what it showed, and every other product's form is as it was. */
  lemma FieldChangeShowsOneField(drafts: map<string, Draft>, id: string, e: FieldEdit, p: Product, other: string)
    requires other != id
    ensures Display(p, DraftOf(FieldChange(drafts, id, e), id)) == Overwrite(Display(p, DraftOf(drafts, id)), e)
    ensures DraftOf(FieldChange(drafts, id, e), other) == DraftOf(drafts, other)
  {
  }

  // ---------------------------------------------------------------------------
  // Page state

  datatype EditState = EditState(
    products: seq<Product>,
    files: map<string, seq<ImageFile>>,
    previews: map<string, seq<string>>,
    main: map<string, int>,
    drafts: map<string, Draft>)

  function FilesOf(st: EditState, id: string): seq<ImageFile> {
    if id in st.files then st.files[id] else []
  }

  function PreviewsOf(st: EditState, id: string): seq<string> {
    if id in st.previews then st.previews[id] else []
  }

  /** The recorded main-image index of a product, 0 when none is recorded. */
  function MainOf(st: EditState, id: string): int {
    if id in st.main then st.main[id] else 0
  }

  /** The first listed product with that id, if any. */
  function FindProduct(products: seq<Product>, id: string): (r: Option<Product>)
    ensures r.None? <==> forall k :: 0 <= k < |products| ==> products[k].id != id
    ensures r.Some? ==> exists k :: 0 <= k < |products| && products[k] == r.value
                          && r.value.id == id && forall j :: 0 <= j < k ==> products[j].id != id
  {
    if |products| == 0 then None
    else if products[0].id == id then Some(products[0])
    else
      var rest := FindProduct(products[1..], id);
      assert forall k :: 1 <= k < |products| ==> products[k] == products[1..][k - 1];
      rest
  }

  /** The stored images of that product, none when it is not listed. */
  function ExistingImages(st: EditState, id: string): seq<string> {
    var found := FindProduct(st.products, id);
    if found.Some? then found.value.images else []
  }

  /** What the page lays out for that product: stored images, then previews.
      The main index points into this list. */
  function Combined(st: EditState, id: string): seq<string> {
    ExistingImages(st, id) + PreviewsOf(st, id)
  }

  /** The main index names an image of the combined list. */
  predicate MainInRange(st: EditState, id: string) {
    0 <= MainOf(st, id) < |Combined(st, id)|
  }

  /** The selection survives the change: the image the main index named
      before is the image it names after. */
  predicate KeepsSelection(before: EditState, after: EditState, id: string) {
    MainInRange(before, id) && MainInRange(after, id)
    && Combined(after, id)[MainOf(after, id)] == Combined(before, id)[MainOf(before, id)]
  }

  // ---------------------------------------------------------------------------
  // Adding new images

  /** `handleImageChange`: the new files and, once read, their previews are
      appended to that product's lists; an empty pick changes nothing. */
  function AddNewImages(st: EditState, id: string, files: seq<ImageFile>, previews: seq<string>): (r: EditState)
    ensures |files| == 0 ==> r == st
    ensures |files| > 0 ==>
      && FilesOf(r, id) == FilesOf(st, id) + files && PreviewsOf(r, id) == PreviewsOf(st, id) + previews
      && r.products == st.products && r.main == st.main && r.drafts == st.drafts
    ensures forall other :: other != id ==>
      FilesOf(r, other) == FilesOf(st, other) && PreviewsOf(r, other) == PreviewsOf(st, other)
  {
    if |files| == 0 then st
    else st.(files := st.files[id := FilesOf(st, id) + files],
             previews := st.previews[id := PreviewsOf(st, id) + previews])
  }

  /** Appending images never moves the selection. */
  lemma AddNewImagesKeepsSelection(st: EditState, id: string, files: seq<ImageFile>, previews: seq<string>)
    requires MainInRange(st, id)
    ensures KeepsSelection(st, AddNewImages(st, id, files, previews), id)
  {
    var r := AddNewImages(st, id, files, previews);
    if |files| > 0 {
      assert ExistingImages(r, id) == ExistingImages(st, id);
      assert Combined(r, id) == Combined(st, id) + previews;
    }
  }

  // ---------------------------------------------------------------------------
  // Removing a new image

  /** `handleRemoveImage` as written: drop preview `index` from that product's
      files and previews, and reset main to 0 only when it equals `index`, a
      position among the previews rather than in the combined list. */
  function RemoveNewImage(st: EditState, id: string, index: int): (r: EditState)
    ensures r.products == st.products && r.drafts == st.drafts
    ensures FilesOf(r, id) == RemoveAt(FilesOf(st, id), index)
    ensures PreviewsOf(r, id) == RemoveAt(PreviewsOf(st, id), index)
    ensures MainOf(st, id) == index ==> MainOf(r, id) == 0
    ensures MainOf(st, id) != index ==> MainOf(r, id) == MainOf(st, id)
    ensures forall other :: other != id ==>
      FilesOf(r, other) == FilesOf(st, other) && PreviewsOf(r, other) == PreviewsOf(st, other)
      && MainOf(r, other) == MainOf(st, other)
  {
    var main := if MainOf(st, id) == index then st.main[id := 0] else st.main;
    st.(files := st.files[id := RemoveAt(FilesOf(st, id), index)],
        previews := st.previews[id := RemoveAt(PreviewsOf(st, id), index)],
        main := main)
  }

  /** The corrected handler: the removed preview sits at `existing + index` in
      the combined list, and main moves by the create page's shift rule. */
  function RemoveNewImageFixed(st: EditState, id: string, index: int): (r: EditState)
    ensures r.products == st.products && r.drafts == st.drafts
    ensures FilesOf(r, id) == RemoveAt(FilesOf(st, id), index)
    ensures PreviewsOf(r, id) == RemoveAt(PreviewsOf(st, id), index)
    ensures forall other :: other != id ==>
      FilesOf(r, other) == FilesOf(st, other) && PreviewsOf(r, other) == PreviewsOf(st, other)
      && MainOf(r, other) == MainOf(st, other)
  {
    var main := if 0 <= index < |PreviewsOf(st, id)|
                then st.main[id := ShiftMain(MainOf(st, id), |ExistingImages(st, id)| + index)]
                else st.main;
    st.(files := st.files[id := RemoveAt(FilesOf(st, id), index)],
        previews := st.previews[id := RemoveAt(PreviewsOf(st, id), index)],
        main := main)
  }

  /** With the corrected handler, removing any preview other than the main
      image leaves the same image selected. */
  lemma RemoveNewImageFixedKeepsSelection(st: EditState, id: string, index: int)
    requires MainInRange(st, id)
    requires 0 <= index < |PreviewsOf(st, id)|
    requires MainOf(st, id) != |ExistingImages(st, id)| + index
    ensures KeepsSelection(st, RemoveNewImageFixed(st, id, index), id)
  {
    var r := RemoveNewImageFixed(st, id, index);
    var e := ExistingImages(st, id);
    var p := PreviewsOf(st, id);
    var i := |e| + index;
    assert ExistingImages(r, id) == e;
    assert PreviewsOf(r, id) == RemoveAt(p, index);
    RemoveBehind(e, p, index);
    ShiftKeepsSelection(Combined(st, id), MainOf(st, id), i);
  }

  /** A product "p" with the given stored images, for the examples below. */
  function SampleProduct(images: seq<string>): Product {
    Product("p", "", "", 1.0, None, 0.0, 1, "", "", "", images, Seller("", "", 0.0))
  }

  /** The as-written handler loses the selection. Product "p" has stored
      images [a, b] with b as main (index 1) and previews [x, y]; removing
      preview y (preview index 1) resets main to 0, so a becomes main. */
  lemma RemoveNewImageLosesSelection()
    ensures var st := EditState([SampleProduct(["a", "b"])],
                                map["p" := [ImageFile("x"), ImageFile("y")]], map["p" := ["x", "y"]],
                                map["p" := 1], map[]);
      && MainInRange(st, "p") && MainOf(st, "p") != |ExistingImages(st, "p")| + 1
      && Combined(st, "p")[MainOf(st, "p")] == "b"
      && Combined(RemoveNewImage(st, "p", 1), "p")[MainOf(RemoveNewImage(st, "p", 1), "p")] == "a"
      && !KeepsSelection(st, RemoveNewImage(st, "p", 1), "p")
  {
    var st := EditState([SampleProduct(["a", "b"])],
                        map["p" := [ImageFile("x"), ImageFile("y")]], map["p" := ["x", "y"]],
                        map["p" := 1], map[]);
    var r := RemoveNewImage(st, "p", 1);
    assert ExistingImages(st, "p") == ["a", "b"];
    assert ExistingImages(r, "p") == ["a", "b"];
    assert Combined(st, "p") == ["a", "b", "x", "y"];
    assert PreviewsOf(r, "p") == ["x"];
    assert Combined(r, "p") == ["a", "b", "x"];
  }

  // ---------------------------------------------------------------------------
  // Removing a stored image

  /** Every product with that id takes the new image list; the others are
      kept as they are, in their places. */
  function SetImages(products: seq<Product>, id: string, images: seq<string>): (r: seq<Product>)
    ensures |r| == |products|
    ensures forall k :: 0 <= k < |products| && products[k].id != id ==> r[k] == products[k]
    ensures forall k :: 0 <= k < |products| && products[k].id == id ==> r[k] == products[k].(images := images)
  {
    seq(|products|, k requires 0 <= k < |products| =>
      if products[k].id == id then products[k].(images := images) else products[k])
  }

  /** After the map the product found under that id carries the new images. */
  lemma FindAfterSetImages(products: seq<Product>, id: string, images: seq<string>)
    requires FindProduct(products, id).Some?
    ensures FindProduct(SetImages(products, id, images), id) == Some(FindProduct(products, id).value.(images := images))
  {
    var found := FindProduct(products, id).value;
    var k :| 0 <= k < |products| && products[k] == found && found.id == id
             && forall j :: 0 <= j < k ==> products[j].id != id;
    FindFirst(SetImages(products, id, images), id, k);
    FindFirst(products, id, k);
  }

  /** `find` returns the element at the first position carrying the id. */
  lemma {:induction false} FindFirst(products: seq<Product>, id: string, k: int)
    requires 0 <= k < |products| && products[k].id == id
    requires forall j :: 0 <= j < k ==> products[j].id != id
    ensures FindProduct(products, id) == Some(products[k])
    decreases k
  {
    if k > 0 {
      var tail := products[1..];
      assert tail[k - 1] == products[k];
      forall j | 0 <= j < k - 1 ensures tail[j].id != id {
        assert tail[j] == products[j + 1];
      }
      FindFirst(tail, id, k - 1);
    }
  }

  /** `handleRemoveExistingImage` as written: for a listed product, write the
      images without position `index`; once the store accepts, every product
      with that id gets them and main resets to 0 only when it equals `index`.
      A missing product or a store error changes nothing. */
  function RemoveExistingImage(st: EditState, id: string, index: int, storeError: Option<string>): (r: EditState)
    ensures FindProduct(st.products, id).None? || storeError.Some? ==> r == st
    ensures FindProduct(st.products, id).Some? && storeError.None? ==>
      && r.products == SetImages(st.products, id, RemoveAt(FindProduct(st.products, id).value.images, index))
      && r.files == st.files && r.previews == st.previews && r.drafts == st.drafts
      && (MainOf(st, id) == index ==> MainOf(r, id) == 0)
      && (MainOf(st, id) != index ==> r.main == st.main)
    ensures forall other :: other != id ==> MainOf(r, other) == MainOf(st, other)
  {
    var found := FindProduct(st.products, id);
    if found.None? || storeError.Some? then st
    else
      var updated := RemoveAt(found.value.images, index);
      var main := if MainOf(st, id) == index then st.main[id := 0] else st.main;
      st.(products := SetImages(st.products, id, updated), main := main)
  }

  /** The corrected handler: main moves by the shift rule. */
  function RemoveExistingImageFixed(st: EditState, id: string, index: int, storeError: Option<string>): (r: EditState)
    ensures FindProduct(st.products, id).None? || storeError.Some? ==> r == st
    ensures FindProduct(st.products, id).Some? && storeError.None? ==>
      && r.products == SetImages(st.products, id, RemoveAt(FindProduct(st.products, id).value.images, index))
      && r.files == st.files && r.previews == st.previews && r.drafts == st.drafts
    ensures forall other :: other != id ==> MainOf(r, other) == MainOf(st, other)
  {
    var found := FindProduct(st.products, id);
    if found.None? || storeError.Some? then st
    else
      var updated := RemoveAt(found.value.images, index);
      var main := if 0 <= index < |found.value.images|
                  then st.main[id := ShiftMain(MainOf(st, id), index)]
                  else st.main;
      st.(products := SetImages(st.products, id, updated), main := main)
  }

  /** With the corrected handler, removing any stored image other than the main
      one leaves the same image selected. */
  lemma RemoveExistingImageFixedKeepsSelection(st: EditState, id: string, index: int)
    requires MainInRange(st, id)
    requires 0 <= index < |ExistingImages(st, id)|
    requires MainOf(st, id) != index
    ensures KeepsSelection(st, RemoveExistingImageFixed(st, id, index, None), id)
  {
    var found := FindProduct(st.products, id);
    var e := ExistingImages(st, id);
    var p := PreviewsOf(st, id);
    var r := RemoveExistingImageFixed(st, id, index, None);
    FindAfterSetImages(st.products, id, RemoveAt(e, index));
    assert ExistingImages(r, id) == RemoveAt(e, index);
    assert PreviewsOf(r, id) == p;
    RemoveInFront(e, p, index);
    ShiftKeepsSelection(Combined(st, id), MainOf(st, id), index);
  }

  /** The as-written handler loses the selection. Product "p" has stored
      images [a, b, c] with c as main (index 2) and one preview x; removing a
      keeps main at 2, which now names x. */
  lemma RemoveExistingImageLosesSelection()
    ensures var st := EditState([SampleProduct(["a", "b", "c"])],
                                map["p" := [ImageFile("x")]], map["p" := ["x"]], map["p" := 2], map[]);
      && MainInRange(st, "p") && MainOf(st, "p") != 0
      && Combined(st, "p")[MainOf(st, "p")] == "c"
      && Combined(RemoveExistingImage(st, "p", 0, None), "p")[MainOf(RemoveExistingImage(st, "p", 0, None), "p")] == "x"
      && !KeepsSelection(st, RemoveExistingImage(st, "p", 0, None), "p")
  {
    var product := SampleProduct(["a", "b", "c"]);
    var st := EditState([product], map["p" := [ImageFile("x")]], map["p" := ["x"]], map["p" := 2], map[]);
    var r := RemoveExistingImage(st, "p", 0, None);
    assert FindProduct(st.products, "p") == Some(product);
    assert RemoveAt(["a", "b", "c"], 0) == ["b", "c"];
    assert r.products == [product.(images := ["b", "c"])];
    assert FindProduct(r.products, "p") == Some(product.(images := ["b", "c"]));
    assert Combined(st, "p") == ["a", "b", "c", "x"];
    assert Combined(r, "p") == ["b", "c", "x"];
  }

  // ---------------------------------------------------------------------------
  // Saving and deleting

  /** What a successful save resets: that product's new files, previews, main
      index and draft, and nothing of any other product. */
  function ClearEdits(st: EditState, id: string): (r: EditState)
    ensures r.products == st.products
    ensures FilesOf(r, id) == [] && PreviewsOf(r, id) == [] && MainOf(r, id) == 0
    ensures DraftOf(r.drafts, id) == EmptyDraft
    ensures forall other :: other != id ==>
      FilesOf(r, other) == FilesOf(st, other) && PreviewsOf(r, other) == PreviewsOf(st, other)
      && MainOf(r, other) == MainOf(st, other) && DraftOf(r.drafts, other) == DraftOf(st.drafts, other)
  {
    st.(files := st.files[id := []], previews := st.previews[id := []],
        main := st.main[id := 0], drafts := st.drafts[id := EmptyDraft])
  }

  /** The update sent for the product: its draft, the thumbnail and the images. */
  datatype UpdatePayload = UpdatePayload(draft: Draft, thumbnail: string, images: seq<string>)

  const UpdateFailedMessage := "Failed to update product"

  /** `handleUpdateProduct`: upload that product's new files in order (the
      first failure aborts), append their URLs to the stored images, choose
      the thumbnail at the main index, and send the draft with them. On
      success the product's files, previews, main index and draft are reset;
      on any failure the state is unchanged. `reply(k)` is the storage's answer
      to the k-th upload, `updateError` the table's answer to the update. */
  method Update(st: EditState, id: string, reply: nat -> Result<string>, updateError: Option<string>)
    returns (result: Result<UpdatePayload>, r: EditState)
    ensures var n := |FilesOf(st, id)|;
      result.Success? <==> (forall k :: 0 <= k < n ==> reply(k).Success?) && updateError.None?
    ensures result.Failure? ==> result.error == UpdateFailedMessage && r == st
    ensures result.Success? ==>
      var e := ExistingImages(st, id);
      var n := |FilesOf(st, id)|;
      && |result.value.images| == |e| + n
      && result.value.images[..|e|] == e
      && (forall k :: 0 <= k < n ==> result.value.images[|e| + k] == reply(k).value)
      && result.value.thumbnail == Thumbnail(result.value.images, MainOf(st, id))
      && result.value.draft == DraftOf(st.drafts, id)
    ensures result.Success? ==> r == ClearEdits(st, id)
  {
    var files := FilesOf(st, id);
    var urls := ExistingImages(st, id);
    if |files| > 0 {
      var uploaded := UploadAll(|files|, reply);
      if uploaded.Failure? {
        return Failure(UpdateFailedMessage), st;
      }
      urls := urls + uploaded.value;
    }
    var payload := UpdatePayload(DraftOf(st.drafts, id), Thumbnail(urls, MainOf(st, id)), urls);
    if updateError.Some? {
      return Failure(UpdateFailedMessage), st;
    }
    result := Success(payload);
    r := ClearEdits(st, id);
  }

  /** The products with other ids, in their order. */
  function WithoutProduct(products: seq<Product>, id: string): (r: seq<Product>)
    ensures forall p :: p in r <==> p in products && p.id != id
    ensures |r| <= |products|
  {
    if |products| == 0 then []
    else if products[0].id == id then WithoutProduct(products[1..], id)
    else [products[0]] + WithoutProduct(products[1..], id)
  }

  /** The filter works part by part: filtering a concatenation filters each
      part, so the kept products stay in their order. */
  lemma {:induction false} WithoutProductAppend(a: seq<Product>, b: seq<Product>, id: string)
    ensures WithoutProduct(a + b, id) == WithoutProduct(a, id) + WithoutProduct(b, id)
    decreases |a|
  {
    if |a| == 0 {
      assert a + b == b;
    } else {
      var rest := a[1..] + b;
      assert a + b == [a[0]] + rest;
      assert (a + b)[1..] == rest;
      WithoutProductAppend(a[1..], b, id);
    }
  }

  /** A single product is dropped exactly when it carries `id`. */
  lemma WithoutProductSingle(x: Product, id: string)
    ensures WithoutProduct([x], id) == if x.id == id then [] else [x]
  {
    assert [x][1..] == [];
  }


  /** The filter keeps each product with another id as many times as it occurs. */
  lemma {:induction false} WithoutProductCounts(products: seq<Product>, id: string, p: Product)
    ensures multiset(WithoutProduct(products, id))[p] == if p.id == id then 0 else multiset(products)[p]
    decreases |products|
  {
    if |products| > 0 {
      assert products == [products[0]] + products[1..];
      WithoutProductCounts(products[1..], id, p);
    }
  }

  /** `handleDeleteProduct`: after confirmation, once the store has deleted the
      images and the row, the list drops that id and nothing else. A refused
      confirmation or any store error leaves the list as it was. */
  function Delete(products: seq<Product>, id: string, confirmed: bool, storeError: Option<string>): (r: seq<Product>)
    ensures !confirmed || storeError.Some? ==> r == products
    ensures confirmed && storeError.None? ==> forall p :: p in r <==> p in products && p.id != id
  {
    if !confirmed || storeError.Some? then products else WithoutProduct(products, id)
  }

  /** A successful delete keeps every other product as often as before and in
      its order: cut the list anywhere and the result is the kept products of
      the front followed by those of the back. */
  lemma DeleteKeepsOrder(products: seq<Product>, id: string)
    ensures var r := Delete(products, id, true, None);
      && (forall p: Product :: p.id != id ==> multiset(r)[p] == multiset(products)[p])
      && (forall p: Product :: p.id == id ==> multiset(r)[p] == 0)
      && (forall k :: 0 <= k <= |products| ==>
            r == WithoutProduct(products[..k], id) + WithoutProduct(products[k..], id))
  {
    var r := Delete(products, id, true, None);
    forall p: Product
      ensures multiset(r)[p] == if p.id == id then 0 else multiset(products)[p]
    {
      WithoutProductCounts(products, id, p);
    }
    forall k | 0 <= k <= |products|
      ensures r == WithoutProduct(products[..k], id) + WithoutProduct(products[k..], id)
    {
      assert products == products[..k] + products[k..];
      WithoutProductAppend(products[..k], products[k..], id);
    }
  }

  /** Deleting an id that is not listed keeps the list as it is. */
  lemma {:induction false} DeleteAbsent(products: seq<Product>, id: string)
    requires forall k :: 0 <= k < |products| ==> products[k].id != id
    ensures WithoutProduct(products, id) == products
    decreases |products|
  {
    if |products| > 0 {
      var tail := products[1..];
      forall k | 0 <= k < |tail| ensures tail[k].id != id {
        assert tail[k] == products[k + 1];
      }
      DeleteAbsent(tail, id);
    }
  }
}
