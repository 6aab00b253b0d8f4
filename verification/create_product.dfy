/** src/pages/CreateProductPage.tsx: the picked files and their previews kept
    side by side with a main-image index, and the submit handler that uploads
    the files and inserts the product row. */
module CreateProduct {
  import opened Wrappers
  import opened ProductImages

  /** The picked files, their previews and the index of the main image. */
  datatype Drafts = Drafts(files: seq<ImageFile>, previews: seq<string>, main: int)

  const InitialDrafts := Drafts([], [], 0)

  /** One preview per file. */
  predicate Aligned(d: Drafts) {
    |d.files| == |d.previews|
  }

  /** `handleImageChange`: the new files and, once read, their previews are
      appended; the main index is not touched. */
  function AddImages(d: Drafts, files: seq<ImageFile>, previews: seq<string>): (r: Drafts)
    ensures |r.files| == |d.files| + |files| && |r.previews| == |d.previews| + |previews|
    ensures r.files[..|d.files|] == d.files && r.files[|d.files|..] == files
    ensures r.previews[..|d.previews|] == d.previews && r.previews[|d.previews|..] == previews
    ensures r.main == d.main
  {
    Drafts(d.files + files, d.previews + previews, d.main)
  }

  /** The remove button of image `idx`: drop it from both lists and move the
      main index by the shift rule. */
  function RemoveImage(d: Drafts, idx: int): (r: Drafts)
    ensures r.files == RemoveAt(d.files, idx) && r.previews == RemoveAt(d.previews, idx)
    ensures r.main == ShiftMain(d.main, idx)
  {
    Drafts(RemoveAt(d.files, idx), RemoveAt(d.previews, idx), ShiftMain(d.main, idx))
  }

  /** Adding keeps files and previews aligned when one preview is read per new
      file, and removing a shown image keeps them aligned and shortens both. */
  lemma EditsKeepAligned(d: Drafts, files: seq<ImageFile>, previews: seq<string>, idx: int)
    requires Aligned(d)
    ensures |files| == |previews| ==> Aligned(AddImages(d, files, previews))
    ensures Aligned(RemoveImage(d, idx))
    ensures 0 <= idx < |d.previews| ==> |RemoveImage(d, idx).previews| == |d.previews| - 1
  {
  }

  /** Removing any preview but the main one keeps the same image as main;
      removing the main one makes the first image main. */
  lemma RemoveKeepsMainImage(d: Drafts, idx: int)
    requires Aligned(d) && 0 <= d.main < |d.previews| && 0 <= idx < |d.previews|
    ensures var r := RemoveImage(d, idx);
      idx != d.main ==> r.previews[r.main] == d.previews[d.main] && r.files[r.main] == d.files[d.main]
    ensures idx == d.main ==> RemoveImage(d, idx).main == 0
  {
    ShiftKeepsSelection(d.previews, d.main, idx);
    ShiftKeepsSelection(d.files, d.main, idx);
  }

  /** The text inputs of the form. */
  datatype Form = Form(
    title: string,
    description: string,
    price: string,
    brand: string,
    category: string,
    stock: string,
    discountPercentage: string)

  /** The row inserted into `products`. */
  datatype NewProduct = NewProduct(
    title: string,
    description: string,
    price: real,
    brand: string,
    category: string,
    stock: int,
    discountPercentage: Option<real>,
    thumbnail: string,
    images: seq<string>)

  const NoImagesMessage := "Please upload at least one image"

  /** `discount_percentage`: null for an empty field, the parsed number otherwise. */
  function DiscountOf(field: string, parseFloat: string -> real): (r: Option<real>)
    ensures r.None? <==> field == ""
    ensures r.Some? ==> r.value == parseFloat(field)
  {
    if field == "" then None else Some(parseFloat(field))
  }

  /** `handleSubmit`. Without files it stops before any upload. Otherwise every
      file is uploaded in order; the first failed upload, or a failed insert,
      ends the submit with that error's message. `reply(k)` is the storage's
      answer to the k-th upload and `insertError` the table's answer to the
      insert. On success the result is the inserted row. */
  method Submit(d: Drafts, form: Form, reply: nat -> Result<string>, insertError: Option<string>,
                parseFloat: string -> real, parseInt: string -> int)
    returns (r: Result<NewProduct>)
    ensures |d.files| == 0 ==> r == Failure(NoImagesMessage)
    ensures |d.files| > 0 && (exists k :: FirstFailure(|d.files|, reply, k)) ==>
      exists k :: FirstFailure(|d.files|, reply, k) && r == Failure(reply(k).error)
    ensures |d.files| > 0 && (forall k :: 0 <= k < |d.files| ==> reply(k).Success?) && insertError.Some? ==>
      r == Failure(insertError.value)
    ensures r.Success? <==>
      |d.files| > 0 && (forall k :: 0 <= k < |d.files| ==> reply(k).Success?) && insertError.None?
    ensures r.Success? ==>
      var row := r.value;
      && |row.images| == |d.files|
      && (forall k :: 0 <= k < |d.files| ==> row.images[k] == reply(k).value)
      && row.thumbnail == Thumbnail(row.images, d.main)
      && row.title == form.title && row.description == form.description
      && row.brand == form.brand && row.category == form.category
      && row.price == parseFloat(form.price) && row.stock == parseInt(form.stock)
      && row.discountPercentage == DiscountOf(form.discountPercentage, parseFloat)
  {
    if |d.files| == 0 {
      return Failure(NoImagesMessage);
    }
    var uploaded := UploadAll(|d.files|, reply);
    if uploaded.Failure? {
      return Failure(uploaded.error);
    }
    var urls := uploaded.value;
    var row := NewProduct(form.title, form.description, parseFloat(form.price), form.brand,
                          form.category, parseInt(form.stock),
                          DiscountOf(form.discountPercentage, parseFloat),
                          Thumbnail(urls, d.main), urls);
    if insertError.Some? {
      return Failure(insertError.value);
    }
    return Success(row);
  }
}
