# Storefront shopping state, in Dafny

This project models the client-side shopping logic of a React/TypeScript
storefront backed by a hosted Postgres store. The modelled parts are:

- the cart reducer (`ADD_TO_CART`, `REMOVE_FROM_CART`, `UPDATE_QUANTITY`,
  `CLEAR_CART`) with its derived item count and total;
- the pages that consume the cart: cart, checkout and product detail;
- the in-memory wishlist and the remote (user, product) wishlist table with
  its bulk sync;
- order creation, and the order detail and admin order pages;
- the search page's filter-and-sort pipeline;
- the image bookkeeping of the create and edit product pages.

Every rule is a pure function over immutable data. Money is `real` and a
product's discount is `Option<real>`. Only a present, non-zero discount
changes the price, because a JavaScript `0` is falsy.

Anything remote is an input, not part of the model:
- Remote tables are plain values: a set of rows for wishlists, and lists of
  rows for orders and products.
- Every reply of the store, such as an error or an upload's public URL, is a
  parameter.
- `parseFloat`/`parseInt`, the `created_at` timestamp and the `localeCompare`
  title order are function-typed parameters.

Modules follow the source files:

| module | source |
|---|---|
| `Wrappers`, `Text` | `Option`/`Result`, and ASCII lower-casing, blankness and substring search |
| `Catalog` | the product shape and the effective (discounted) price |
| `Cart` | `src/context/CartContext.tsx` |
| `CartPage`, `Checkout`, `ProductDetail` | the three cart-consuming pages |
| `Orders` | `createOrder` in `src/lib/orders.ts` |
| `WishlistContext`, `WishlistStore` | `src/context/WishlistContext.tsx`, `src/lib/wishlist.ts` |
| `Search` | the filter/sort effect of `src/pages/SearchPage.tsx` |
| `ProductImages`, `CreateProduct`, `EditProduct` | the product image pages and what they share |
| `OrderDetail`, `AdminOrders` | the two order management pages |

The two product pages store the discount under the column
`discount_percentage` (`src/pages/CreateProductPage.tsx:96`,
`src/pages/EditProductPage.tsx:267`). Every pricing rule reads
`discountPercentage` instead. The model keeps one discount field per product
and does not decide how the two names are mapped.

## Model

| member | source | states |
|---|---|---|
| Catalog.EffectivePrice | src/context/CartContext.tsx:28-30 | The unit price is the base price when the discount is absent or 0, and the price reduced by d percent otherwise |
| Catalog.DiscountedPrice | src/pages/ProductDetailPage.tsx:140-142 | The shown discounted price is null exactly when the discount is falsy, and otherwise equals the effective price used by the cart |
| Catalog.EffectivePriceBounds | src/context/CartContext.tsx:28-30 | For a non-negative price and a discount within [0, 100], the effective price lies between 0 and the base price, and is strictly lower when a discount applies to a positive price |
| Text.LowerChar | src/pages/SearchPage.tsx:78 | A capital A..Z becomes the small letter 32 code points above it; every other character is unchanged; no capital comes out |
| Text.Lower | src/pages/SearchPage.tsx:78 | Lower-casing keeps the length and lower-cases each character in its place |
| Text.LowerNormalises | src/pages/CartPage.tsx:33 | After lower-casing no capital is left, lower-casing again changes nothing, a string without capitals is unchanged, and blankness is preserved |
| Text.IsBlank | src/pages/CartPage.tsx:27 | A code is blank exactly when trimming its whitespace leaves nothing; the empty code is blank |
| Text.Contains | src/pages/SearchPage.tsx:80-83 | The empty needle is found in every text, a needle longer than the text never is, and a prefix is always found |
| Text.ContainsIffOccurs | src/pages/SearchPage.tsx:80-83 | The substring test used by `includes` holds exactly when the needle occurs at some position |
| Cart.FindIndex | src/context/CartContext.tsx:38-40 | The lookup returns the first entry carrying the id, or -1 exactly when no entry does |
| Cart.Without | src/context/CartContext.tsx:69-71 | An entry is in the result exactly when it is in the cart and belongs to another product |
| Cart.WithoutAppend | src/context/CartContext.tsx:69-71 | Removing from a concatenation removes from each part, so the kept entries stay in their order |
| Cart.WithoutSingle | src/context/CartContext.tsx:69-71 | A single entry is dropped exactly when it carries the id; with the concatenation law this fixes the result entirely |
| Cart.WithoutCounts | src/context/CartContext.tsx:69-71 | Each entry of another product is kept as many times as it occurs, and no entry of the removed product remains |
| Cart.WithQuantity | src/context/CartContext.tsx:80-84 | Same length and the same product at every position; the entries of that product take the new quantity and every other entry is untouched |
| Cart.SumsNonNegative | src/context/CartContext.tsx:22-33 | With no negative quantity the unit count is never negative, and with no negative unit price neither is the total |
| Cart.QuantityWithinCount | src/context/CartContext.tsx:22-24 | With no negative quantity the units of one product lie between 0 and the unit count |
| Cart.Recompute | src/context/CartContext.tsx:22-33 | The recomputed state keeps the entries and has an item count and a total that are not stale |
| Cart.Reduce | src/context/CartContext.tsx:35-97 | After every action the item count is the sum of quantities and the total is the sum of effective price times quantity |
| Cart.ItemCountAppend | src/context/CartContext.tsx:22-33 | Appending an entry adds its quantity to the count and its line amount to the total |
| Cart.SumsAfterReplace | src/context/CartContext.tsx:43-53 | Replacing one entry changes the count, the total and the per-product quantity by exactly that entry's difference |
| Cart.AddExisting | src/context/CartContext.tsx:38-54 | Adding a product already in the cart raises only that entry's quantity by 1, in place; every other entry is unchanged |
| Cart.AddNew | src/context/CartContext.tsx:55-66 | Adding a product not in the cart appends one entry with quantity 1 at the end |
| Cart.AddCounts | src/context/CartContext.tsx:37-66 | One add raises the item count and that product's quantity by 1, leaves every other product's quantity alone and adds one effective unit price to the total |
| Cart.RemoveSpec | src/context/CartContext.tsx:68-78 | Remove keeps the other products' entries, each as often as before and in their order (cut anywhere, the result is the kept front followed by the kept back), so that product's quantity is 0; removing an absent id from a consistent state changes nothing |
| Cart.WithoutAbsent | src/context/CartContext.tsx:69-71 | Filtering out an absent id returns the entries unchanged |
| Cart.UpdateSpec | src/context/CartContext.tsx:79-91 | Update stores the quantity verbatim, without a lower bound, on that product's entries only; an unknown id changes nothing in a consistent state |
| Cart.ClearSpec | src/context/CartContext.tsx:92-93 | Clear yields the initial state: no entries, count 0, total 0 |
| Cart.WithoutKeepsDistinct | src/context/CartContext.tsx:69-71 | Filtering keeps product ids distinct |
| Cart.ReduceKeepsDistinct | src/context/CartContext.tsx:35-97 | Distinct product ids stay distinct under every action |
| Cart.RepeatedAdds | src/context/CartContext.tsx:37-66 | Adding the same product n times to an empty cart gives one entry of quantity n |
| CartPage.Shipping | src/pages/CartPage.tsx:12 | Shipping is 0 exactly when the subtotal exceeds 50, and 5.99 otherwise |
| CartPage.OrderTotal | src/pages/CartPage.tsx:13-14 | The order total is the subtotal plus 8% tax plus shipping, never below a non-negative subtotal |
| CartPage.Tax | src/pages/CartPage.tsx:13 | Tax is 8% of the subtotal (25 times the tax is twice the subtotal): nothing on an empty cart, never negative nor above a non-negative subtotal |
| CartPage.ShippingCliff | src/pages/CartPage.tsx:12-14 | A subtotal of 50 costs 59.99 in total while 50.01 costs 54.0108: a larger cart can cost less |
| CartPage.ChangeQuantity | src/pages/CartPage.tsx:16-19 | A requested quantity below 1 leaves the cart as it is; any other is forwarded unchanged to the reducer |
| CartPage.GuardKeepsQuantitiesPositive | src/pages/CartPage.tsx:16-19 | Through the page, with adds, removes and clears, quantities stay positive |
| CartPage.ZeroQuantityReachesReducer | src/context/CartContext.tsx:79-91 | The reducer alone does store a quantity of 0, leaving an entry in a cart whose count is 0 |
| CartPage.PositiveItemCount | src/pages/CartPage.tsx:57 | With positive quantities the item count is at least the number of entries |
| CartPage.ShowsEmptyCart | src/pages/CartPage.tsx:57 | For figures in step with the entries, the empty view shows exactly when the entries hold no unit; the initial cart shows it |
| CartPage.EmptyViewIffNoEntries | src/pages/CartPage.tsx:57 | For a consistent cart with positive quantities, the empty view is shown exactly when there are no entries |
| CartPage.LineAmount | src/pages/CartPage.tsx:90-92 | The amount shown on a cart line is the reducer's line total for that entry |
| CartPage.ApplyCoupon | src/pages/CartPage.tsx:25-40 | A blank code asks for a code; a non-blank code clears the error exactly when it lower-cases to "discount10", and is invalid otherwise |
| CartPage.CouponIgnoresCase | src/pages/CartPage.tsx:27-40 | Any two codes that lower-case alike get the same answer, and a code is accepted exactly when it is not blank and lower-cases to "discount10" |
| CartPage.CouponCaseInsensitiveNotTrimmed | src/pages/CartPage.tsx:27-33 | Witnesses: "DISCOUNT10" and "Discount10" are accepted, while " discount10" is invalid because surrounding spaces are not trimmed |
| Checkout.SummaryOf | src/pages/CheckoutPage.tsx:34-36 | The checkout summary uses the cart page's shipping, tax and total on the discounted subtotal |
| Checkout.Render | src/pages/CheckoutPage.tsx:70-84 | The empty view is rendered exactly when the cart has no entries; otherwise the form carries the summary and one line per entry |
| Checkout.SummaryLines | src/pages/CheckoutPage.tsx:246-251 | Each summary line is the undiscounted base price times the quantity |
| Checkout.LineBound | src/pages/CheckoutPage.tsx:249 | A line's discounted amount never exceeds its undiscounted one, and equals it without a discount |
| Checkout.LinesVersusSubtotal | src/pages/CheckoutPage.tsx:246-256 | The printed lines add up to at least the subtotal, and to exactly the subtotal when nothing is discounted |
| Checkout.Submit | src/pages/CheckoutPage.tsx:46-68 | The order is created for the summary's total; the cart is cleared exactly when creation succeeds and is left as it was otherwise |
| Checkout.SubmitFromPage | src/pages/CheckoutPage.tsx:70-84 | With an empty cart nothing can be submitted and nothing changes |
| Orders.ItemRows | src/lib/orders.ts:59-66 | One row per cart entry, in order, each with the new order id, the entry's product id and quantity, and the effective unit price |
| Orders.ItemRowsAmountIsCartTotal | src/lib/orders.ts:59-66 | The rows' price times quantity adds up to the cart total |
| Orders.CreateOrder | src/lib/orders.ts:36-77 | No user: fails before any insert. Failed order insert: fails with its message and nothing is written. Failed item insert: fails after the order row exists. Succeeds exactly when all three steps do |
| ProductDetail.NormalizeImages | src/pages/ProductDetailPage.tsx:40-46 | An array is kept, a non-empty single value is wrapped, and a missing or empty value becomes [thumbnail] or [] |
| ProductDetail.DisplayThumbnail | src/pages/ProductDetailPage.tsx:52 | The thumbnail is the stored one when non-empty, else the first image or '' |
| ProductDetail.NormalizedThumbnail | src/pages/ProductDetailPage.tsx:40-56 | After normalisation a stored thumbnail is always shown, and the first image is empty only for an empty list when no array was given |
| ProductDetail.ChangeQuantity | src/pages/ProductDetailPage.tsx:92-97 | A selection is accepted exactly when it parses and lies in 1..stock for a loaded product; otherwise the old quantity stays |
| ProductDetail.QuantityOptions | src/pages/ProductDetailPage.tsx:247-248 | The selector offers 1..min(10, stock) in order, and fails exactly for a negative stock |
| ProductDetail.OptionsAreAccepted | src/pages/ProductDetailPage.tsx:247-251 | A value is offered exactly when it lies in 1..stock and is at most 10, and every offered value is accepted by the change handler |
| ProductDetail.HandleAddToCart | src/pages/ProductDetailPage.tsx:84-90 | For 0 < q <= stock the product's cart quantity and the item count rise by exactly q, other products are untouched and distinct ids stay distinct; otherwise the cart is unchanged |
| WishlistContext.Ids | src/context/WishlistContext.tsx:23 | An id is in the id set exactly when some listed item carries it |
| WishlistContext.Add | src/context/WishlistContext.tsx:21-26 | An already listed id leaves the list unchanged; a new one is appended at the end |
| WishlistContext.Remove | src/context/WishlistContext.tsx:28-30 | An item is in the result exactly when it is listed and has another id |
| WishlistContext.RemoveAppend | src/context/WishlistContext.tsx:28-30 | Removing from a concatenation removes from each part, so the kept items stay in their order |
| WishlistContext.RemoveSingle | src/context/WishlistContext.tsx:28-30 | A single item is dropped exactly when it carries the id |
| WishlistContext.RemoveCounts | src/context/WishlistContext.tsx:28-30 | Each item with another id is kept as many times as it occurs, and none with the id remains |
| WishlistContext.IdsFollowSetSemantics | src/context/WishlistContext.tsx:21-30 | The listed ids behave as a set: add inserts, remove deletes, adding twice equals adding once |
| WishlistContext.RemoveAbsent | src/context/WishlistContext.tsx:28-30 | Removing an unlisted id is a no-op |
| WishlistContext.RemoveKeepsUnique | src/context/WishlistContext.tsx:28-30 | Remove keeps ids unique |
| WishlistContext.RunKeepsUnique | src/context/WishlistContext.tsx:19-30 | Starting empty, every sequence of adds and removes keeps ids unique |
| WishlistStore.GetItems | src/lib/wishlist.ts:14-29 | Listing returns exactly that user's rows, or the prefixed store error |
| WishlistStore.AddItem | src/lib/wishlist.ts:32-43 | Adding inserts the (user, product) row; a store error is rethrown with its prefix and writes nothing |
| WishlistStore.RemoveItem | src/lib/wishlist.ts:46-56 | Removing deletes only the row matching both user and product |
| WishlistStore.IsInWishlist | src/lib/wishlist.ts:59-72 | Without an error the answer is whether the row exists; the no-row code PGRST116 means false; any other error is rethrown |
| WishlistStore.SyncRows | src/lib/wishlist.ts:78-81 | The rows to upsert are exactly (user, p) for each local product id |
| WishlistStore.Sync | src/lib/wishlist.ts:75-93 | An empty list makes no call; a store error is only logged and writes nothing; a successful sync adds exactly the local rows |
| WishlistStore.SyncMonotoneIdempotent | src/lib/wishlist.ts:83-89 | Sync never removes rows, and a second successful sync of the same list changes nothing |
| WishlistStore.OtherUsersUntouched | src/lib/wishlist.ts:32-89 | Add, remove and sync for one user leave every other user's listing unchanged |
| WishlistStore.MembershipAfterWrites | src/lib/wishlist.ts:32-72 | After a successful add the product is listed for that user; after a successful remove it is not |
| Search.Where | src/pages/SearchPage.tsx:74-123 | A filter returns a sub-multiset of its input in which every element is kept and no kept input element is missing |
| Search.WhereWhere | src/pages/SearchPage.tsx:74-123 | Two filters in a row equal one filter on the conjunction |
| Search.QueryOk | src/pages/SearchPage.tsx:77-85 | A blank query keeps every product; any other keeps exactly those in whose lower-cased title, description, brand or category the lower-cased query occurs at some position |
| Search.CategoryOk | src/pages/SearchPage.tsx:88-90 | An empty category keeps every product; otherwise only an exact category match |
| Search.MinPriceOk | src/pages/SearchPage.tsx:93-101 | An empty lower bound keeps every product; otherwise those whose effective price is at least the parsed bound |
| Search.MaxPriceOk | src/pages/SearchPage.tsx:103-111 | An empty upper bound keeps every product; otherwise those whose effective price is at most the parsed bound |
| Search.BrandOk | src/pages/SearchPage.tsx:114-118 | A product is kept exactly when the brand filter is empty or the lower-cased filter occurs in the lower-cased brand |
| Search.StockOk | src/pages/SearchPage.tsx:121-123 | Unticked keeps every product; ticked keeps exactly those with at least one unit in stock |
| Search.FilterChainIsConjunction | src/pages/SearchPage.tsx:73-123 | The six successive filters keep, in order, exactly the products every active filter accepts |
| Search.InsertSorted | src/pages/SearchPage.tsx:125-153 | Inserting into a sorted list keeps it sorted and adds exactly that element |
| Search.SortKey | src/pages/SearchPage.tsx:126-153 | Ordering by the key is ascending effective price for price_low, descending for price_high, descending rating, newest first, oldest first, and the title order for anything else |
| Search.SortByKey | src/pages/SearchPage.tsx:125-153 | The sort returns a permutation of its input ordered by the key |
| Search.Results | src/pages/SearchPage.tsx:73-156 | Every result is one of the loaded products: the output is a sub-multiset of the input |
| Search.ResultsAreExactlyThePassingProducts | src/pages/SearchPage.tsx:74-123 | The results are exactly the loaded products that pass every active filter (query, category, price range, brand, stock), with multiplicity |
| Search.PriceSortsAreOrdered | src/pages/SearchPage.tsx:127-139 | price_low gives non-decreasing and price_high non-increasing effective prices |
| Search.ClearedFiltersKeepEverything | src/pages/SearchPage.tsx:167-176 | With the cleared filters and a blank query every loaded product is listed |
| ProductImages.RemoveAt | src/pages/CreateProductPage.tsx:142-143 | Removing position i shortens the list by one and shifts later elements down; an out-of-range i changes nothing |
| ProductImages.ShiftMain | src/pages/CreateProductPage.tsx:144-148 | Main resets to 0 when the removed index is main, steps back when it is before main, and is kept when it is after |
| ProductImages.ShiftKeepsSelection | src/pages/CreateProductPage.tsx:144-148 | The shift rule keeps main in range and on the same image whenever another image is removed |
| ProductImages.Thumbnail | src/pages/EditProductPage.tsx:173-174 | The thumbnail is the non-empty URL at the main index, else the first URL, else '' |
| ProductImages.ThumbnailIsAnImage | src/pages/CreateProductPage.tsx:87 | The thumbnail is always one of the uploaded URLs when there is one |
| ProductImages.UploadAll | src/pages/CreateProductPage.tsx:68-85 | Uploads run in order; the result succeeds exactly when every upload does, lists their URLs in order, and otherwise carries the first failure's error |
| CreateProduct.AddImages | src/pages/CreateProductPage.tsx:36-49 | New files and previews are appended after the existing ones, which keep their positions; main is unchanged |
| CreateProduct.RemoveImage | src/pages/CreateProductPage.tsx:140-148 | Removing image idx drops it from both lists and moves main by the shift rule |
| CreateProduct.EditsKeepAligned | src/pages/CreateProductPage.tsx:37-148 | Files and previews stay aligned through appends and removals |
| CreateProduct.RemoveKeepsMainImage | src/pages/CreateProductPage.tsx:142-148 | Removing another image keeps the same file and preview as main; removing the main image makes the first one main |
| CreateProduct.DiscountOf | src/pages/CreateProductPage.tsx:96 | The discount is null exactly for an empty field and the parsed number otherwise |
| CreateProduct.Submit | src/pages/CreateProductPage.tsx:57-110 | No files: rejected before any upload. Otherwise the first failed upload or a failed insert ends it with that message. On success the row carries the form values, the URLs in order and the thumbnail at the main index |
| EditProduct.FieldChange | src/pages/EditProductPage.tsx:133-145 | A field edit creates or updates only that product's draft |
| EditProduct.FieldChangeShowsOneField | src/pages/EditProductPage.tsx:261-267 | After an edit the form shows the new value in that field, what it showed before in every other field, and other products' drafts are unchanged |
| EditProduct.FindProduct | src/pages/EditProductPage.tsx:97 | The lookup finds the first product with the id, or none exactly when no product has it |
| EditProduct.AddNewImages | src/pages/EditProductPage.tsx:47-74 | New files and previews are appended to that product's lists only; an empty pick changes nothing |
| EditProduct.AddNewImagesKeepsSelection | src/pages/EditProductPage.tsx:47-74 | Appending images never moves the selected image |
| EditProduct.RemoveNewImage | src/pages/EditProductPage.tsx:76-93 | As written: the preview goes from that product's files and previews; main resets to 0 only when it equals the preview-local index, and is never stepped back |
| EditProduct.RemoveNewImageLosesSelection | src/pages/EditProductPage.tsx:83-92 | Counterexample: removing another image moves the selection to a different image |
| EditProduct.RemoveNewImageFixed | src/pages/EditProductPage.tsx:76-93 | Corrected: the same list updates, with main moved by the shift rule on the combined index |
| EditProduct.RemoveNewImageFixedKeepsSelection | src/pages/EditProductPage.tsx:478-486 | With the corrected rule, removing any preview but the selected image keeps the selection |
| EditProduct.SetImages | src/pages/EditProductPage.tsx:109-113 | Only products with that id get the new images; the others are unchanged |
| EditProduct.FindAfterSetImages | src/pages/EditProductPage.tsx:97-113 | After the update the lookup finds the same product with the new images |
| EditProduct.RemoveExistingImage | src/pages/EditProductPage.tsx:95-131 | As written: once the store accepts, that product loses stored image index and main resets only when equal; a missing product or store error changes nothing |
| EditProduct.RemoveExistingImageLosesSelection | src/pages/EditProductPage.tsx:115-124 | Counterexample: removing an earlier stored image moves the selection to a different image |
| EditProduct.RemoveExistingImageFixed | src/pages/EditProductPage.tsx:95-131 | Corrected: the same store and list updates, with main moved by the shift rule |
| EditProduct.RemoveExistingImageFixedKeepsSelection | src/pages/EditProductPage.tsx:429-441 | With the corrected rule, removing any stored image but the selected one keeps the selection |
| EditProduct.ClearEdits | src/pages/EditProductPage.tsx:190-193 | The reset after a save empties that product's files, previews and draft and sets its main index to 0, leaving every other product's edits as they were |
| EditProduct.Update | src/pages/EditProductPage.tsx:147-200 | Save sends the draft with the stored images followed by the uploads in order and the thumbnail at the main index. It succeeds exactly when every upload and the update do; success applies that reset and any failure changes nothing |
| EditProduct.WithoutProduct | src/pages/EditProductPage.tsx:229 | A product is in the result exactly when it is listed and has another id |
| EditProduct.WithoutProductAppend | src/pages/EditProductPage.tsx:229 | Filtering a concatenation filters each part, so the kept products stay in their order |
| EditProduct.WithoutProductSingle | src/pages/EditProductPage.tsx:229 | A single product is dropped exactly when it carries the id |
| EditProduct.WithoutProductCounts | src/pages/EditProductPage.tsx:229 | Each product with another id is kept as many times as it occurs, and none with the id remains |
| EditProduct.Delete | src/pages/EditProductPage.tsx:202-234 | A confirmed, successful delete removes only that id; otherwise the list is unchanged |
| EditProduct.DeleteKeepsOrder | src/pages/EditProductPage.tsx:202-234 | A confirmed, successful delete keeps every other product as often as before and in its order, and drops every product with that id |
| EditProduct.DeleteAbsent | src/pages/EditProductPage.tsx:229 | Deleting an unlisted id leaves the list as it is |
| OrderDetail.ParseStatus | src/pages/OrderDetailPage.tsx:7 | A recognised status name reads back to the status it names |
| OrderDetail.StatusNamesRoundTrip | src/pages/OrderDetailPage.tsx:35 | The options are the five statuses, each once, and names and statuses convert both ways without loss |
| OrderDetail.FormatItem | src/pages/OrderDetailPage.tsx:94-101 | Formatting keeps id, product id, quantity and price, and turns a missing title or thumbnail into '' |
| OrderDetail.FormatItems | src/pages/OrderDetailPage.tsx:94-101 | Every fetched item is formatted, in order |
| OrderDetail.LineAmountsMatchCart | src/pages/OrderDetailPage.tsx:297 | A line amount, price times quantity, equals the cart line total of the entry the row came from |
| OrderDetail.ChangeShipping | src/pages/OrderDetailPage.tsx:135-141 | A shipping edit overwrites only the named field; every other field, country and phone included, is kept |
| OrderDetail.EditableFrom | src/pages/OrderDetailPage.tsx:112-113 | After a load the editable status and address are the order's own |
| OrderDetail.SavePayload | src/pages/OrderDetailPage.tsx:143-150 | Without an order nothing is sent; otherwise exactly the editable status and address are sent |
| OrderDetail.SaveAfterEdits | src/pages/OrderDetailPage.tsx:135-150 | A save after one field edit sends the loaded status and the address with only that field changed, the unshown country and phone as stored |
| OrderDetail.DeleteOrder | src/pages/OrderDetailPage.tsx:169-192 | A non-pending order is refused with the message and the store is not called; the store is called exactly for a confirmed pending order |
| OrderDetail.DeleteEnabled | src/pages/OrderDetailPage.tsx:314 | The delete button is enabled exactly for a pending order with no save running |
| OrderDetail.ButtonMatchesGuard | src/pages/OrderDetailPage.tsx:171-174 | An enabled button never meets the refusal, and a refused order has a disabled button |
| AdminOrders.Open | src/pages/AdminOrdersPage.tsx:45-56 | Non-admins see "Acceso denegado" and orders are fetched exactly for admins |
| AdminOrders.SetStatus | src/pages/AdminOrdersPage.tsx:87-91 | Only orders with that id get the new status; others are unchanged |
| AdminOrders.StatusChange | src/pages/AdminOrdersPage.tsx:82-96 | The choice is recorded for that order; the list changes too unless the call throws at once |
| AdminOrders.ShownStatus | src/pages/AdminOrdersPage.tsx:196 | The select shows the recorded status when non-empty, else the order's own |
| AdminOrders.StatusChangeShows | src/pages/AdminOrdersPage.tsx:83-91 | After a change that order's select shows the choice and other orders' rows and selects are unchanged |
| AdminOrders.CommentChange | src/pages/AdminOrdersPage.tsx:98-100 | Typing changes only that order's comment draft |
| AdminOrders.CommentSubmit | src/pages/AdminOrdersPage.tsx:102-117 | A missing or blank draft is rejected and nothing is sent; otherwise the draft goes with the recorded status or ''. Success empties only that draft; failure changes nothing |
| AdminOrders.SubmitTwiceRejected | src/pages/AdminOrdersPage.tsx:105-112 | After a successful submit the same order's draft is rejected, while other orders' drafts are sent as before |

## Left out

- Remote I/O (queries, inserts, storage uploads and deletes, auth) is not executed; each reply is a parameter. A refetch after a write (`fetchProducts`, `fetchOrder`) is not modelled.
- `updateOrderStatus` and `createOrderComment` are imported by the admin page, but `src/lib/orders.ts` does not define them, so their bodies are not part of this model. The status call is not awaited; its outcome is reduced to "throws at once or not".
- There is no anonymous localStorage wishlist and no login synchroniser in the code, so neither is modelled; only `syncWishlistToDatabase` is.
- `src/lib/wishilist.ts` is a superseded duplicate of `src/lib/wishlist.ts` without user scoping and is not modelled.
- Toasts, alerts, navigation, loading flags and `window.confirm` are not modelled; confirmation is a boolean parameter.
- Prices are exact reals, so IEEE rounding, `NaN` from `parseFloat`/`parseInt` and `Intl.NumberFormat` formatting are not modelled.
- `toLowerCase` and `trim` are ASCII-only in `Text`, because Unicode case mapping and the full whitespace set cannot be stated without tables.
- `Date` parsing (newest/oldest) and `localeCompare` (relevance) are key parameters of the sort.
- Search.SortByKey: proves sorted order and permutation but not stability. It is a stable insertion sort, while the source relies on `Array.prototype.sort`, whose stability is not stated here.
- FileReader previews arrive asynchronously in the source. The model takes them as given together with their files.
- The create page's `handleInputChange` and the checkout page's shipping input handler only set one form field by its input name. The model takes the form as already filled.
- The admin-only redirects of the create and edit pages are navigation and are not modelled. The admin orders page's guard is modelled.
- EditProduct.Delete: a failure while deleting one of the product's storage images and a failure of the row delete are one error parameter. Images deleted before the failure are not tracked.
- The edit page's open/close toggle (`editingProduct`) and its list thumbnail fallback are rendering and are not modelled.

## Findings

| source | as written | input that shows it | evidently intended | confidence | as-written member | corrected member |
|---|---|---|---|---|---|---|
| src/pages/EditProductPage.tsx:83-92 | `handleRemoveImage` compares main with the preview-local index, but selecting a preview records the combined index `existing + idx` (:486) | stored [a, b] with b as main (index 1), previews [x, y]; removing y (preview index 1) resets main to 0, so a becomes main | compare and shift on the combined index `existing + index`, as the create page does | not executed | EditProduct.RemoveNewImageLosesSelection | EditProduct.RemoveNewImageFixedKeepsSelection |
| src/pages/EditProductPage.tsx:115-124 | when main is after the removed index, main is left as it is (the `currentMainIndex > index` branch returns `prev`), so it now names the next image | stored [a, b, c] with c as main (index 2), one preview x; removing a keeps main at 2, which now names x | step main back by one, as the create page does at src/pages/CreateProductPage.tsx:146 | not executed | EditProduct.RemoveExistingImageLosesSelection | EditProduct.RemoveExistingImageFixedKeepsSelection |
