/** src/pages/OrderDetailPage.tsx: the loaded order with its formatted items,
    the editable status and shipping address, the save payload and the
    pending-only delete. */
module OrderDetail {
  import opened Wrappers
  import opened Catalog
  import Cart
  import Orders

  // ---------------------------------------------------------------------------
  // Status

  datatype Status = Pending | Processing | Shipped | Delivered | Cancelled

  /** The status as stored. */
  function Name(s: Status): string {
    match s
    case Pending => "pending"
    case Processing => "processing"
    case Shipped => "shipped"
    case Delivered => "delivered"
    case Cancelled => "cancelled"
  }

  /** `statusOptions`, in the page's order. */
  const StatusOptions: seq<Status> := [Pending, Processing, Shipped, Delivered, Cancelled]

  /** Reading a stored status: one of the five names, or nothing. */
  function ParseStatus(name: string): (r: Option<Status>)
    ensures r.Some? ==> Name(r.value) == name
  {
    if name == "pending" then Some(Pending)
    else if name == "processing" then Some(Processing)
    else if name == "shipped" then Some(Shipped)
    else if name == "delivered" then Some(Delivered)
    else if name == "cancelled" then Some(Cancelled)
    else None
  }

  /** The five options are exactly the statuses, each once, and names and
      statuses convert into each other without loss. */
  lemma StatusNamesRoundTrip(s: Status, name: string)
    ensures s in StatusOptions
    ensures forall i, j :: 0 <= i < j < |StatusOptions| ==> StatusOptions[i] != StatusOptions[j]
    ensures ParseStatus(Name(s)) == Some(s)
    ensures ParseStatus(name).Some? <==> exists t :: t in StatusOptions && Name(t) == name
  {
    if ParseStatus(name).None? {
      forall t | t in StatusOptions ensures Name(t) != name {
      }
    } else {
      assert ParseStatus(name).value in StatusOptions;
    }
  }

  // ---------------------------------------------------------------------------
  // The order

  /** The stored address is the seven-field object written at checkout; the
      page's own interface names only five of its fields, but the object it
      loads, edits and saves back carries all seven. */
  type Address = Orders.ShippingAddress

  /** The joined product of an item row; each column may be null. */
  datatype JoinedProduct = JoinedProduct(title: Option<string>, thumbnail: Option<string>)

  /** An `order_items` row as the query returns it. */
  datatype RawItem = RawItem(id: string, productId: string, quantity: int, price: real, product: Option<JoinedProduct>)

  /** An item as the page keeps it. */
  datatype Item = Item(id: string, productId: string, productTitle: string, productThumbnail: string,
                       quantity: int, price: real)

  datatype Order = Order(id: string, createdAt: string, total: real, status: Status, shipping: Address,
                         items: seq<Item>)

  /** A nullable text column read as text: a null becomes the empty string. */
  function TextOrEmpty(v: Option<string>): string {
    if v.Some? then v.value else ""
  }

  /** The formatting map of the fetch: the row's columns are kept and a missing
      product, title or thumbnail becomes the empty string. */
  function FormatItem(raw: RawItem): (r: Item)
    ensures r.id == raw.id && r.productId == raw.productId
    ensures r.quantity == raw.quantity && r.price == raw.price
    ensures raw.product.None? ==> r.productTitle == "" && r.productThumbnail == ""
    ensures raw.product.Some? ==> r.productTitle == TextOrEmpty(raw.product.value.title)
    ensures raw.product.Some? ==> r.productThumbnail == TextOrEmpty(raw.product.value.thumbnail)
  {
    var title := if raw.product.Some? then TextOrEmpty(raw.product.value.title) else "";
    var thumbnail := if raw.product.Some? then TextOrEmpty(raw.product.value.thumbnail) else "";
    Item(raw.id, raw.productId, title, thumbnail, raw.quantity, raw.price)
  }

  function FormatItems(raws: seq<RawItem>): (r: seq<Item>)
    ensures |r| == |raws|
    ensures forall k :: 0 <= k < |raws| ==> r[k] == FormatItem(raws[k])
  {
    seq(|raws|, k requires 0 <= k < |raws| => FormatItem(raws[k]))
  }

  /** The amount printed on each item line: unit price times quantity. */
  function LineAmount(item: Item): real {
    item.price * item.quantity as real
  }

  /** The item rows created at checkout print, line by line, the same amounts
      as the cart they came from: the stored unit price is the effective one. */
  lemma LineAmountsMatchCart(items: seq<Cart.CartItem>, orderId: string, raws: seq<RawItem>)
    requires |raws| == |items|
    requires forall k :: 0 <= k < |raws| ==>
      var row := Orders.ItemRows(orderId, items)[k];
      raws[k].productId == row.productId && raws[k].quantity == row.quantity && raws[k].price == row.price
    ensures forall k :: 0 <= k < |items| ==> LineAmount(FormatItems(raws)[k]) == Cart.LineTotal(items[k])
  {
    var rows := Orders.ItemRows(orderId, items);
    forall k | 0 <= k < |items| ensures LineAmount(FormatItems(raws)[k]) == Cart.LineTotal(items[k]) {
      assert rows[k].price == EffectivePrice(items[k].product);
      assert rows[k].quantity == items[k].quantity;
    }
  }

  // ---------------------------------------------------------------------------
  // Editing

  datatype AddressField = FullName | Street | City | State | ZipCode

  function Get(a: Address, f: AddressField): string {
    match f
    case FullName => a.fullName
    case Street => a.address
    case City => a.city
    case State => a.state
    case ZipCode => a.zipCode
  }

  /** `handleChangeShipping`: the input named by `f` takes the typed value;
      the rest of the stored object, country and phone included, is copied. */
  function ChangeShipping(a: Address, f: AddressField, value: string): (r: Address)
    ensures Get(r, f) == value
    ensures forall g :: g != f ==> Get(r, g) == Get(a, g)
    ensures r.country == a.country && r.phone == a.phone
  {
    match f
    case FullName => a.(fullName := value)
    case Street => a.(address := value)
    case City => a.(city := value)
    case State => a.(state := value)
    case ZipCode => a.(zipCode := value)
  }

  /** The edit form: the status (`''` before the order loads) and the address. */
  datatype Editable = Editable(status: Option<Status>, shipping: Address)

  /** The editable state right after a load: the order's own status and address. */
  function EditableFrom(o: Order): (e: Editable)
    ensures e.status == Some(o.status) && e.shipping == o.shipping
  {
    Editable(Some(o.status), o.shipping)
  }

  datatype Updates = Updates(status: Option<Status>, shipping: Address)

  /** `handleSaveChanges`: without an order nothing is sent; otherwise the
      update carries exactly the editable status and address. */
  function SavePayload(order: Option<Order>, e: Editable): (r: Option<Updates>)
    ensures order.None? <==> r.None?
    ensures r.Some? ==> r.value.status == e.status && r.value.shipping == e.shipping
  {
    if order.None? then None else Some(Updates(e.status, e.shipping))
  }

  /** Saving straight after loading, with one field edited, sends the loaded
      status and the address with exactly that field changed; the country and
      phone the page never shows go back as they were stored. */
  lemma SaveAfterEdits(o: Order, f: AddressField, value: string)
    ensures var e := EditableFrom(o);
      var sent := SavePayload(Some(o), e.(shipping := ChangeShipping(e.shipping, f, value))).value;
      && sent.status == Some(o.status)
      && Get(sent.shipping, f) == value
      && (forall g :: g != f ==> Get(sent.shipping, g) == Get(o.shipping, g))
      && sent.shipping.country == o.shipping.country && sent.shipping.phone == o.shipping.phone
  {
  }

  // ---------------------------------------------------------------------------
  // Deleting

  const NotPendingMessage := "Solo se puede eliminar un pedido en estado \"pendiente\"."
  const DeleteFailedMessage := "Error eliminando el pedido."

  datatype DeleteOutcome =
    | NoOrder
    | Refused(message: string)
    | NotConfirmed
    | Deleted
    | DeleteFailed(message: string)

  /** Whether the outcome involved a call to the store. */
  predicate CalledStore(d: DeleteOutcome) {
    d.Deleted? || d.DeleteFailed?
  }

  /** `handleDeleteOrder`: only a pending order can be deleted; otherwise an
      error is shown and the store is not called. A pending order is deleted
      after confirmation, unless the store reports an error. */
  function DeleteOrder(order: Option<Order>, confirmed: bool, storeError: Option<string>): (r: DeleteOutcome)
    ensures order.Some? && order.value.status != Pending ==> r == Refused(NotPendingMessage)
    ensures CalledStore(r) <==> order.Some? && order.value.status == Pending && confirmed
    ensures r.Deleted? <==> order.Some? && order.value.status == Pending && confirmed && storeError.None?
    ensures r.DeleteFailed? ==> r.message == DeleteFailedMessage
  {
    if order.None? then NoOrder
    else if order.value.status != Pending then Refused(NotPendingMessage)
    else if !confirmed then NotConfirmed
    else if storeError.Some? then DeleteFailed(DeleteFailedMessage)
    else Deleted
  }

  /** The delete button: disabled unless the order is pending and no save is running. */
  function DeleteEnabled(o: Order, saving: bool): (r: bool)
    ensures r <==> o.status == Pending && !saving
  {
    o.status == Pending && !saving
  }

  /** The button and the handler agree: an enabled button never leads to the
      refusal, and an order the handler refuses has a disabled button. */
  lemma ButtonMatchesGuard(o: Order, saving: bool, confirmed: bool, storeError: Option<string>)
    ensures DeleteEnabled(o, saving) ==> !DeleteOrder(Some(o), confirmed, storeError).Refused?
    ensures DeleteOrder(Some(o), confirmed, storeError).Refused? ==> !DeleteEnabled(o, saving)
  {
  }
}
