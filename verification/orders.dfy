/** `createOrder` of src/lib/orders.ts against an abstract order store: check
    the session, insert the order row, then insert one order-item row per cart
    entry. The backend's replies are inputs, the store is a plain value. */
module Orders {
  import opened Wrappers
  import opened Catalog
  import opened Cart

  datatype ShippingAddress = ShippingAddress(
    fullName: string, address: string, city: string, state: string,
    zipCode: string, country: string, phone: string)

  datatype OrderRow = OrderRow(id: string, userId: string, total: real, shippingAddress: ShippingAddress)

  datatype OrderItemRow = OrderItemRow(orderId: string, productId: string, quantity: int, price: real)

  /** The `orders` and `order_items` tables. */
  datatype OrderStore = OrderStore(orders: seq<OrderRow>, orderItems: seq<OrderItemRow>)

  /** What the backend answers to the three calls `createOrder` makes: the
      signed-in user (None for an auth error or no session), the new order's id
      or the insert's error message, and the item insert's error message if any. */
  datatype Backend = Backend(
    user: Option<string>,
    orderInsert: Result<string>,
    itemsInsertError: Option<string>)

  datatype CreateOutcome = CreateOutcome(result: Result<OrderRow>, store: OrderStore)

  const NotAuthenticated := "User not authenticated"

  /** The order-item rows built from the cart entries for order `orderId`. */
  function ItemRows(orderId: string, items: seq<CartItem>): (rows: seq<OrderItemRow>)
    ensures |rows| == |items|
    ensures forall k :: 0 <= k < |items| ==>
      && rows[k].orderId == orderId
      && rows[k].productId == items[k].product.id
      && rows[k].quantity == items[k].quantity
      && rows[k].price == EffectivePrice(items[k].product)
  {
    seq(|items|, k requires 0 <= k < |items| =>
      OrderItemRow(orderId, items[k].product.id, items[k].quantity,
        if items[k].product.discountPercentage.Some? && items[k].product.discountPercentage.value != 0.0
        then items[k].product.price * (1.0 - items[k].product.discountPercentage.value / 100.0)
        else items[k].product.price))
  }

  /** Amount represented by a list of order-item rows. */
  function RowsAmount(rows: seq<OrderItemRow>): real {
    if |rows| == 0 then 0.0 else RowsAmount(rows[..|rows| - 1]) + rows[|rows| - 1].price * rows[|rows| - 1].quantity as real
  }

  /** The stored order items add up to exactly the cart's total. */
  lemma {:induction false} ItemRowsAmountIsCartTotal(orderId: string, items: seq<CartItem>)
    ensures RowsAmount(ItemRows(orderId, items)) == Total(items)
    decreases |items|
  {
    if |items| > 0 {
      var n := |items|;
      var rows := ItemRows(orderId, items);
      assert rows[..n - 1] == ItemRows(orderId, items[..n - 1]);
      ItemRowsAmountIsCartTotal(orderId, items[..n - 1]);
    }
  }

  /** `createOrder`: one order row, then one item row per cart entry. */
  function CreateOrder(items: seq<CartItem>, address: ShippingAddress, total: real,
                       backend: Backend, store: OrderStore): (out: CreateOutcome)
    // no session: refused before anything is written
    ensures backend.user.None? ==> out.result == Failure(NotAuthenticated) && out.store == store
    // the order insert failed: nothing is written, not even item rows
    ensures backend.user.Some? && backend.orderInsert.Failure? ==>
      out.result == Failure("Error creating order: " + backend.orderInsert.error) && out.store == store
    // the order row is written as soon as its insert succeeds
    ensures backend.user.Some? && backend.orderInsert.Success? ==>
      var order := OrderRow(backend.orderInsert.value, backend.user.value, total, address);
      && out.store.orders == store.orders + [order]
      && (backend.itemsInsertError.None? ==>
            out.result == Success(order)
            && out.store.orderItems == store.orderItems + ItemRows(order.id, items))
      // the item insert failed: error raised, order row kept, no rollback
      && (backend.itemsInsertError.Some? ==>
            out.result == Failure("Error creating order items: " + backend.itemsInsertError.value)
            && out.store.orderItems == store.orderItems)
    ensures out.result.Success? <==> backend.user.Some? && backend.orderInsert.Success? && backend.itemsInsertError.None?
  {
    if backend.user.None? then
      CreateOutcome(Failure(NotAuthenticated), store)
    else if backend.orderInsert.Failure? then
      CreateOutcome(Failure("Error creating order: " + backend.orderInsert.error), store)
    else
      var order := OrderRow(backend.orderInsert.value, backend.user.value, total, address);
      var withOrder := store.(orders := store.orders + [order]);
      if backend.itemsInsertError.Some? then
        CreateOutcome(Failure("Error creating order items: " + backend.itemsInsertError.value), withOrder)
      else
        CreateOutcome(Success(order), withOrder.(orderItems := store.orderItems + ItemRows(order.id, items)))
  }
}
