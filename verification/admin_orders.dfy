/** src/pages/AdminOrdersPage.tsx: the admin guard, the per-order status and
    comment drafts, the optimistic status change and the comment submit.

    `updateOrderStatus` and `createOrderComment` are called but their bodies
    are not part of this model: the status call is not awaited, so only a
    synchronous throw can reach the handler, and the comment call's outcome is
    an input. */
module AdminOrders {
  import opened Wrappers
  import opened Text

  /** An order as the list shows it; only the fields the handlers touch. */
  datatype AdminOrder = AdminOrder(id: string, status: string, total: real)

  datatype PageState = PageState(
    orders: seq<AdminOrder>,
    statuses: map<string, string>,
    comments: map<string, string>)

  // ---------------------------------------------------------------------------
  // Admin guard

  const AdminRole := "admin"
  const DeniedMessage := "Acceso denegado"
  const LoadErrorMessage := "Error al cargar los pedidos"

  datatype View = Denied(message: string) | LoadError(message: string) | OrderList(orders: seq<AdminOrder>)

  datatype Page = Page(view: View, fetched: bool)

  /** Opening the page: a non-admin gets the denial and the orders are never
      requested; an admin sees the fetched orders or the load error. */
  function Open(role: string, fetch: Result<seq<AdminOrder>>): (p: Page)
    ensures p.fetched <==> role == AdminRole
    ensures role != AdminRole ==> p.view == Denied(DeniedMessage)
    ensures role == AdminRole && fetch.Success? ==> p.view == OrderList(fetch.value)
    ensures role == AdminRole && fetch.Failure? ==> p.view == LoadError(LoadErrorMessage)
  {
    if role != AdminRole then Page(Denied(DeniedMessage), false)
    else if fetch.Failure? then Page(LoadError(LoadErrorMessage), true)
    else Page(OrderList(fetch.value), true)
  }

  // ---------------------------------------------------------------------------
  // Status

  /** Every order with that id takes the new status; the others are kept as
      they are, in their places. */
  function SetStatus(orders: seq<AdminOrder>, id: string, status: string): (r: seq<AdminOrder>)
    ensures |r| == |orders|
    ensures forall k :: 0 <= k < |orders| && orders[k].id != id ==> r[k] == orders[k]
    ensures forall k :: 0 <= k < |orders| && orders[k].id == id ==> r[k] == orders[k].(status := status)
  {
    seq(|orders|, k requires 0 <= k < |orders| =>
      if orders[k].id == id then orders[k].(status := status) else orders[k])
  }

  /** `handleStatusChange`: the selection is recorded for that order; unless
      the store call throws at once, that order's status in the list changes
      too, without waiting for the store. */
  function StatusChange(st: PageState, id: string, status: string, throws: bool): (r: PageState)
    ensures r.statuses == st.statuses[id := status] && r.comments == st.comments
    ensures throws ==> r.orders == st.orders
    ensures !throws ==> r.orders == SetStatus(st.orders, id, status)
  {
    var recorded := st.(statuses := st.statuses[id := status]);
    if throws then recorded else recorded.(orders := SetStatus(st.orders, id, status))
  }

  /** The value a row's status select shows: the status recorded for that
      order when there is a non-empty one, else the order's own status. */
  function ShownStatus(st: PageState, o: AdminOrder): (r: string)
    ensures o.id in st.statuses && st.statuses[o.id] != "" ==> r == st.statuses[o.id]
    ensures !(o.id in st.statuses && st.statuses[o.id] != "") ==> r == o.status
  {
    if o.id in st.statuses && st.statuses[o.id] != "" then st.statuses[o.id] else o.status
  }

  /** After a status change the select of that order shows the chosen status,
      even when the store call threw (for a non-empty choice), and every other
      order's row and select are as they were. */
  lemma StatusChangeShows(st: PageState, id: string, status: string, throws: bool, k: int)
    requires 0 <= k < |st.orders|
    ensures var r := StatusChange(st, id, status, throws);
      && (st.orders[k].id == id && (!throws || status != "") ==> ShownStatus(r, r.orders[k]) == status)
      && (st.orders[k].id != id ==> r.orders[k] == st.orders[k] && ShownStatus(r, r.orders[k]) == ShownStatus(st, st.orders[k]))
  {
  }

  // ---------------------------------------------------------------------------
  // Comments

  /** `handleCommentChange`: the draft of that order takes the typed value. */
  function CommentChange(st: PageState, id: string, value: string): (r: PageState)
    ensures r.orders == st.orders && r.statuses == st.statuses
    ensures id in r.comments && r.comments[id] == value
    ensures forall other :: other != id ==> (other in r.comments <==> other in st.comments)
    ensures forall other :: other != id && other in st.comments ==> r.comments[other] == st.comments[other]
  {
    st.(comments := st.comments[id := value])
  }

  /** The arguments of one `createOrderComment` call. */
  datatype CommentCall = CommentCall(orderId: string, comment: string, userId: Option<string>, status: string)

  const EmptyCommentAlert := "El comentario no puede estar vacío."
  const SavedAlert := "Comentario guardado exitosamente."
  const SaveErrorAlert := "Error guardando el comentario."

  datatype CommentOutcome = CommentOutcome(call: Option<CommentCall>, alert: string, state: PageState)

  /** `handleCommentSubmit`: a missing, empty or whitespace-only draft is
      rejected and nothing is sent. Otherwise the draft is sent with the
      recorded status (or `''`); on success only that order's draft is
      emptied, on failure nothing changes. */
  function CommentSubmit(st: PageState, id: string, userId: Option<string>, callFails: bool): (r: CommentOutcome)
    ensures r.call.None? <==> (id !in st.comments || IsBlank(st.comments[id]))
    ensures r.call.None? ==> r.alert == EmptyCommentAlert && r.state == st
    ensures r.call.Some? ==> r.call.value == CommentCall(id, st.comments[id], userId,
                                if id in st.statuses then st.statuses[id] else "")
    ensures r.call.Some? && callFails ==> r.alert == SaveErrorAlert && r.state == st
    ensures r.call.Some? && !callFails ==>
      && r.alert == SavedAlert
      && r.state == st.(comments := st.comments[id := ""])
  {
    if id !in st.comments || IsBlank(st.comments[id]) then
      CommentOutcome(None, EmptyCommentAlert, st)
    else
      var status := if id in st.statuses && st.statuses[id] != "" then st.statuses[id] else "";
      var call := CommentCall(id, st.comments[id], userId, status);
      if callFails then CommentOutcome(Some(call), SaveErrorAlert, st)
      else CommentOutcome(Some(call), SavedAlert, st.(comments := st.comments[id := ""]))
  }

  /** A successful comment submit empties only that order's draft, so a second
      submit of the same order is rejected until something is typed again,
      while the other orders' drafts can still be sent. */
  lemma SubmitTwiceRejected(st: PageState, id: string, other: string, userId: Option<string>)
    requires id in st.comments && !IsBlank(st.comments[id]) && other != id
    ensures var once := CommentSubmit(st, id, userId, false).state;
      && CommentSubmit(once, id, userId, false).call.None?
      && CommentSubmit(once, other, userId, false).call == CommentSubmit(st, other, userId, false).call
  {
    var once := CommentSubmit(st, id, userId, false).state;
    assert once.comments[id] == "";
    assert IsBlank(once.comments[id]);
  }
}
