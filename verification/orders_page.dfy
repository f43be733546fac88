/** The orders page: the status filter over the loaded list, the create form,
    and the status buttons, which after completing an order also record a
    transaction for it. Requests go to the server model with the session's
    header. */
module OrdersPage {
  import opened Http
  import opened Seqs
  import opened ObjectIds
  import opened Models
  import opened Schemas
  import opened AuthGate
  import opened ClientSession
  import opened Routes
  import OrderLedger
  import TransactionLedger

  /** The predicate behind the filter: an empty filter keeps everything. */
  predicate Shown(o: Order, statusFilter: string) {
    statusFilter == "" || StatusName(o.status) == statusFilter
  }

  /** The orders shown under the status filter, in loaded order. */
  function Filtered(orders: seq<Order>, statusFilter: string): (r: seq<Order>)
    ensures statusFilter == "" ==> r == orders
    ensures forall o :: o in r <==> o in orders && (statusFilter == "" || StatusName(o.status) == statusFilter)
  {
    FilterKeepsAll(orders, (o: Order) => Shown(o, statusFilter));
    Filter(orders, (o: Order) => Shown(o, statusFilter))
  }

  /** The filter keeps relative order: filtering a concatenation is
      concatenating the filtered parts. */
  lemma FilteredKeepsOrder(a: seq<Order>, b: seq<Order>, statusFilter: string)
    ensures Filtered(a + b, statusFilter) == Filtered(a, statusFilter) + Filtered(b, statusFilter)
  {
    FilterAppend(a, b, (o: Order) => Shown(o, statusFilter));
  }

  /** The query the page loads with: the filter, or no status when empty. */
  function LoadQuery(statusFilter: string): ListOrdersQuery {
    ListOrdersQuery(if statusFilter == "" then None else Some(statusFilter))
  }

  /** The page's load: the list with the status filter as the query. A
      filter that names no status is refused by the schema; a loaded list
      holds only orders the filter shows. */
  function Load(s: Server, env: Env, token: Option<string>, statusFilter: string): (r: Reply<seq<Order>>)
    ensures Authenticate(AuthHeader(token), env.crypto.verify).Fail? ==>
              r == Fail(Authenticate(AuthHeader(token), env.crypto.verify).failure)
    ensures Authenticate(AuthHeader(token), env.crypto.verify).Ok? && statusFilter != "" && ParseStatus(statusFilter).None? ==>
              r == Fail(ValidationFailed)
    ensures r.Ok? ==> forall o :: o in r.value ==> Shown(o, statusFilter)
  {
    GetOrders(s, env, AuthHeader(token), LoadQuery(statusFilter))
  }

  /** The page loads with the server already filtering by the same status, so
      the client-side filter leaves a loaded list unchanged. */
  lemma FilterAfterLoadIsIdentity(s: Server, env: Env, token: Option<string>, statusFilter: string)
    requires Load(s, env, token, statusFilter).Ok?
    ensures Filtered(Load(s, env, token, statusFilter).value, statusFilter) == Load(s, env, token, statusFilter).value
  {
    var loaded := Load(s, env, token, statusFilter).value;
    if statusFilter != "" {
      var q := LoadQuery(statusFilter);
      assert ListOrdersValid(q);
      var st := ParseStatus(statusFilter).value;
      assert QueryStatus(q) == Some(st);
      forall o | o in loaded ensures Shown(o, statusFilter) {
        assert o.status == st;
      }
      FilterKeepsAll(loaded, (o: Order) => Shown(o, statusFilter));
    }
  }

  /** The request the create form sends: one sample item of quantity one
      priced at the whole amount. */
  function OrderRequest(orderId: string, totalAmount: int): (b: CreateOrderBody)
    ensures b.orderId == orderId && b.totalAmount == totalAmount
    ensures |b.items| == 1 && b.items[0].quantity == 1 && b.items[0].price == totalAmount
    ensures ItemsTotal(b.items) == b.totalAmount
    ensures CreateOrderValid(b) <==> orderId != "" && totalAmount >= 0
  {
    var b := CreateOrderBody(orderId, [Item("sku-1", "Sample", 1, totalAmount)], totalAmount);
    assert ItemsTotal(b.items) == totalAmount + ItemsTotal([]);
    assert ItemValid(b.items[0]) <==> totalAmount >= 0;
    b
  }

  /** The toast after submitting the create form. */
  function CreateToast(orderId: string, reply: Reply<Order>): (t: Toast)
    ensures t.success <==> reply.Ok?
    ensures reply.Ok? ==> t.message == "Order " + orderId + " created"
    ensures reply.Fail? && StatusCode(reply.failure) == Some(409) ==>
              t.message == "Order ID \"" + orderId + "\" already exists"
    ensures reply.Fail? && StatusCode(reply.failure) != Some(409) ==>
              t.message == ErrorText(reply.failure, "Failed to create order")
    ensures reply.Fail? && StatusCode(reply.failure) != Some(409) && ErrorMessage(reply.failure).None? ==>
              t.message == "Failed to create order"
  {
    match reply
    case Ok(_) => Toast(true, "Order " + orderId + " created")
    case Fail(f) =>
      if StatusCode(f) == Some(409) then Toast(false, "Order ID \"" + orderId + "\" already exists")
      else Toast(false, ErrorText(f, "Failed to create order"))
  }

  /** Submitting the create form: the toast, and on success a reload of the
      list under the current filter. `freshId` is the id the store would
      assign. */
  function SubmitOrder(s: Server, env: Env, token: Option<string>, statusFilter: string, orderId: string,
                       totalAmount: int, freshId: string)
    : (res: (Server, Toast, Option<Reply<seq<Order>>>))
    ensures res.1 == CreateToast(orderId, PostOrder(s, env, AuthHeader(token), OrderRequest(orderId, totalAmount), freshId).reply)
    ensures res.1.success <==> |res.0.orders| == |s.orders| + 1
    ensures !res.1.success ==> res.0 == s && res.2.None?
    ensures res.1.success ==>
              && res.0.ledger == s.ledger && res.0.users == s.users
              && res.0.orders == s.orders + [res.0.orders[|s.orders|]]
              && var o := res.0.orders[|s.orders|];
              && o.id == freshId && o.orderId == orderId && o.status == Pending
              && o.items == [Item("sku-1", "Sample", 1, totalAmount)] && o.totalAmount == totalAmount
              && res.2 == Some(Load(res.0, env, token, statusFilter))
  {
    var st := PostOrder(s, env, AuthHeader(token), OrderRequest(orderId, totalAmount), freshId);
    var toast := CreateToast(orderId, st.reply);
    if st.reply.Ok? then (st.state, toast, Some(Load(st.state, env, token, statusFilter)))
    else (st.state, toast, None)
  }

  /** Creating an order from the form succeeds exactly when the caller is
      signed in with a castable user id, the id is non-empty and unused, and
      the total is non-negative; success is announced as created. */
  lemma SubmitOrderSucceedsExactly(s: Server, env: Env, token: Option<string>, statusFilter: string, orderId: string,
                                   totalAmount: int, freshId: string)
    ensures var res := SubmitOrder(s, env, token, statusFilter, orderId, totalAmount, freshId);
            var who := Authenticate(AuthHeader(token), env.crypto.verify);
            && (res.1.success <==>
                  who.Ok? && IsIdText(who.value.userId) && orderId != "" && totalAmount >= 0
                  && !OrderLedger.OrderIdTaken(s.orders, orderId))
            && (res.1.success ==> res.1.message == "Order " + orderId + " created")
  {
    var b := OrderRequest(orderId, totalAmount);
    assert totalAmount >= 0 ==> ItemAccepted(b.items[0]);
    assert (forall k :: 0 <= k < |b.items| ==> ItemAccepted(b.items[k])) <==> totalAmount >= 0 by {
      assert |b.items| == 1;
    }
  }

  /** Re-using an order id already in the store is reported as "already
      exists" for that id, and the store is unchanged. */
  lemma DuplicateOrderIdToast(s: Server, env: Env, token: Option<string>, statusFilter: string, orderId: string,
                              totalAmount: int, freshId: string)
    requires Authenticate(AuthHeader(token), env.crypto.verify).Ok?
    requires orderId != "" && totalAmount >= 0
    requires OrderLedger.OrderIdTaken(s.orders, orderId)
    ensures SubmitOrder(s, env, token, statusFilter, orderId, totalAmount, freshId)
            == (s, Toast(false, "Order ID \"" + orderId + "\" already exists"), None)
  {
  }

  /** The first local order with the given system id. */
  function FindLocal(orders: seq<Order>, id: string): (r: Option<Order>)
    ensures r.Some? ==> r.value in orders && r.value.id == id
    ensures r.None? <==> forall o :: o in orders ==> o.id != id
  {
    if |orders| == 0 then None
    else if orders[0].id == id then Some(orders[0])
    else FindLocal(orders[1..], id)
  }

  /** What the status button ends with: the patch was refused (the error
      propagates and nothing is reloaded), or the list was reloaded. */
  datatype UpdateOutcome = PatchRefused(failure: Failure) | Reloaded(list: Reply<seq<Order>>)

  /** The status button: patch first; after a successful patch to Completed
      of an order in the local list, post a transaction for it and ignore how
      that post ends; then reload. `stamp`, `timestamp` and `freshId` stand for
      the clock reading in the transaction id, the current time and the
      store's new id. */
  function UpdateStatus(s: Server, env: Env, token: Option<string>, statusFilter: string, local: seq<Order>,
                        id: string, status: Status, stamp: string, timestamp: string, freshId: string)
    : (res: (Server, UpdateOutcome))
    ensures res.1.PatchRefused? ==> res.0 == s
    ensures res.1.Reloaded? ==> res.1.list == Load(res.0, env, token, statusFilter)
    ensures res.0.users == s.users
    ensures |res.0.ledger.txs| == |s.ledger.txs| || |res.0.ledger.txs| == |s.ledger.txs| + 1
  {
    var header := AuthHeader(token);
    var p := PatchOrderById(s, env, header, id, PatchOrderBody(StatusName(status)));
    if p.reply.Fail? then (p.state, PatchRefused(p.reply.failure))
    else
      var after :=
        if status == Completed && FindLocal(local, id).Some? then
          PostTransaction(p.state, env, header, CardPayment(FindLocal(local, id).value, stamp, timestamp), freshId).state
        else p.state;
      (after, Reloaded(Load(after, env, token, statusFilter)))
  }

  /** The status button's effects on the store. A refused patch changes
      nothing and posts nothing. Otherwise the patch is applied, at most one
      transaction and one event are added, and one is added only for a
      completion of a locally listed order, referring to that order with its
      local total; the list is then reloaded whether or not the post
      succeeded. */
  lemma UpdateStatusEffects(s: Server, env: Env, token: Option<string>, statusFilter: string, local: seq<Order>,
                            id: string, status: Status, stamp: string, timestamp: string, freshId: string)
    ensures var (s', out) := UpdateStatus(s, env, token, statusFilter, local, id, status, stamp, timestamp, freshId);
            var p := PatchOrderById(s, env, AuthHeader(token), id, PatchOrderBody(StatusName(status)));
            && (p.reply.Fail? ==> s' == s && out == PatchRefused(p.reply.failure))
            && (p.reply.Ok? ==>
                  && s'.orders == p.state.orders
                  && out == Reloaded(Load(s', env, token, statusFilter))
                  && p.reply.value.status == status
                  && (status == Completed && FindLocal(local, id).Some? ==>
                        s'.ledger == PostTransaction(p.state, env, AuthHeader(token),
                                                     CardPayment(FindLocal(local, id).value, stamp, timestamp),
                                                     freshId).state.ledger)
                  && (!(status == Completed && FindLocal(local, id).Some?) ==> s' == p.state)
                  && (|s'.ledger.txs| == |s.ledger.txs| || |s'.ledger.txs| == |s.ledger.txs| + 1)
                  && |s'.ledger.log| - |s.ledger.log| == |s'.ledger.txs| - |s.ledger.txs|
                  && (|s'.ledger.txs| == |s.ledger.txs| + 1 ==>
                        && status == Completed
                        && FindLocal(local, id).Some?
                        && var t := s'.ledger.txs[|s.ledger.txs|];
                        && s'.ledger.txs == s.ledger.txs + [t]
                        && t.orderId == Cast(id).value
                        && t.amount == FindLocal(local, id).value.totalAmount
                        && t.paymentMethod == "card"
                        && t.transactionId == "TX-" + stamp))
  {
    var header := AuthHeader(token);
    var p := PatchOrderById(s, env, header, id, PatchOrderBody(StatusName(status)));
    if p.reply.Ok? {
      NamesRoundTrip(Customer, status);
    }
  }

  /** Completing a listed order does record its payment: when the caller may
      patch the stored order (admin or owner), the transaction id is unused
      and the time parses, the store gains exactly one transaction, for that
      order, with the locally listed total, by card, and the order is stored
      Completed. */
  lemma UpdateStatusPostsPayment(s: Server, env: Env, token: Option<string>, statusFilter: string, local: seq<Order>,
                                 id: string, stamp: string, timestamp: string, freshId: string)
    requires Authenticate(AuthHeader(token), env.crypto.verify).Ok?
    requires IsCanonical(id) && OrderLedger.IndexOfId(s.orders, id).Some?
    requires var who := Authenticate(AuthHeader(token), env.crypto.verify).value;
             who.role == Admin || s.orders[OrderLedger.IndexOfId(s.orders, id).value].userId == who.userId
    requires FindLocal(local, id).Some? && FindLocal(local, id).value.totalAmount >= 0
    requires !TransactionLedger.TransactionIdTaken(s.ledger.txs, "TX-" + stamp)
    requires env.parseDate(timestamp).Some?
    ensures var (s', out) := UpdateStatus(s, env, token, statusFilter, local, id, Completed, stamp, timestamp, freshId);
            && out == Reloaded(Load(s', env, token, statusFilter))
            && s'.orders[OrderLedger.IndexOfId(s.orders, id).value].status == Completed
            && |s'.ledger.txs| == |s.ledger.txs| + 1
            && var t := s'.ledger.txs[|s.ledger.txs|];
            && s'.ledger.txs == s.ledger.txs + [t]
            && t.orderId == id && t.amount == FindLocal(local, id).value.totalAmount
            && t.paymentMethod == "card" && t.transactionId == "TX-" + stamp
  {
    var h := AuthHeader(token);
    var i := OrderLedger.IndexOfId(s.orders, id).value;
    assert Cast(id) == Some(id);
    assert PatchOrderValid(id, PatchOrderBody("Completed"));
    var p := PatchOrderById(s, env, h, id, PatchOrderBody(StatusName(Completed)));
    assert p.reply.Ok?;
    var body := CardPayment(FindLocal(local, id).value, stamp, timestamp);
    assert CreateTransactionValid(body);
    assert TransactionLedger.OrderExists(p.state.orders, id) by {
      assert p.state.orders[i].id == id;
    }
  }
}
