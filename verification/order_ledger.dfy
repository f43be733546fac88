/** The order controller: create, list and patch over an order store.

    The store is the sequence of orders in insertion order; `createdAt` is the
    store clock at insertion, so "newest first" is reverse insertion order. */
module OrderLedger {
  import opened Http
  import opened Seqs
  import opened ObjectIds
  import opened Models
  import opened Schemas

  function CreatedAt(o: Order): int {
    o.createdAt
  }

  /** External ids are unique (a unique index), system ids are unique and
      canonical, every order passes the order schema, and creation times are
      increasing and earlier than the clock. */
  ghost predicate OrdersValid(orders: seq<Order>, clock: nat) {
    && (forall i, j :: 0 <= i < j < |orders| ==> orders[i].orderId != orders[j].orderId)
    && (forall i, j :: 0 <= i < j < |orders| ==> orders[i].id != orders[j].id)
    && (forall i :: 0 <= i < |orders| ==>
          IsCanonical(orders[i].id) && IsCanonical(orders[i].userId) && OrderAccepted(orders[i]))
    && (forall i :: 0 <= i < |orders| ==> orders[i].createdAt < clock)
    && Increasing(orders, CreatedAt)
  }

  predicate OrderIdTaken(orders: seq<Order>, orderId: string) {
    exists i :: 0 <= i < |orders| && orders[i].orderId == orderId
  }

  /** The store's lookup by system id: the position of the first match. */
  function IndexOfId(orders: seq<Order>, id: string): (r: Option<nat>)
    ensures r.Some? ==> r.value < |orders| && orders[r.value].id == id
    ensures r.Some? ==> forall j :: 0 <= j < r.value ==> orders[j].id != id
    ensures r.None? <==> forall i :: 0 <= i < |orders| ==> orders[i].id != id
  {
    if |orders| == 0 then None
    else if orders[0].id == id then Some(0)
    else match IndexOfId(orders[1..], id)
      case None => None
      case Some(k) => Some(k + 1)
  }

  const DuplicateOrderId: Failure := Conflict("orderId already exists")

  /** The create handler. The owner is the caller's id cast to a database id
      (a cast failure reaches the error middleware); the record must pass the
      order schema. */
  function CreateOrder(orders: seq<Order>, caller: Identity, body: CreateOrderBody, freshId: string, now: nat)
    : (st: Step<Order, seq<Order>>)
    ensures OrderIdTaken(orders, body.orderId) ==> st == Step(Fail(DuplicateOrderId), orders)
    ensures st.reply.Fail? ==> st.state == orders
    ensures st.reply.Ok? ==>
              && IsIdText(caller.userId)
              && st.reply.value == Order(freshId, body.orderId, Cast(caller.userId).value,
                                         body.items, body.totalAmount, Pending, now)
              && st.state == orders + [st.reply.value]
    ensures st.reply.Ok? <==>
              && !OrderIdTaken(orders, body.orderId)
              && IsIdText(caller.userId)
              && body.orderId != ""
              && (forall k :: 0 <= k < |body.items| ==> ItemAccepted(body.items[k]))
              && body.totalAmount >= 0
  {
    if OrderIdTaken(orders, body.orderId) then Step(Fail(DuplicateOrderId), orders)
    else
      match Cast(caller.userId)
      case None => Step(Fail(ServerError), orders)
      case Some(owner) =>
        var o := Order(freshId, body.orderId, owner, body.items, body.totalAmount, Pending, now);
        if !OrderAccepted(o) then Step(Fail(ServerError), orders)
        else Step(Ok(o), orders + [o])
  }

  /** An order is listed when it has the requested status (if any) and, for
      a scoped listing, belongs to the given owner. */
  predicate Listed(o: Order, status: Option<Status>, owner: Option<string>) {
    (status.None? || o.status == status.value) && (owner.None? || o.userId == owner.value)
  }

  /** The list handler: admins see every order, anyone else only their own;
      an optional status narrows both; newest first. */
  function ListOrders(orders: seq<Order>, caller: Identity, status: Option<Status>): (r: Reply<seq<Order>>)
    ensures r.Fail? <==> caller.role != Admin && !IsIdText(caller.userId)
    ensures r.Fail? ==> r.failure == ServerError
    ensures r.Ok? ==> forall o :: o in r.value <==>
              && o in orders
              && (status.None? || o.status == status.value)
              && (caller.role == Admin || o.userId == Cast(caller.userId).value)
  {
    if caller.role != Admin && Cast(caller.userId).None? then Fail(ServerError)
    else
      var owner := if caller.role == Admin then None else Cast(caller.userId);
      var kept := Filter(orders, (o: Order) => Listed(o, status, owner));
      ReverseMembers(kept);
      Ok(Reverse(kept))
  }

  /** In a valid store the listing is sorted newest first, holds no order twice,
      and is exactly the listed subset. */
  lemma ListOrdersNewestFirst(orders: seq<Order>, clock: nat, caller: Identity, status: Option<Status>)
    requires OrdersValid(orders, clock)
    requires ListOrders(orders, caller, status).Ok?
    ensures Decreasing(ListOrders(orders, caller, status).value, CreatedAt)
  {
    var owner := if caller.role == Admin then None else Cast(caller.userId);
    NewestFirst(orders, (o: Order) => Listed(o, status, owner), CreatedAt);
  }

  /** The patch handler. The path id is cast first (a cast failure reaches the
      error middleware), then looked up; a caller who is neither admin nor the
      owner is refused; otherwise the status is overwritten whatever it was,
      and the save validates the new status against the enum. */
  function PatchOrder(orders: seq<Order>, caller: Identity, id: string, status: string)
    : (st: Step<Order, seq<Order>>)
    ensures st.reply.Fail? ==> st.state == orders
    ensures !IsIdText(id) ==> st.reply == Fail(ServerError)
    ensures IsIdText(id) && IndexOfId(orders, Cast(id).value).None? ==> st.reply == Fail(NotFound)
    ensures st.reply == Fail(Forbidden) <==>
              && IsIdText(id)
              && IndexOfId(orders, Cast(id).value).Some?
              && caller.role != Admin
              && orders[IndexOfId(orders, Cast(id).value).value].userId != caller.userId
    ensures st.reply.Ok? ==>
              && IsIdText(id)
              && IndexOfId(orders, Cast(id).value).Some?
              && var i := IndexOfId(orders, Cast(id).value).value;
              && (caller.role == Admin || orders[i].userId == caller.userId)
              && ParseStatus(status) == Some(st.reply.value.status)
              && st.reply.value == orders[i].(status := st.reply.value.status)
              && st.state == orders[i := st.reply.value]
  {
    match Cast(id)
    case None => Step(Fail(ServerError), orders)
    case Some(oid) =>
      match IndexOfId(orders, oid)
      case None => Step(Fail(NotFound), orders)
      case Some(i) =>
        if caller.role != Admin && orders[i].userId != caller.userId then Step(Fail(Forbidden), orders)
        else
          match ParseStatus(status)
          case None => Step(Fail(ServerError), orders)
          case Some(s) =>
            var o := orders[i].(status := s);
            Step(Ok(o), orders[i := o])
  }

  /** An authorised patch succeeds from every current status to every status:
      there is no transition table. */
  lemma PatchIgnoresCurrentStatus(orders: seq<Order>, caller: Identity, id: string, s: Status)
    requires IsIdText(id) && IndexOfId(orders, Cast(id).value).Some?
    requires caller.role == Admin || orders[IndexOfId(orders, Cast(id).value).value].userId == caller.userId
    ensures PatchOrder(orders, caller, id, StatusName(s)).reply.Ok?
    ensures PatchOrder(orders, caller, id, StatusName(s)).reply.value.status == s
  {
    NamesRoundTrip(Customer, s);
  }

  lemma CreateOrderPreservesValid(orders: seq<Order>, caller: Identity, body: CreateOrderBody, freshId: string, now: nat)
    requires OrdersValid(orders, now)
    requires IsCanonical(freshId) && forall i :: 0 <= i < |orders| ==> orders[i].id != freshId
    ensures var st := CreateOrder(orders, caller, body, freshId, now);
            OrdersValid(st.state, if st.reply.Ok? then now + 1 else now)
  {
    var st := CreateOrder(orders, caller, body, freshId, now);
    if st.reply.Ok? {
      var s' := st.state;
      assert s'[|orders|] == st.reply.value;
      assert forall i :: 0 <= i < |orders| ==> s'[i] == orders[i];
      assert !OrderIdTaken(orders, body.orderId);
    }
  }

  lemma PatchOrderPreservesValid(orders: seq<Order>, clock: nat, caller: Identity, id: string, status: string)
    requires OrdersValid(orders, clock)
    ensures OrdersValid(PatchOrder(orders, caller, id, status).state, clock)
  {
    var st := PatchOrder(orders, caller, id, status);
    if st.reply.Ok? {
      var i := IndexOfId(orders, Cast(id).value).value;
      assert forall j :: 0 <= j < |orders| ==> st.state[j].createdAt == orders[j].createdAt;
    }
  }
}
