/** The transaction controller: create (persist, then broadcast) and list.

    Broadcasting is modelled as an append-only log of emitted events; who
    receives them is a transport matter. */
module TransactionLedger {
  import opened Http
  import opened Seqs
  import opened ObjectIds
  import opened Models
  import opened Schemas

  const NewTransactionEvent: string := "transaction:new"

  /** The payload of a live event: the transaction's fields with the order
      reference printed as text. */
  datatype LiveTx = LiveTx(transactionId: string, orderId: string, amount: int, paymentMethod: string, timestamp: int)

  datatype Emitted = Emitted(name: string, payload: LiveTx)

  /** The transactions persisted so far and the events emitted so far. */
  datatype Ledger = Ledger(txs: seq<Transaction>, log: seq<Emitted>)

  function CreatedAt(t: Transaction): int {
    t.createdAt
  }

  /** The event announcing a persisted transaction, built from the stored
      record rather than from the request. */
  function Announce(t: Transaction): (e: Emitted)
    ensures e.name == NewTransactionEvent
    ensures e.payload.transactionId == t.transactionId && e.payload.orderId == t.orderId
    ensures e.payload.amount == t.amount && e.payload.paymentMethod == t.paymentMethod
    ensures e.payload.timestamp == t.timestamp
  {
    Emitted(NewTransactionEvent, LiveTx(t.transactionId, t.orderId, t.amount, t.paymentMethod, t.timestamp))
  }

  /** External ids unique (a unique index), system ids unique and canonical,
      every record accepted by the schema, creation times increasing and
      before the clock, and exactly one announcement per transaction, in
      persistence order. */
  ghost predicate LedgerValid(led: Ledger, clock: nat) {
    && (forall i, j :: 0 <= i < j < |led.txs| ==> led.txs[i].transactionId != led.txs[j].transactionId)
    && (forall i, j :: 0 <= i < j < |led.txs| ==> led.txs[i].id != led.txs[j].id)
    && (forall i :: 0 <= i < |led.txs| ==> IsCanonical(led.txs[i].id) && TransactionAccepted(led.txs[i]))
    && (forall i :: 0 <= i < |led.txs| ==> led.txs[i].createdAt < clock)
    && Increasing(led.txs, CreatedAt)
    && |led.log| == |led.txs|
    && (forall i :: 0 <= i < |led.txs| ==> led.log[i] == Announce(led.txs[i]))
  }

  /** Every transaction refers to an order in the store. */
  ghost predicate RefsResolve(txs: seq<Transaction>, orders: seq<Order>) {
    forall i :: 0 <= i < |txs| ==> OrderExists(orders, txs[i].orderId)
  }

  predicate TransactionIdTaken(txs: seq<Transaction>, transactionId: string) {
    exists i :: 0 <= i < |txs| && txs[i].transactionId == transactionId
  }

  predicate OrderExists(orders: seq<Order>, id: string) {
    exists j :: 0 <= j < |orders| && orders[j].id == id
  }

  /** The create handler. The order reference is cast (a malformed reference
      makes the lookup throw), looked up (absent: "Invalid orderId"), and the
      record is created; the create throws if the timestamp is not a date, the
      record fails the schema, or the transaction id is already used. Only a
      persisted record is announced. The handler has no try/catch. */
  function CreateTransaction(orders: seq<Order>, led: Ledger, body: CreateTransactionBody,
                             parseDate: string -> Option<int>, freshId: string, now: nat)
    : (st: Step<Transaction, Ledger>)
    ensures st.reply.Fail? ==> st.state == led
    ensures IsIdText(body.orderId) && !OrderExists(orders, Cast(body.orderId).value) ==>
              st.reply == Fail(BadRequest("Invalid orderId"))
    ensures TransactionIdTaken(led.txs, body.transactionId) ==> st.reply.Fail?
    ensures st.reply.Ok? ==>
              && IsIdText(body.orderId)
              && OrderExists(orders, Cast(body.orderId).value)
              && var t := st.reply.value;
              && t.id == freshId && t.createdAt == now
              && t.transactionId == body.transactionId
              && t.orderId == Cast(body.orderId).value
              && t.amount == body.amount
              && t.paymentMethod == body.paymentMethod
              && parseDate(body.timestamp) == Some(t.timestamp)
              && st.state == Ledger(led.txs + [t], led.log + [Announce(t)])
    ensures st.reply.Ok? <==>
              && IsIdText(body.orderId)
              && OrderExists(orders, Cast(body.orderId).value)
              && parseDate(body.timestamp).Some?
              && !TransactionIdTaken(led.txs, body.transactionId)
              && body.transactionId != "" && body.amount >= 0 && body.paymentMethod != ""
  {
    match Cast(body.orderId)
    case None => Step(Fail(Unhandled), led)
    case Some(oid) =>
      if !OrderExists(orders, oid) then Step(Fail(BadRequest("Invalid orderId")), led)
      else
        match parseDate(body.timestamp)
        case None => Step(Fail(Unhandled), led)
        case Some(when) =>
          var t := Transaction(freshId, body.transactionId, oid, body.amount, body.paymentMethod, when, now);
          if !TransactionAccepted(t) || TransactionIdTaken(led.txs, body.transactionId) then
            Step(Fail(Unhandled), led)
          else
            Step(Ok(t), Ledger(led.txs + [t], led.log + [Announce(t)]))
  }

  /** The list handler: every transaction, newest first. */
  function ListTransactions(txs: seq<Transaction>): (r: seq<Transaction>)
    ensures |r| == |txs|
    ensures forall t :: t in r <==> t in txs
  {
    ReverseMembers(txs);
    Reverse(txs)
  }

  lemma ListTransactionsNewestFirst(led: Ledger, clock: nat)
    requires LedgerValid(led, clock)
    ensures Decreasing(ListTransactions(led.txs), CreatedAt)
  {
    ReverseOfIncreasing(led.txs, CreatedAt);
  }

  /** Creation reads only the orders' ids: neither the order's status nor its
      total takes part, so the same request has the same outcome whatever the
      referenced order's status and amount are. */
  lemma CreateIgnoresOrderStatus(orders: seq<Order>, orders': seq<Order>, led: Ledger, body: CreateTransactionBody,
                                 parseDate: string -> Option<int>, freshId: string, now: nat)
    requires |orders| == |orders'|
    requires forall j :: 0 <= j < |orders| ==> orders[j].id == orders'[j].id
    ensures CreateTransaction(orders, led, body, parseDate, freshId, now)
            == CreateTransaction(orders', led, body, parseDate, freshId, now)
  {
    if IsIdText(body.orderId) {
      var oid := Cast(body.orderId).value;
      assert OrderExists(orders, oid) <==> OrderExists(orders', oid) by {
        if OrderExists(orders, oid) {
          var j :| 0 <= j < |orders| && orders[j].id == oid;
          assert orders'[j].id == oid;
        }
        if OrderExists(orders', oid) {
          var j :| 0 <= j < |orders'| && orders'[j].id == oid;
          assert orders[j].id == oid;
        }
      }
    }
  }

  /** Nothing limits the number of transactions per order: after one
      transaction for an order, a second with another transaction id is
      accepted too. */
  lemma SecondTransactionForSameOrder(orders: seq<Order>, led: Ledger, body: CreateTransactionBody, tid: string,
                                      parseDate: string -> Option<int>, id1: string, id2: string, now: nat)
    requires CreateTransaction(orders, led, body, parseDate, id1, now).reply.Ok?
    requires tid != body.transactionId && tid != "" && !TransactionIdTaken(led.txs, tid)
    ensures var led' := CreateTransaction(orders, led, body, parseDate, id1, now).state;
            var second := CreateTransaction(orders, led', body.(transactionId := tid), parseDate, id2, now + 1);
            && second.reply.Ok?
            && second.reply.value.orderId == CreateTransaction(orders, led, body, parseDate, id1, now).reply.value.orderId
  {
  }

  lemma CreatePreservesValid(orders: seq<Order>, led: Ledger, body: CreateTransactionBody,
                             parseDate: string -> Option<int>, freshId: string, now: nat)
    requires LedgerValid(led, now)
    requires RefsResolve(led.txs, orders)
    requires IsCanonical(freshId) && forall i :: 0 <= i < |led.txs| ==> led.txs[i].id != freshId
    ensures var st := CreateTransaction(orders, led, body, parseDate, freshId, now);
            && LedgerValid(st.state, if st.reply.Ok? then now + 1 else now)
            && RefsResolve(st.state.txs, orders)
  {
    var st := CreateTransaction(orders, led, body, parseDate, freshId, now);
    if st.reply.Ok? {
      var txs' := st.state.txs;
      assert txs'[|led.txs|] == st.reply.value;
      assert forall i :: 0 <= i < |led.txs| ==> txs'[i] == led.txs[i];
      assert forall i :: 0 <= i < |led.txs| ==> st.state.log[i] == led.log[i];
      assert !TransactionIdTaken(led.txs, body.transactionId);
    }
  }

  /** References survive order-store changes that keep every existing id in
      place (creation appends; patching rewrites only the status). */
  lemma RefsResolveGrowing(txs: seq<Transaction>, orders: seq<Order>, orders': seq<Order>)
    requires RefsResolve(txs, orders)
    requires |orders| <= |orders'|
    requires forall j :: 0 <= j < |orders| ==> orders'[j].id == orders[j].id
    ensures RefsResolve(txs, orders')
  {
    forall i | 0 <= i < |txs| ensures OrderExists(orders', txs[i].orderId) {
      var j :| 0 <= j < |orders| && orders[j].id == txs[i].orderId;
      assert orders'[j].id == txs[i].orderId;
    }
  }
}
