/** The admin's transactions page: the list of transactions, the completed
    orders still waiting for a transaction, the total and per-method counts,
    and the two buttons that create transactions. */
module TransactionsPage {
  import opened Http
  import opened Seqs
  import opened ObjectIds
  import opened Models
  import opened Schemas
  import opened AuthGate
  import opened ClientSession
  import opened Routes
  import OrderLedger
  import TransactionLedger

  // ------------------------------------------------------------------ loading

  /** What the page holds after a load: the transactions and the completed
      orders, both as the server returned them. */
  datatype PageData = PageData(tx: seq<Transaction>, orders: seq<Order>)

  const CompletedQuery: ListOrdersQuery := ListOrdersQuery(Some("Completed"))

  /** Both lists are fetched together and the load fails if either does. */
  function LoadPage(s: Server, env: Env, token: Option<string>): (r: Reply<PageData>)
    ensures r.Ok? <==> GetTransactions(s, env, AuthHeader(token)).Ok?
                       && GetOrders(s, env, AuthHeader(token), CompletedQuery).Ok?
    ensures r.Ok? ==> r.value == PageData(GetTransactions(s, env, AuthHeader(token)).value,
                                          GetOrders(s, env, AuthHeader(token), CompletedQuery).value)
  {
    var h := AuthHeader(token);
    match GetTransactions(s, env, h)
    case Fail(f) => Fail(f)
    case Ok(tx) =>
      match GetOrders(s, env, h, CompletedQuery)
      case Fail(f) => Fail(f)
      case Ok(orders) => Ok(PageData(tx, orders))
  }

  /** The page loads only for an administrator. */
  lemma LoadPageNeedsAdmin(s: Server, env: Env, token: Option<string>)
    ensures LoadPage(s, env, token).Ok? <==>
              Authenticate(AuthHeader(token), env.crypto.verify).Ok?
              && Authenticate(AuthHeader(token), env.crypto.verify).value.role == Admin
  {
    var h := AuthHeader(token);
    if Authenticate(h, env.crypto.verify).Ok? && Authenticate(h, env.crypto.verify).value.role == Admin {
      assert ListOrdersValid(CompletedQuery);
    }
  }

  // ----------------------------------------------- orders awaiting a payment

  /** The order ids some transaction refers to. */
  function PaidIds(tx: seq<Transaction>): set<string> {
    set t | t in tx :: t.orderId
  }

  /** The waiting-list test: no transaction refers to the order. */
  function Unpaid(tx: seq<Transaction>): Order -> bool {
    (o: Order) => o.id !in PaidIds(tx)
  }

  /** The test dropping the orders one transaction refers to. */
  function NotPaidBy(t: Transaction): Order -> bool {
    (o: Order) => o.id != t.orderId
  }

  /** The loaded orders no transaction refers to, in loaded order. */
  function CompletedOrdersWithoutTx(orders: seq<Order>, tx: seq<Transaction>): (r: seq<Order>)
    ensures forall o :: o in r <==> o in orders && forall t :: t in tx ==> t.orderId != o.id
  {
    Filter(orders, Unpaid(tx))
  }

  /** A new transaction removes exactly the orders it refers to from the
      waiting list and leaves the others in place and in order. */
  lemma PayingRemovesOrder(orders: seq<Order>, tx: seq<Transaction>, t: Transaction)
    ensures CompletedOrdersWithoutTx(orders, tx + [t])
            == Filter(CompletedOrdersWithoutTx(orders, tx), NotPaidBy(t))
  {
    assert PaidIds(tx + [t]) == PaidIds(tx) + {t.orderId};
    FilterFilter(orders, Unpaid(tx), NotPaidBy(t), Unpaid(tx + [t]));
  }

  /** After a load, the waiting list is exactly the completed orders of the
      store that no stored transaction refers to. */
  lemma WaitingListAfterLoad(s: Server, env: Env, token: Option<string>)
    requires LoadPage(s, env, token).Ok?
    ensures var d := LoadPage(s, env, token).value;
            forall o :: o in CompletedOrdersWithoutTx(d.orders, d.tx) <==>
              && o in s.orders
              && o.status == Completed
              && forall t :: t in s.ledger.txs ==> t.orderId != o.id
  {
    LoadPageNeedsAdmin(s, env, token);
    var h := AuthHeader(token);
    assert ListOrdersValid(CompletedQuery);
    assert QueryStatus(CompletedQuery) == Some(Completed);
    ReverseMembers(s.ledger.txs);
  }

  // ---------------------------------------------------------------- summary

  /** The total of the listed amounts. */
  function TotalAmount(tx: seq<Transaction>): (total: int)
    ensures (forall i :: 0 <= i < |tx| ==> tx[i].amount >= 0) ==> total >= 0
    ensures |tx| == 1 ==> total == tx[0].amount
  {
    if |tx| == 0 then 0 else TotalAmount(tx[..|tx| - 1]) + tx[|tx| - 1].amount
  }

  lemma {:induction false} TotalAmountAppend(a: seq<Transaction>, b: seq<Transaction>)
    ensures TotalAmount(a + b) == TotalAmount(a) + TotalAmount(b)
    decreases |b|
  {
    if |b| == 0 {
      assert a + b == a;
    } else {
      assert (a + b)[..|a + b| - 1] == a + b[..|b| - 1];
      TotalAmountAppend(a, b[..|b| - 1]);
    }
  }

  /** The total does not depend on the listing order: the newest-first list
      sums to the same amount as the store. */
  lemma {:induction false} TotalAmountOfListing(tx: seq<Transaction>)
    ensures TotalAmount(TransactionLedger.ListTransactions(tx)) == TotalAmount(tx)
    decreases |tx|
  {
    if |tx| > 0 {
      var r := Reverse(tx);
      var rest := Reverse(tx[1..]);
      assert r == rest + [tx[0]];
      assert TotalAmount(r) == TotalAmount(rest) + tx[0].amount;
      TotalAmountOfListing(tx[1..]);
      TotalAmountAppend([tx[0]], tx[1..]);
      assert [tx[0]] + tx[1..] == tx;
      assert TotalAmount([tx[0]]) == tx[0].amount by {
        assert [tx[0]][..0] == [];
      }
    }
  }

  /** One entry of the per-method tally. */
  datatype Tally = Tally(key: string, count: nat)

  /** The number of transactions paid with `pm`. */
  function CountMethod(tx: seq<Transaction>, pm: string): nat {
    if |tx| == 0 then 0
    else CountMethod(tx[..|tx| - 1], pm) + (if tx[|tx| - 1].paymentMethod == pm then 1 else 0)
  }

  /** A method is counted exactly when some transaction uses it. */
  lemma {:induction false} CountMethodPositive(tx: seq<Transaction>, pm: string)
    ensures CountMethod(tx, pm) > 0 <==> exists t :: t in tx && t.paymentMethod == pm
  {
    if |tx| > 0 {
      var init := tx[..|tx| - 1];
      CountMethodPositive(init, pm);
      assert tx == init + [tx[|tx| - 1]];
      if CountMethod(init, pm) > 0 {
        var t :| t in init && t.paymentMethod == pm;
        assert t in tx;
      }
    }
  }

  /** The count recorded under `pm`, zero when it has no entry. */
  function Lookup(m: seq<Tally>, pm: string): nat {
    if |m| == 0 then 0 else if m[0].key == pm then m[0].count else Lookup(m[1..], pm)
  }

  /** The keys of the tally. */
  function Methods(m: seq<Tally>): set<string> {
    if |m| == 0 then {} else {m[0].key} + Methods(m[1..])
  }

  function Sum(m: seq<Tally>): nat {
    if |m| == 0 then 0 else m[0].count + Sum(m[1..])
  }

  /** No key twice and every count positive: what a tally built by
      incrementing always looks like. */
  ghost predicate TallyShape(m: seq<Tally>) {
    |m| == 0 || (m[0].key !in Methods(m[1..]) && m[0].count >= 1 && TallyShape(m[1..]))
  }

  /** `m[k] = (m[k] || 0) + 1` on an object whose keys keep insertion order. */
  function Bump(m: seq<Tally>, pm: string): seq<Tally> {
    if |m| == 0 then [Tally(pm, 1)]
    else if m[0].key == pm then [Tally(pm, m[0].count + 1)] + m[1..]
    else [m[0]] + Bump(m[1..], pm)
  }

  lemma {:induction false} BumpLookup(m: seq<Tally>, pm: string, k: string)
    ensures Lookup(Bump(m, pm), k) == Lookup(m, k) + (if k == pm then 1 else 0)
  {
    if |m| > 0 && m[0].key != pm {
      BumpLookup(m[1..], pm, k);
      assert ([m[0]] + Bump(m[1..], pm))[1..] == Bump(m[1..], pm);
    } else if |m| > 0 {
      assert ([Tally(pm, m[0].count + 1)] + m[1..])[1..] == m[1..];
    }
  }

  lemma {:induction false} BumpMethods(m: seq<Tally>, pm: string)
    ensures Methods(Bump(m, pm)) == Methods(m) + {pm}
  {
    if |m| > 0 && m[0].key != pm {
      BumpMethods(m[1..], pm);
      assert ([m[0]] + Bump(m[1..], pm))[1..] == Bump(m[1..], pm);
    } else if |m| > 0 {
      assert ([Tally(pm, m[0].count + 1)] + m[1..])[1..] == m[1..];
    }
  }

  lemma {:induction false} BumpSum(m: seq<Tally>, pm: string)
    ensures Sum(Bump(m, pm)) == Sum(m) + 1
  {
    if |m| > 0 && m[0].key != pm {
      BumpSum(m[1..], pm);
      assert ([m[0]] + Bump(m[1..], pm))[1..] == Bump(m[1..], pm);
    } else if |m| > 0 {
      assert ([Tally(pm, m[0].count + 1)] + m[1..])[1..] == m[1..];
    }
  }

  lemma {:induction false} BumpShape(m: seq<Tally>, pm: string)
    requires TallyShape(m)
    ensures TallyShape(Bump(m, pm))
  {
    if |m| > 0 && m[0].key != pm {
      BumpShape(m[1..], pm);
      BumpMethods(m[1..], pm);
      assert ([m[0]] + Bump(m[1..], pm))[1..] == Bump(m[1..], pm);
    } else if |m| > 0 {
      assert ([Tally(pm, m[0].count + 1)] + m[1..])[1..] == m[1..];
    } else {
      assert [Tally(pm, 1)][1..] == [];
    }
  }

  /** In a well-shaped tally, a method has an entry exactly when its count is
      positive. */
  lemma {:induction false} LookupPositive(m: seq<Tally>, k: string)
    requires TallyShape(m)
    ensures k in Methods(m) <==> Lookup(m, k) > 0
  {
    if |m| > 0 {
      LookupPositive(m[1..], k);
    }
  }

  /** The per-method tally of the summary card, built by folding the list
      from its first transaction to its last. */
  function ByMethod(tx: seq<Transaction>): seq<Tally> {
    if |tx| == 0 then [] else Bump(ByMethod(tx[..|tx| - 1]), tx[|tx| - 1].paymentMethod)
  }

  /** The tally has one entry per payment method in use and no other, each
      counting exactly the transactions paid with it, and the counts add up to
      the number of transactions. */
  lemma {:induction false} ByMethodCounts(tx: seq<Transaction>)
    ensures TallyShape(ByMethod(tx))
    ensures forall k :: Lookup(ByMethod(tx), k) == CountMethod(tx, k)
    ensures forall k :: k in Methods(ByMethod(tx)) <==> exists t :: t in tx && t.paymentMethod == k
    ensures Sum(ByMethod(tx)) == |tx|
  {
    if |tx| > 0 {
      var init := tx[..|tx| - 1];
      var last := tx[|tx| - 1];
      ByMethodCounts(init);
      BumpShape(ByMethod(init), last.paymentMethod);
      BumpSum(ByMethod(init), last.paymentMethod);
      forall k ensures Lookup(ByMethod(tx), k) == CountMethod(tx, k) {
        BumpLookup(ByMethod(init), last.paymentMethod, k);
      }
    }
    forall k ensures k in Methods(ByMethod(tx)) <==> exists t :: t in tx && t.paymentMethod == k {
      LookupPositive(ByMethod(tx), k);
      CountMethodPositive(tx, k);
    }
  }

  /** The key JavaScript treats as the object's prototype link. */
  const ProtoKey: string := "__proto__"

  /** The tally as the page computes it: on a plain object, assigning a number
      to `__proto__` is ignored, so that method is never recorded. */
  function BumpAsWritten(m: seq<Tally>, pm: string): seq<Tally> {
    if pm == ProtoKey then m else Bump(m, pm)
  }

  function ByMethodAsWritten(tx: seq<Transaction>): seq<Tally> {
    if |tx| == 0 then [] else BumpAsWritten(ByMethodAsWritten(tx[..|tx| - 1]), tx[|tx| - 1].paymentMethod)
  }

  /** One transaction paid with method `__proto__`: the count card shows one
      transaction while the per-method card shows no data. */
  lemma ProtoMethodGoesUncounted(t: Transaction)
    requires t.paymentMethod == ProtoKey
    ensures ByMethodAsWritten([t]) == []
    ensures Sum(ByMethodAsWritten([t])) != |[t]|
    ensures Sum(ByMethod([t])) == |[t]|
  {
    assert [t][..0] == [];
    ByMethodCounts([t]);
  }

  // ------------------------------------------------------ creating payments

  /** What a page action ends with: an error toast, or a blocking browser
      alert with an error text, and in both cases no reload; or a reload of
      the whole page, with an optional success toast. */
  datatype ActionOutcome =
    | Toasted(toast: Toast)
    | Alerted(message: string)
    | ReloadedPage(notice: Option<Toast>, data: Reply<PageData>)

  /** The "Create Transaction" button beside a waiting order: post, then
      reload; a failure raises an alert with the server's error. */
  function CreateTransactionForOrder(s: Server, env: Env, token: Option<string>, o: Order,
                                     stamp: string, timestamp: string, freshId: string)
    : (res: (Server, ActionOutcome))
    ensures res.1.Alerted? || res.1.ReloadedPage?
    ensures res.1.Alerted? ==>
              && res.0 == s
              && var r := PostTransaction(s, env, AuthHeader(token), CardPayment(o, stamp, timestamp), freshId).reply;
              && r.Fail? && res.1.message == ErrorText(r.failure, "Failed to create transaction")
    ensures res.1.ReloadedPage? <==> |res.0.ledger.txs| == |s.ledger.txs| + 1
    ensures res.1.ReloadedPage? ==>
              && res.1.notice.None? && res.1.data == LoadPage(res.0, env, token)
              && res.0.orders == s.orders && res.0.users == s.users
              && var t := res.0.ledger.txs[|s.ledger.txs|];
              && res.0.ledger.txs == s.ledger.txs + [t]
              && t.transactionId == "TX-" + stamp
              && IsIdText(o.id) && t.orderId == Cast(o.id).value && (IsCanonical(o.id) ==> t.orderId == o.id)
              && t.amount == o.totalAmount && t.paymentMethod == "card"
  {
    var st := PostTransaction(s, env, AuthHeader(token), CardPayment(o, stamp, timestamp), freshId);
    match st.reply
    case Fail(f) => (s, Alerted(ErrorText(f, "Failed to create transaction")))
    case Ok(_) => (st.state, ReloadedPage(None, LoadPage(st.state, env, token)))
  }

  /** Paying a waiting order takes it off the waiting list: after a
      successful post the reloaded page no longer shows it. */
  lemma PaidOrderLeavesWaitingList(s: Server, env: Env, token: Option<string>, o: Order,
                                   stamp: string, timestamp: string, freshId: string)
    requires IsCanonical(o.id)
    ensures var (s', out) := CreateTransactionForOrder(s, env, token, o, stamp, timestamp, freshId);
            out.ReloadedPage? && out.data.Ok? ==>
              o !in CompletedOrdersWithoutTx(out.data.value.orders, out.data.value.tx)
  {
    var (s', out) := CreateTransactionForOrder(s, env, token, o, stamp, timestamp, freshId);
    if out.ReloadedPage? && out.data.Ok? {
      var h := AuthHeader(token);
      var st := PostTransaction(s, env, h, CardPayment(o, stamp, timestamp), freshId);
      var t := st.reply.value;
      assert t.orderId == o.id;
      assert t in s'.ledger.txs;
      WaitingListAfterLoad(s', env, token);
    }
  }

  /** The three calls behind the dummy and test buttons: create an order with
      one item, mark it Completed, and post a transaction for it with the same
      amount; the first failure stops the sequence and is the result. A
      refused patch therefore posts nothing, and a refused post leaves the new
      order Completed with no transaction for it. */
  function CompleteAndPay(s: Server, env: Env, h: Option<string>, orderRef: string, product: string, productName: string,
                          amount: int, txRef: string, pm: string, timestamp: string,
                          orderFreshId: string, txFreshId: string)
    : (st: Step<Transaction, Server>)
    ensures var created := PostOrder(s, env, h, OrderBody(orderRef, product, productName, amount), orderFreshId);
            && (created.reply.Fail? ==> st == Step(Fail(created.reply.failure), s))
            && (created.reply.Ok? ==>
                  var patched := PatchOrderById(created.state, env, h, created.reply.value.id, PatchOrderBody("Completed"));
                  && (patched.reply.Fail? ==> st == Step(Fail(patched.reply.failure), created.state))
                  && (patched.reply.Ok? ==> st.state.orders == patched.state.orders)
                  && (patched.reply.Ok? && st.reply.Fail? ==> st.state == patched.state))
    ensures st.reply.Fail? ==> st.state.ledger == s.ledger
    ensures st.reply.Ok? ==>
              && st.state.ledger.txs == s.ledger.txs + [st.reply.value]
              && st.reply.value.transactionId == txRef
              && st.reply.value.amount == amount && st.reply.value.paymentMethod == pm
  {
    var created := PostOrder(s, env, h, OrderBody(orderRef, product, productName, amount), orderFreshId);
    match created.reply
    case Fail(f) => Step(Fail(f), created.state)
    case Ok(order) =>
      var patched := PatchOrderById(created.state, env, h, order.id, PatchOrderBody("Completed"));
      match patched.reply
      case Fail(f) => Step(Fail(f), patched.state)
      case Ok(_) =>
        PostTransaction(patched.state, env, h, CreateTransactionBody(txRef, order.id, amount, pm, timestamp), txFreshId)
  }

  /** The order the dummy and test buttons create: one item of quantity one
      priced at the drawn amount, which is also the total, so the items sum
      to the total. */
  function OrderBody(orderRef: string, product: string, productName: string, amount: int): (b: CreateOrderBody)
    ensures b.orderId == orderRef && b.totalAmount == amount
    ensures |b.items| == 1 && b.items[0].quantity == 1 && b.items[0].price == amount
    ensures ItemsTotal(b.items) == b.totalAmount
    ensures CreateOrderValid(b) <==> orderRef != "" && product != "" && productName != "" && amount >= 0
  {
    var b := CreateOrderBody(orderRef, [Item(product, productName, 1, amount)], amount);
    assert ItemsTotal(b.items) == amount + ItemsTotal([]);
    b
  }

  /** From a valid store, a caller whose token carries a canonical user id,
      unused references and a parseable timestamp, the sequence succeeds:
      the earlier orders are untouched, the new order is stored Completed
      with one item priced at the amount and the amount as its total, and the
      new transaction refers to it with that same amount, announced once. */
  lemma CompleteAndPaySucceeds(s: Server, env: Env, h: Option<string>, orderRef: string, product: string, productName: string,
                               amount: int, txRef: string, pm: string, timestamp: string,
                               orderFreshId: string, txFreshId: string)
    requires Valid(s) && Fresh(s, orderFreshId)
    requires Authenticate(h, env.crypto.verify).Ok? && IsCanonical(Authenticate(h, env.crypto.verify).value.userId)
    requires orderRef != "" && product != "" && productName != "" && amount >= 0
    requires !OrderLedger.OrderIdTaken(s.orders, orderRef)
    requires txRef != "" && pm != "" && !TransactionLedger.TransactionIdTaken(s.ledger.txs, txRef)
    requires env.parseDate(timestamp).Some?
    ensures var st := CompleteAndPay(s, env, h, orderRef, product, productName, amount, txRef, pm, timestamp,
                                     orderFreshId, txFreshId);
            && st.reply.Ok?
            && |st.state.orders| == |s.orders| + 1
            && st.state.orders[|s.orders|].id == orderFreshId
            && st.state.orders[|s.orders|].orderId == orderRef
            && st.state.orders[|s.orders|].status == Completed
            && st.state.orders[|s.orders|].totalAmount == amount
            && st.state.orders[|s.orders|].items == [Item(product, productName, 1, amount)]
            && st.state.orders[..|s.orders|] == s.orders
            && st.reply.value.orderId == orderFreshId
            && st.reply.value.amount == amount
            && st.reply.value.paymentMethod == pm
            && st.state.ledger.txs == s.ledger.txs + [st.reply.value]
            && st.state.ledger.log == s.ledger.log + [TransactionLedger.Announce(st.reply.value)]
  {
    var who := Authenticate(h, env.crypto.verify).value;
    var body := OrderBody(orderRef, product, productName, amount);
    assert ItemsTotal(body.items) == amount + ItemsTotal([]);
    assert CreateOrderValid(body);
    var created := PostOrder(s, env, h, body, orderFreshId);
    assert created.reply.Ok?;
    var order := created.reply.value;
    var s1 := created.state;
    assert s1.orders == s.orders + [order];
    forall i | 0 <= i < |s.orders| ensures s.orders[i].id != orderFreshId {
      assert s.orders[i] in s.orders;
    }
    assert OrderLedger.IndexOfId(s1.orders, orderFreshId) == Some(|s.orders|) by {
      IndexOfAppended(s.orders, order);
    }
    assert PatchOrderValid(order.id, PatchOrderBody("Completed"));
    var patched := PatchOrderById(s1, env, h, order.id, PatchOrderBody("Completed"));
    assert patched.reply.Ok?;
    var s2 := patched.state;
    assert s2.orders[|s.orders|].id == orderFreshId;
    var tb := CreateTransactionBody(txRef, order.id, amount, pm, timestamp);
    assert CreateTransactionValid(tb);
    assert TransactionLedger.OrderExists(s2.orders, orderFreshId) by {
      assert s2.orders[|s.orders|].id == orderFreshId;
    }
  }

  /** Looking up the id of an order appended under a fresh id finds it at the end. */
  lemma {:induction false} IndexOfAppended(orders: seq<Order>, o: Order)
    requires forall i :: 0 <= i < |orders| ==> orders[i].id != o.id
    ensures OrderLedger.IndexOfId(orders + [o], o.id) == Some(|orders|)
  {
    if |orders| > 0 {
      assert (orders + [o])[1..] == orders[1..] + [o];
      IndexOfAppended(orders[1..], o);
    }
  }

  const PaymentMethods: seq<string> := ["card", "paypal", "bank_transfer", "crypto"]

  /** The "Create Dummy Transaction" button. `orderStamp` and `txStamp` are
      the two clock readings taken for the order and the transaction
      references, `amount` and `pm` the random draws. Success shows a toast
      and reloads; a failure shows the server's error. */
  function DummyTransaction(s: Server, env: Env, token: Option<string>, orderStamp: string, txStamp: string,
                            amount: int, pm: string, timestamp: string, orderFreshId: string, txFreshId: string)
    : (res: (Server, ActionOutcome))
    requires 50 <= amount < 550 && pm in PaymentMethods
    ensures res.1.Toasted? || res.1.ReloadedPage?
    ensures res.1.Toasted? ==>
              && !res.1.toast.success && res.0.ledger == s.ledger
              && var r := CompleteAndPay(s, env, AuthHeader(token), "DUMMY-" + orderStamp, "dummy", "Dummy Product", amount,
                                         "TX-DUMMY-" + txStamp, pm, timestamp, orderFreshId, txFreshId).reply;
              && r.Fail? && res.1.toast.message == ErrorText(r.failure, "Failed to create dummy transaction")
    ensures res.1.ReloadedPage? ==>
              && res.1.notice == Some(Toast(true, "Dummy transaction created"))
              && res.1.data == LoadPage(res.0, env, token)
              && |res.0.ledger.txs| == |s.ledger.txs| + 1
              && var t := res.0.ledger.txs[|s.ledger.txs|];
              && res.0.ledger.txs == s.ledger.txs + [t]
              && t.transactionId == "TX-DUMMY-" + txStamp && t.amount == amount && t.paymentMethod == pm
  {
    var st := CompleteAndPay(s, env, AuthHeader(token), "DUMMY-" + orderStamp, "dummy", "Dummy Product", amount,
                             "TX-DUMMY-" + txStamp, pm, timestamp, orderFreshId, txFreshId);
    match st.reply
    case Fail(f) => (st.state, Toasted(Toast(false, ErrorText(f, "Failed to create dummy transaction"))))
    case Ok(_) => (st.state, ReloadedPage(Some(Toast(true, "Dummy transaction created")), LoadPage(st.state, env, token)))
  }

  /** From a valid store, for a signed-in caller with a canonical user id and
      unused references, the dummy button succeeds: the page reloads with the
      success toast, and the store gains exactly one Completed order whose
      total is the drawn amount and one transaction paying it that amount;
      the earlier orders are untouched. */
  lemma DummyTransactionSucceeds(s: Server, env: Env, token: Option<string>, orderStamp: string, txStamp: string,
                                 amount: int, pm: string, timestamp: string, orderFreshId: string, txFreshId: string)
    requires 50 <= amount < 550 && pm in PaymentMethods
    requires Valid(s) && Fresh(s, orderFreshId)
    requires Authenticate(AuthHeader(token), env.crypto.verify).Ok?
    requires IsCanonical(Authenticate(AuthHeader(token), env.crypto.verify).value.userId)
    requires !OrderLedger.OrderIdTaken(s.orders, "DUMMY-" + orderStamp)
    requires !TransactionLedger.TransactionIdTaken(s.ledger.txs, "TX-DUMMY-" + txStamp)
    requires env.parseDate(timestamp).Some?
    ensures var (s', out) := DummyTransaction(s, env, token, orderStamp, txStamp, amount, pm, timestamp,
                                              orderFreshId, txFreshId);
            && out == ReloadedPage(Some(Toast(true, "Dummy transaction created")), LoadPage(s', env, token))
            && |s'.orders| == |s.orders| + 1
            && s'.orders[|s.orders|].id == orderFreshId
            && s'.orders[|s.orders|].orderId == "DUMMY-" + orderStamp
            && s'.orders[|s.orders|].status == Completed
            && s'.orders[|s.orders|].totalAmount == amount
            && s'.orders[..|s.orders|] == s.orders
            && |s'.ledger.txs| == |s.ledger.txs| + 1
            && s'.ledger.txs[|s.ledger.txs|].orderId == orderFreshId
            && s'.ledger.txs[|s.ledger.txs|].amount == amount
  {
    PaymentMethodNonEmpty(pm);
    CompleteAndPaySucceeds(s, env, AuthHeader(token), "DUMMY-" + orderStamp, "dummy", "Dummy Product", amount,
                           "TX-DUMMY-" + txStamp, pm, timestamp, orderFreshId, txFreshId);
  }

  lemma PaymentMethodNonEmpty(pm: string)
    requires pm in PaymentMethods
    ensures pm != ""
  {
    assert pm == "card" || pm == "paypal" || pm == "bank_transfer" || pm == "crypto";
  }
}
