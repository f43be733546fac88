/** The real-time monitor page: a socket subscription that keeps the fifty
    newest announced transactions, newest first, a connection indicator, and
    a test button that runs the create–complete–pay sequence. */
module RealtimeFeed {
  import opened Http
  import opened Seqs
  import opened ObjectIds
  import opened Models
  import opened AuthGate
  import opened ClientSession
  import opened Routes
  import opened TransactionLedger
  import opened TransactionsPage
  import OrderLedger

  /** How many events the feed keeps. */
  const FeedLimit: nat := 50

  function Min(a: nat, b: nat): nat {
    if a <= b then a else b
  }

  /** The handler for one announcement: prepend, then keep the first fifty. */
  function OnNewTx(prev: seq<LiveTx>, e: LiveTx): (r: seq<LiveTx>)
    ensures |r| == Min(|prev| + 1, FeedLimit)
    ensures r[0] == e
    ensures forall i :: 1 <= i < |r| ==> r[i] == prev[i - 1]
  {
    ([e] + prev)[..Min(|prev| + 1, FeedLimit)]
  }

  /** The feed after a run of announcements received oldest first. */
  function FeedAfter(events: seq<LiveTx>): seq<LiveTx> {
    if |events| == 0 then [] else OnNewTx(FeedAfter(events[..|events| - 1]), events[|events| - 1])
  }

  /** The feed is always the newest fifty announcements, newest first. */
  lemma {:induction false} FeedIsNewestFifty(events: seq<LiveTx>)
    ensures FeedAfter(events) == Reverse(events)[..Min(|events|, FeedLimit)]
  {
    if |events| > 0 {
      var n := |events|;
      var init := events[..n - 1];
      FeedIsNewestFifty(init);
      var f := FeedAfter(events);
      var want := Reverse(events)[..Min(n, FeedLimit)];
      assert |f| == |want|;
      forall i | 0 <= i < |f| ensures f[i] == want[i] {
        if i > 0 {
          assert f[i] == FeedAfter(init)[i - 1];
          assert Reverse(init)[i - 1] == init[n - 2 - (i - 1)];
        }
      }
    }
  }

  /** The page's state: the feed, the connection indicator, whether the
      announcement handler is still subscribed, and whether a test is
      running. */
  datatype Monitor = Monitor(feed: seq<LiveTx>, connected: bool, listening: bool, testing: bool)

  /** Just mounted: empty, not yet connected, subscribed. */
  const Mounted: Monitor := Monitor([], false, true, false)

  datatype SocketEvent = Connect | Disconnect | NewTx(payload: LiveTx)

  /** One socket event; once unsubscribed nothing changes the page. */
  function Deliver(m: Monitor, e: SocketEvent): (m': Monitor)
    ensures !m.listening ==> m' == m
    ensures m'.listening == m.listening && m'.testing == m.testing
  {
    if !m.listening then m
    else match e
      case Connect => m.(connected := true)
      case Disconnect => m.(connected := false)
      case NewTx(p) => m.(feed := OnNewTx(m.feed, p))
  }

  function DeliverAll(m: Monitor, es: seq<SocketEvent>): Monitor {
    if |es| == 0 then m else Deliver(DeliverAll(m, es[..|es| - 1]), es[|es| - 1])
  }

  /** Unmounting unsubscribes the handler and closes the socket. */
  function Teardown(m: Monitor): (m': Monitor)
    ensures !m'.listening && !m'.connected && m'.feed == m.feed
  {
    m.(listening := false, connected := false)
  }

  /** After teardown no event reaches the page. */
  lemma {:induction false} TornDownIgnoresEvents(m: Monitor, es: seq<SocketEvent>)
    ensures DeliverAll(Teardown(m), es) == Teardown(m)
  {
    if |es| > 0 {
      TornDownIgnoresEvents(m, es[..|es| - 1]);
    }
  }

  /** The announcements among the socket events, in arrival order. */
  function Payloads(es: seq<SocketEvent>): seq<LiveTx> {
    if |es| == 0 then []
    else Payloads(es[..|es| - 1]) + (if es[|es| - 1].NewTx? then [es[|es| - 1].payload] else [])
  }

  /** Whether the last connection event was a connect (false before any). */
  function LastLinkState(es: seq<SocketEvent>): bool {
    if |es| == 0 then false
    else match es[|es| - 1]
      case Connect => true
      case Disconnect => false
      case NewTx(_) => LastLinkState(es[..|es| - 1])
  }

  /** From mounting, the indicator follows the last connection event and the
      feed is the newest fifty announcements, newest first; connection
      changes do not touch the feed. */
  lemma {:induction false} MonitorFromMount(es: seq<SocketEvent>)
    ensures DeliverAll(Mounted, es).connected == LastLinkState(es)
    ensures DeliverAll(Mounted, es).feed == FeedAfter(Payloads(es))
    ensures DeliverAll(Mounted, es).listening
  {
    if |es| > 0 {
      var init := es[..|es| - 1];
      MonitorFromMount(init);
      if es[|es| - 1].NewTx? {
        assert Payloads(es) == Payloads(init) + [es[|es| - 1].payload];
        assert Payloads(es)[..|Payloads(es)| - 1] == Payloads(init);
      } else {
        assert Payloads(es) == Payloads(init);
      }
    }
  }

  /** The socket events carrying the server's announcements. */
  function AsSocketEvents(log: seq<Emitted>): (es: seq<SocketEvent>)
    ensures |es| == |log|
    ensures forall i :: 0 <= i < |log| ==> es[i] == NewTx(log[i].payload)
  {
    if |log| == 0 then [] else AsSocketEvents(log[..|log| - 1]) + [NewTx(log[|log| - 1].payload)]
  }

  /** The payloads of a run of announcements. */
  function LogPayloads(log: seq<Emitted>): (ps: seq<LiveTx>)
    ensures |ps| == |log|
    ensures forall i :: 0 <= i < |log| ==> ps[i] == log[i].payload
  {
    if |log| == 0 then [] else LogPayloads(log[..|log| - 1]) + [log[|log| - 1].payload]
  }

  lemma {:induction false} PayloadsOfAnnouncements(log: seq<Emitted>)
    ensures Payloads(AsSocketEvents(log)) == LogPayloads(log)
  {
    if |log| > 0 {
      var init := log[..|log| - 1];
      PayloadsOfAnnouncements(init);
      assert AsSocketEvents(log)[..|log| - 1] == AsSocketEvents(init);
    }
  }

  /** Receiving a run of announcements from mounting shows the newest of
      them, up to fifty, newest first. */
  lemma FeedOfLog(log: seq<Emitted>)
    ensures var feed := DeliverAll(Mounted, AsSocketEvents(log)).feed;
            && |feed| == Min(|log|, FeedLimit)
            && forall i :: 0 <= i < |feed| ==> feed[i] == log[|log| - 1 - i].payload
  {
    var es := AsSocketEvents(log);
    MonitorFromMount(es);
    PayloadsOfAnnouncements(log);
    var ps := LogPayloads(log);
    FeedIsNewestFifty(ps);
    NewestPayloads(log, ps, DeliverAll(Mounted, es).feed);
  }

  lemma NewestPayloads(log: seq<Emitted>, ps: seq<LiveTx>, feed: seq<LiveTx>)
    requires ps == LogPayloads(log)
    requires feed == Reverse(ps)[..Min(|ps|, FeedLimit)]
    ensures |feed| == Min(|log|, FeedLimit)
    ensures forall i :: 0 <= i < |feed| ==> feed[i] == log[|log| - 1 - i].payload
  {
  }

  /** A monitor mounted when the ledger had announced `k` transactions, that
      then receives every later announcement, shows the newest of the
      transactions persisted since, up to fifty, newest first, each with the
      stored record's fields. */
  lemma FeedShowsNewestTransactions(led: Ledger, clock: nat, k: nat)
    requires LedgerValid(led, clock) && k <= |led.txs|
    ensures var feed := DeliverAll(Mounted, AsSocketEvents(led.log[k..])).feed;
            && |feed| == Min(|led.txs| - k, FeedLimit)
            && forall i :: 0 <= i < |feed| ==> feed[i] == Announce(led.txs[|led.txs| - 1 - i]).payload
  {
    var log := led.log[k..];
    FeedOfLog(log);
    var feed := DeliverAll(Mounted, AsSocketEvents(log)).feed;
    forall i | 0 <= i < |feed| ensures feed[i] == Announce(led.txs[|led.txs| - 1 - i]).payload {
      assert log[|log| - 1 - i] == led.log[|led.txs| - 1 - i];
    }
  }

  /** The test button, enabled only while connected and no test runs.
      `orderStamp` and `txStamp` are the two clock readings taken for the
      order and the transaction references. The sequence's outcome is only
      logged; the page learns of the new transaction through the socket like
      any other. */
  function TestTransaction(s: Server, env: Env, token: Option<string>, m: Monitor, orderStamp: string, txStamp: string,
                           amount: int, pm: string, timestamp: string, orderFreshId: string, txFreshId: string)
    : (res: (Server, Monitor))
    requires 50 <= amount < 550 && pm in PaymentMethods
    ensures !m.connected || m.testing ==> res == (s, m)
    ensures res.1 == m
    ensures |res.0.ledger.txs| == |s.ledger.txs| || |res.0.ledger.txs| == |s.ledger.txs| + 1
    ensures |res.0.ledger.txs| == |s.ledger.txs| + 1 ==>
              && var t := res.0.ledger.txs[|s.ledger.txs|];
              && res.0.ledger.txs == s.ledger.txs + [t]
              && t.transactionId == "TX-TEST-" + txStamp && t.amount == amount && t.paymentMethod == pm
  {
    if !m.connected || m.testing then (s, m)
    else
      var st := TestSequence(s, env, token, orderStamp, txStamp, amount, pm, timestamp, orderFreshId, txFreshId);
      (st.state, m)
  }

  /** The three calls the test button makes, with its fixed product and its
      `TEST-` references. */
  function TestSequence(s: Server, env: Env, token: Option<string>, orderStamp: string, txStamp: string,
                        amount: int, pm: string, timestamp: string, orderFreshId: string, txFreshId: string)
    : (st: Step<Transaction, Server>)
    ensures st.reply.Fail? ==> st.state.ledger == s.ledger
    ensures st.reply.Ok? ==>
              && st.state.ledger.txs == s.ledger.txs + [st.reply.value]
              && st.reply.value.transactionId == "TX-TEST-" + txStamp
              && st.reply.value.amount == amount && st.reply.value.paymentMethod == pm
  {
    CompleteAndPay(s, env, AuthHeader(token), "TEST-" + orderStamp, "test", "Test Product", amount,
                   "TX-TEST-" + txStamp, pm, timestamp, orderFreshId, txFreshId)
  }

  /** Under the success hypotheses the sequence ends with exactly one more
      announcement, of the transaction it posted for the new order. */
  lemma TestSequenceSucceeds(s: Server, env: Env, token: Option<string>, orderStamp: string, txStamp: string,
                             amount: int, pm: string, timestamp: string, orderFreshId: string, txFreshId: string)
    requires pm in PaymentMethods
    requires Valid(s) && Fresh(s, orderFreshId)
    requires Authenticate(AuthHeader(token), env.crypto.verify).Ok?
    requires IsCanonical(Authenticate(AuthHeader(token), env.crypto.verify).value.userId)
    requires amount >= 0
    requires !OrderLedger.OrderIdTaken(s.orders, "TEST-" + orderStamp)
    requires !TransactionIdTaken(s.ledger.txs, "TX-TEST-" + txStamp)
    requires env.parseDate(timestamp).Some?
    ensures var st := TestSequence(s, env, token, orderStamp, txStamp, amount, pm, timestamp, orderFreshId, txFreshId);
            && st.reply.Ok? && st.reply.value.orderId == orderFreshId
            && st.reply.value.transactionId == "TX-TEST-" + txStamp
            && st.reply.value.amount == amount && st.reply.value.paymentMethod == pm
            && st.state.ledger.log == s.ledger.log + [Announce(st.reply.value)]
  {
    PaymentMethodNonEmpty(pm);
    CompleteAndPaySucceeds(s, env, AuthHeader(token), "TEST-" + orderStamp, "test", "Test Product", amount,
                           "TX-TEST-" + txStamp, pm, timestamp, orderFreshId, txFreshId);
  }

  /** A successful test announces exactly one transaction, and delivering
      that announcement puts it at the head of the feed. */
  lemma TestTransactionReachesFeed(s: Server, env: Env, token: Option<string>, m: Monitor, orderStamp: string,
                                   txStamp: string, amount: int, pm: string, timestamp: string,
                                   orderFreshId: string, txFreshId: string)
    requires 50 <= amount < 550 && pm in PaymentMethods
    requires m.connected && !m.testing && m.listening
    requires Valid(s) && Fresh(s, orderFreshId)
    requires Authenticate(AuthHeader(token), env.crypto.verify).Ok?
    requires IsCanonical(Authenticate(AuthHeader(token), env.crypto.verify).value.userId)
    requires !OrderLedger.OrderIdTaken(s.orders, "TEST-" + orderStamp)
    requires !TransactionIdTaken(s.ledger.txs, "TX-TEST-" + txStamp)
    requires env.parseDate(timestamp).Some?
    ensures var (s', m') := TestTransaction(s, env, token, m, orderStamp, txStamp, amount, pm, timestamp,
                                            orderFreshId, txFreshId);
            && |s'.ledger.log| == |s.ledger.log| + 1
            && var p := s'.ledger.log[|s.ledger.log|].payload;
            && p.transactionId == "TX-TEST-" + txStamp && p.orderId == orderFreshId
            && p.amount == amount && p.paymentMethod == pm
            && |Deliver(m', NewTx(p)).feed| > 0 && Deliver(m', NewTx(p)).feed[0] == p
  {
    TestSequenceSucceeds(s, env, token, orderStamp, txStamp, amount, pm, timestamp, orderFreshId, txFreshId);
    var st := TestSequence(s, env, token, orderStamp, txStamp, amount, pm, timestamp, orderFreshId, txFreshId);
    assert TestTransaction(s, env, token, m, orderStamp, txStamp, amount, pm, timestamp, orderFreshId, txFreshId)
           == (st.state, m);
    AnnouncementHeadsFeed(m, s.ledger.log, st.state.ledger.log, st.reply.value);
  }

  /** One more announcement in the log, delivered to a subscribed monitor,
      becomes the head of its feed, carrying the announced transaction. */
  lemma AnnouncementHeadsFeed(m: Monitor, before: seq<Emitted>, after: seq<Emitted>, t: Transaction)
    requires m.listening && after == before + [Announce(t)]
    ensures |after| == |before| + 1
    ensures var p := after[|before|].payload;
            && p.transactionId == t.transactionId && p.orderId == t.orderId
            && p.amount == t.amount && p.paymentMethod == t.paymentMethod
            && |Deliver(m, NewTx(p)).feed| > 0 && Deliver(m, NewTx(p)).feed[0] == p
  {
  }
}
