/** The server's routes: each endpoint is its middleware pipeline followed by
    its handler, run over one in-memory server state.

    | route                    | pipeline                                     |
    |--------------------------|----------------------------------------------|
    | POST /auth/register      | validate(register), register                 |
    | POST /auth/login         | validate(login), login                       |
    | POST /orders             | auth, validate(createOrder), createOrder     |
    | GET  /orders             | auth, validate(listOrders), listOrders       |
    | PATCH /orders/:id        | auth, validate(patchOrder), patchOrder       |
    | POST /transactions       | auth, validate(createTransaction), create    |
    | GET  /transactions       | auth, role(admin), listTransactions          |

    A middleware that refuses answers at once, so the first refusing stage
    decides the failure and no later stage runs. */
module Routes {
  import opened Http
  import opened ObjectIds
  import opened Models
  import opened Tokens
  import opened Schemas
  import opened AuthGate
  import opened Credentials
  import OrderLedger
  import TransactionLedger

  /** The server's foreign collaborators. */
  datatype Env = Env(crypto: Crypto, isEmail: string -> bool, parseDate: string -> Option<int>)

  /** The whole store: users, orders, transactions with their emitted events,
      and the clock that stamps `createdAt`. */
  datatype Server = Server(users: seq<User>, orders: seq<Order>, ledger: TransactionLedger.Ledger, clock: nat)

  const Empty: Server := Server([], [], TransactionLedger.Ledger([], []), 0)

  ghost predicate Valid(s: Server) {
    && UsersValid(s.users)
    && OrderLedger.OrdersValid(s.orders, s.clock)
    && TransactionLedger.LedgerValid(s.ledger, s.clock)
    && TransactionLedger.RefsResolve(s.ledger.txs, s.orders)
  }

  lemma EmptyValid()
    ensures Valid(Empty)
  {
  }

  // ---------------------------------------------------------------- auth routes

  /** POST /auth/register: no token; the schema, then the handler. */
  function PostRegister(s: Server, env: Env, body: RegisterBody, freshId: string): (st: Step<Session, Server>)
    ensures !RegisterValid(body, env.isEmail) ==> st == Step(Fail(ValidationFailed), s)
    ensures st.reply.Fail? ==> st.state == s
    ensures RegisterValid(body, env.isEmail) ==>
              var h := Register(s.users, body, env.crypto, freshId);
              st.reply == h.reply && st.state == s.(users := h.state)
  {
    if !RegisterValid(body, env.isEmail) then Step(Fail(ValidationFailed), s)
    else
      var h := Register(s.users, body, env.crypto, freshId);
      Step(h.reply, s.(users := h.state))
  }

  /** POST /auth/login: no token; the schema, then the handler. */
  function PostLogin(s: Server, env: Env, body: LoginBody): (r: Reply<Session>)
    ensures !LoginValid(body, env.isEmail) ==> r == Fail(ValidationFailed)
    ensures LoginValid(body, env.isEmail) ==> r == Login(s.users, body, env.crypto)
  {
    if !LoginValid(body, env.isEmail) then Fail(ValidationFailed) else Login(s.users, body, env.crypto)
  }

  /** A well-formed registration whose role the schema admits never reaches
      the handler's uncaught failure: it is either a conflict or a new user. */
  lemma ValidRegistrationSettles(s: Server, env: Env, body: RegisterBody, freshId: string)
    requires Coherent(env.crypto)
    requires RegisterValid(body, env.isEmail) && body.email != ""
    ensures var st := PostRegister(s, env, body, freshId);
            st.reply.Ok? || st.reply == Fail(Conflict("Email already in use"))
  {
    assert env.crypto.hash(body.password) != "";
    if body.role.Some? && body.role.value != "" {
      assert ParseRole(body.role.value).Some?;
    }
  }

  // --------------------------------------------------------------- order routes

  function ClockAfter(s: Server, ok: bool): nat {
    if ok then s.clock + 1 else s.clock
  }

  /** POST /orders: authentication, the schema, then the handler; no role
      restriction. */
  function PostOrder(s: Server, env: Env, header: Option<string>, body: CreateOrderBody, freshId: string)
    : (st: Step<Order, Server>)
    ensures Authenticate(header, env.crypto.verify).Fail? ==>
              st == Step(Fail(Authenticate(header, env.crypto.verify).failure), s)
    ensures Authenticate(header, env.crypto.verify).Ok? && !CreateOrderValid(body) ==>
              st == Step(Fail(ValidationFailed), s)
    ensures st.reply.Fail? ==> st.state == s
    ensures Authenticate(header, env.crypto.verify).Ok? && CreateOrderValid(body) ==>
              var h := OrderLedger.CreateOrder(s.orders, Authenticate(header, env.crypto.verify).value,
                                               body, freshId, s.clock);
              st.reply == h.reply && st.state == s.(orders := h.state, clock := ClockAfter(s, h.reply.Ok?))
  {
    match Authenticate(header, env.crypto.verify)
    case Fail(f) => Step(Fail(f), s)
    case Ok(who) =>
      if !CreateOrderValid(body) then Step(Fail(ValidationFailed), s)
      else
        var h := OrderLedger.CreateOrder(s.orders, who, body, freshId, s.clock);
        Step(h.reply, s.(orders := h.state, clock := ClockAfter(s, h.reply.Ok?)))
  }

  /** The status filter the list handler receives: absent, or the parsed enum. */
  function QueryStatus(q: ListOrdersQuery): Option<Status> {
    if q.status.None? then None else ParseStatus(q.status.value)
  }

  /** GET /orders: authentication, the schema, then the handler; no role
      restriction; scoping happens in the handler. */
  function GetOrders(s: Server, env: Env, header: Option<string>, q: ListOrdersQuery): (r: Reply<seq<Order>>)
    ensures Authenticate(header, env.crypto.verify).Fail? ==> r == Fail(Authenticate(header, env.crypto.verify).failure)
    ensures Authenticate(header, env.crypto.verify).Ok? && !ListOrdersValid(q) ==> r == Fail(ValidationFailed)
    ensures Authenticate(header, env.crypto.verify).Ok? && ListOrdersValid(q) ==>
              r == OrderLedger.ListOrders(s.orders, Authenticate(header, env.crypto.verify).value, QueryStatus(q))
  {
    match Authenticate(header, env.crypto.verify)
    case Fail(f) => Fail(f)
    case Ok(who) =>
      if !ListOrdersValid(q) then Fail(ValidationFailed)
      else OrderLedger.ListOrders(s.orders, who, QueryStatus(q))
  }

  /** PATCH /orders/:id: authentication, the schema over the path id and the
      body, then the handler; ownership is checked only in the handler. */
  function PatchOrderById(s: Server, env: Env, header: Option<string>, id: string, body: PatchOrderBody)
    : (st: Step<Order, Server>)
    ensures Authenticate(header, env.crypto.verify).Fail? ==>
              st == Step(Fail(Authenticate(header, env.crypto.verify).failure), s)
    ensures Authenticate(header, env.crypto.verify).Ok? && !PatchOrderValid(id, body) ==>
              st == Step(Fail(ValidationFailed), s)
    ensures st.reply.Fail? ==> st.state == s
    ensures Authenticate(header, env.crypto.verify).Ok? && PatchOrderValid(id, body) ==>
              var h := OrderLedger.PatchOrder(s.orders, Authenticate(header, env.crypto.verify).value, id, body.status);
              st.reply == h.reply && st.state == s.(orders := h.state)
  {
    match Authenticate(header, env.crypto.verify)
    case Fail(f) => Step(Fail(f), s)
    case Ok(who) =>
      if !PatchOrderValid(id, body) then Step(Fail(ValidationFailed), s)
      else
        var h := OrderLedger.PatchOrder(s.orders, who, id, body.status);
        Step(h.reply, s.(orders := h.state))
  }

  // --------------------------------------------------------- transaction routes

  /** POST /transactions: authentication, the schema, then the handler; any
      authenticated user, for any existing order. */
  function PostTransaction(s: Server, env: Env, header: Option<string>, body: CreateTransactionBody, freshId: string)
    : (st: Step<Transaction, Server>)
    ensures Authenticate(header, env.crypto.verify).Fail? ==>
              st == Step(Fail(Authenticate(header, env.crypto.verify).failure), s)
    ensures Authenticate(header, env.crypto.verify).Ok? && !CreateTransactionValid(body) ==>
              st == Step(Fail(ValidationFailed), s)
    ensures st.reply.Fail? ==> st.state == s
    ensures Authenticate(header, env.crypto.verify).Ok? && CreateTransactionValid(body) ==>
              var h := TransactionLedger.CreateTransaction(s.orders, s.ledger, body, env.parseDate, freshId, s.clock);
              st.reply == h.reply && st.state == s.(ledger := h.state, clock := ClockAfter(s, h.reply.Ok?))
  {
    match Authenticate(header, env.crypto.verify)
    case Fail(f) => Step(Fail(f), s)
    case Ok(_) =>
      if !CreateTransactionValid(body) then Step(Fail(ValidationFailed), s)
      else
        var h := TransactionLedger.CreateTransaction(s.orders, s.ledger, body, env.parseDate, freshId, s.clock);
        Step(h.reply, s.(ledger := h.state, clock := ClockAfter(s, h.reply.Ok?)))
  }

  /** GET /transactions: authentication, then the admin-only role check; no
      validation stage. */
  function GetTransactions(s: Server, env: Env, header: Option<string>): (r: Reply<seq<Transaction>>)
    ensures Authenticate(header, env.crypto.verify).Fail? ==> r == Fail(Authenticate(header, env.crypto.verify).failure)
    ensures Authenticate(header, env.crypto.verify).Ok? && Authenticate(header, env.crypto.verify).value.role == Customer ==>
              r == Fail(Forbidden)
    ensures Authenticate(header, env.crypto.verify).Ok? && Authenticate(header, env.crypto.verify).value.role == Admin ==>
              r == Ok(TransactionLedger.ListTransactions(s.ledger.txs))
  {
    match Authenticate(header, env.crypto.verify)
    case Fail(f) => Fail(f)
    case Ok(who) =>
      match RequireRole(Some(who), [Admin])
      case Fail(f) => Fail(f)
      case Ok(_) => Ok(TransactionLedger.ListTransactions(s.ledger.txs))
  }

  /** Without a token every protected route answers 401, whatever the request
      body: authentication precedes validation and the role check. */
  lemma MissingTokenWins(s: Server, env: Env, ob: CreateOrderBody, q: ListOrdersQuery, id: string,
                         pb: PatchOrderBody, tb: CreateTransactionBody, freshId: string)
    ensures PostOrder(s, env, None, ob, freshId) == Step(Fail(Unauthorized("Unauthorized")), s)
    ensures GetOrders(s, env, None, q) == Fail(Unauthorized("Unauthorized"))
    ensures PatchOrderById(s, env, None, id, pb) == Step(Fail(Unauthorized("Unauthorized")), s)
    ensures PostTransaction(s, env, None, tb, freshId) == Step(Fail(Unauthorized("Unauthorized")), s)
    ensures GetTransactions(s, env, None) == Fail(Unauthorized("Unauthorized"))
  {
  }

  // ---------------------------------------------------- the whole-server invariant

  /** All system ids in use. */
  ghost function SystemIds(s: Server): set<string> {
    (set u | u in s.users :: u.id) + (set o | o in s.orders :: o.id) + (set t | t in s.ledger.txs :: t.id)
  }

  ghost predicate Fresh(s: Server, id: string) {
    IsCanonical(id) && id !in SystemIds(s)
  }

  /** Any request the server can receive. */
  datatype Request =
    | RegisterReq(register: RegisterBody)
    | LoginReq(login: LoginBody)
    | CreateOrderReq(header: Option<string>, createOrder: CreateOrderBody)
    | ListOrdersReq(header: Option<string>, query: ListOrdersQuery)
    | PatchOrderReq(header: Option<string>, id: string, patch: PatchOrderBody)
    | CreateTransactionReq(header: Option<string>, createTransaction: CreateTransactionBody)
    | ListTransactionsReq(header: Option<string>)

  /** The state after serving one request; `freshId` is the id the store would
      assign to a record it creates. */
  function Handle(s: Server, env: Env, req: Request, freshId: string): (s': Server)
    ensures req.LoginReq? || req.ListOrdersReq? || req.ListTransactionsReq? ==> s' == s
    ensures req.RegisterReq? ==> s'.orders == s.orders && s'.ledger == s.ledger
    ensures req.CreateOrderReq? || req.PatchOrderReq? ==> s'.users == s.users && s'.ledger == s.ledger
    ensures req.CreateTransactionReq? ==> s'.users == s.users && s'.orders == s.orders
  {
    match req
    case RegisterReq(b) => PostRegister(s, env, b, freshId).state
    case LoginReq(_) => s
    case CreateOrderReq(h, b) => PostOrder(s, env, h, b, freshId).state
    case ListOrdersReq(_, _) => s
    case PatchOrderReq(h, id, b) => PatchOrderById(s, env, h, id, b).state
    case CreateTransactionReq(h, b) => PostTransaction(s, env, h, b, freshId).state
    case ListTransactionsReq(_) => s
  }

  lemma OrdersValidLater(orders: seq<Order>, clock: nat, later: nat)
    requires OrderLedger.OrdersValid(orders, clock) && clock <= later
    ensures OrderLedger.OrdersValid(orders, later)
  {
  }

  lemma LedgerValidLater(led: TransactionLedger.Ledger, clock: nat, later: nat)
    requires TransactionLedger.LedgerValid(led, clock) && clock <= later
    ensures TransactionLedger.LedgerValid(led, later)
  {
  }

  lemma PostOrderPreservesValid(s: Server, env: Env, h: Option<string>, b: CreateOrderBody, freshId: string)
    requires Valid(s) && Fresh(s, freshId)
    ensures Valid(PostOrder(s, env, h, b, freshId).state)
    ensures SystemIds(PostOrder(s, env, h, b, freshId).state) <= SystemIds(s) + {freshId}
  {
    var st := PostOrder(s, env, h, b, freshId);
    if st.reply.Ok? {
      var who := Authenticate(h, env.crypto.verify).value;
      forall i | 0 <= i < |s.orders| ensures s.orders[i].id != freshId {
        assert s.orders[i] in s.orders;
      }
      OrderLedger.CreateOrderPreservesValid(s.orders, who, b, freshId, s.clock);
      LedgerValidLater(s.ledger, s.clock, s.clock + 1);
      TransactionLedger.RefsResolveGrowing(s.ledger.txs, s.orders, st.state.orders);
      assert st.state.orders == s.orders + [st.reply.value];
    }
  }

  /** Rewriting orders in place without touching their ids keeps the id set. */
  lemma SameIdsSameSet(a: seq<Order>, b: seq<Order>)
    requires |a| == |b|
    requires forall j :: 0 <= j < |a| ==> a[j].id == b[j].id
    ensures (set o | o in b :: o.id) <= (set o | o in a :: o.id)
  {
    forall o | o in b ensures o.id in (set o | o in a :: o.id) {
      var j :| 0 <= j < |b| && b[j] == o;
      assert a[j] in a;
    }
  }

  lemma PatchPreservesValid(s: Server, env: Env, h: Option<string>, id: string, b: PatchOrderBody)
    requires Valid(s)
    ensures Valid(PatchOrderById(s, env, h, id, b).state)
    ensures SystemIds(PatchOrderById(s, env, h, id, b).state) <= SystemIds(s)
  {
    var st := PatchOrderById(s, env, h, id, b);
    if st.reply.Ok? {
      var who := Authenticate(h, env.crypto.verify).value;
      OrderLedger.PatchOrderPreservesValid(s.orders, s.clock, who, id, b.status);
      var i := OrderLedger.IndexOfId(s.orders, Cast(id).value).value;
      var orders' := s.orders[i := st.reply.value];
      assert st.state == s.(orders := orders');
      assert forall j :: 0 <= j < |s.orders| ==> orders'[j].id == s.orders[j].id;
      TransactionLedger.RefsResolveGrowing(s.ledger.txs, s.orders, orders');
      SameIdsSameSet(s.orders, orders');
    }
  }

  lemma PostTransactionPreservesValid(s: Server, env: Env, h: Option<string>, b: CreateTransactionBody, freshId: string)
    requires Valid(s) && Fresh(s, freshId)
    ensures Valid(PostTransaction(s, env, h, b, freshId).state)
    ensures SystemIds(PostTransaction(s, env, h, b, freshId).state) <= SystemIds(s) + {freshId}
  {
    var st := PostTransaction(s, env, h, b, freshId);
    if st.reply.Ok? {
      forall i | 0 <= i < |s.ledger.txs| ensures s.ledger.txs[i].id != freshId {
        assert s.ledger.txs[i] in s.ledger.txs;
      }
      TransactionLedger.CreatePreservesValid(s.orders, s.ledger, b, env.parseDate, freshId, s.clock);
      OrdersValidLater(s.orders, s.clock, s.clock + 1);
      assert st.state.ledger.txs == s.ledger.txs + [st.reply.value];
    }
  }

  lemma PostRegisterPreservesValid(s: Server, env: Env, b: RegisterBody, freshId: string)
    requires Valid(s) && Fresh(s, freshId)
    ensures Valid(PostRegister(s, env, b, freshId).state)
    ensures SystemIds(PostRegister(s, env, b, freshId).state) <= SystemIds(s) + {freshId}
  {
    var st := PostRegister(s, env, b, freshId);
    if st.reply.Ok? {
      assert forall u :: u in s.users ==> u.id != freshId;
      RegisterPreservesValid(s.users, b, env.crypto, freshId);
      assert st.state.users == s.users + [st.state.users[|s.users|]];
    }
  }

  /** Serving any request keeps the store valid and introduces no system id
      other than the fresh one. */
  lemma HandlePreservesValid(s: Server, env: Env, req: Request, freshId: string)
    requires Valid(s) && Fresh(s, freshId)
    ensures Valid(Handle(s, env, req, freshId))
    ensures SystemIds(Handle(s, env, req, freshId)) <= SystemIds(s) + {freshId}
  {
    match req
    case RegisterReq(b) => PostRegisterPreservesValid(s, env, b, freshId);
    case LoginReq(_) =>
    case CreateOrderReq(h, b) => PostOrderPreservesValid(s, env, h, b, freshId);
    case ListOrdersReq(_, _) =>
    case PatchOrderReq(h, id, b) => PatchPreservesValid(s, env, h, id, b);
    case CreateTransactionReq(h, b) => PostTransactionPreservesValid(s, env, h, b, freshId);
    case ListTransactionsReq(_) =>
  }

  /** Serving requests in order, the k-th with the k-th fresh id. */
  function Run(s: Server, env: Env, reqs: seq<Request>, ids: seq<string>): Server
    requires |ids| == |reqs|
    decreases |reqs|
  {
    if |reqs| == 0 then s else Run(Handle(s, env, reqs[0], ids[0]), env, reqs[1..], ids[1..])
  }

  /** The ids in `ids` are canonical, pairwise distinct and unused in `s`. */
  ghost predicate FreshIds(s: Server, ids: seq<string>) {
    && (forall k :: 0 <= k < |ids| ==> IsCanonical(ids[k]) && ids[k] !in SystemIds(s))
    && (forall k, l :: 0 <= k < l < |ids| ==> ids[k] != ids[l])
  }

  lemma FreshTail(s: Server, s1: Server, ids: seq<string>)
    requires |ids| > 0 && FreshIds(s, ids)
    requires SystemIds(s1) <= SystemIds(s) + {ids[0]}
    ensures FreshIds(s1, ids[1..])
  {
    var rest := ids[1..];
    forall k | 0 <= k < |rest| ensures IsCanonical(rest[k]) && rest[k] !in SystemIds(s1) {
      assert rest[k] == ids[k + 1];
      assert ids[k + 1] != ids[0];
    }
    forall k, l | 0 <= k < l < |rest| ensures rest[k] != rest[l] {
      assert rest[k] == ids[k + 1] && rest[l] == ids[l + 1];
    }
  }

  /** Whatever requests arrive, in whatever order, the store stays valid:
      external order, transaction and e-mail ids stay unique, every
      transaction refers to an existing order and was announced exactly once,
      and `createdAt` keeps increasing. The store assigns distinct fresh ids. */
  lemma {:induction false} RunPreservesValid(s: Server, env: Env, reqs: seq<Request>, ids: seq<string>)
    requires |ids| == |reqs|
    requires Valid(s) && FreshIds(s, ids)
    ensures Valid(Run(s, env, reqs, ids))
    decreases |reqs|
  {
    if |reqs| > 0 {
      var s1 := Handle(s, env, reqs[0], ids[0]);
      HandlePreservesValid(s, env, reqs[0], ids[0]);
      FreshTail(s, s1, ids);
      RunPreservesValid(s1, env, reqs[1..], ids[1..]);
    }
  }
}
