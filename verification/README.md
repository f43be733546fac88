# Order and transaction tracker — a Dafny model

A model of a small order/transaction tracker: an HTTP API with JSON Web
Token authentication, role-based access, orders owned by users,
transactions recorded against orders and announced live over a socket,
and the browser pages that drive the API (route guards, the orders page,
the admin transactions page and the real-time monitor).

The server is modelled as pure functions over one in-memory state
(`Routes.Server`: users, orders, transactions with the events they
emitted, and a clock that stamps `createdAt`). Each endpoint is its
middleware pipeline — authentication, schema validation, role check —
followed by its handler, and answers a typed `Reply`: a value or a
failure carrying the HTTP status and `error` text the code sends. Each
client page is a function that calls the server model with the header
the client attaches, and returns the new server state and what the page
shows.

Modules, in dependency order:

| module | file | concern |
|---|---|---|
| `Http` | http.dfy | roles, statuses, failures and their status codes and messages |
| `Seqs` | seqs.dfy | order-preserving filter, reversal, sortedness |
| `ObjectIds` | object_ids.dfy | 24-hex database ids and how request text is cast to them |
| `Models` | models.dfy | users, orders with items, transactions; what the database schemas accept |
| `Tokens` | tokens.dfy | hashing and token signing as opaque functions, and the facts assumed of them |
| `Schemas` | schemas.dfy | request bodies and the request-validation schemas |
| `AuthGate` | auth_gate.dfy | the `Bearer` header parser, authentication and role middleware |
| `Credentials` | credentials.dfy | register and login |
| `OrderLedger` | order_ledger.dfy | create, list and patch orders |
| `TransactionLedger` | transaction_ledger.dfy | create (and announce) and list transactions |
| `Routes` | routes.dfy | every endpoint's pipeline; the whole-server invariant |
| `ClientSession` | client_session.dfy | the stored token, the request header, toasts |
| `RouteGuards` | route_guards.dfy | the protected and admin route guards |
| `OrdersPage` | orders_page.dfy | the orders page |
| `TransactionsPage` | transactions_page.dfy | the transactions page and the create–complete–pay sequence |
| `RealtimeFeed` | realtime_feed.dfy | the live monitor |

Foreign pieces are parameters. Password hashing, token signing and
verification are function fields of `Tokens.Crypto`. `Tokens.Coherent`
states the only facts assumed of them: a password matches its own hash,
a signed token verifies to its claims, and tokens are non-empty with no
space. The e-mail format check and the date parser are fields of
`Routes.Env`. The database's fresh ids and the client's clock readings
(`Date.now()`, ISO timestamps, the random amount and payment method) are
arguments of the operations that use them.

Two kinds of server failure have no typed message:

- `ServerError` is the generic 500 from the error middleware. It is what
  handlers with a try/catch give for a database cast or validation error.
- `Unhandled` is a rejection escaping a handler without try/catch:
  register, login and create-transaction have none.

## Model

| member | source | states |
|---|---|---|
| Http.ParseStatus | server/src/validation/schemas.ts:37-42 | only the three case-sensitive names `Pending`, `Completed`, `Failed` are statuses, and each parses back to its own name |
| Http.ParseRole | server/src/validation/schemas.ts:8 | only `admin` and `customer` are roles, and each parses back to its own name |
| Http.NamesRoundTrip | server/src/models/Order.ts:36 | every role and status survives printing and parsing unchanged |
| Http.StatusCode | server/src/middleware/errorHandler.ts:10-27 | each status names exactly one kind of failure: 400 a rejected request, 401 no or bad credentials, 403 a role refusal, 404 a missing order, 409 a conflict, 500 the error middleware's answer to anything untyped; an escaped rejection gets no status from the handler |
| Http.ErrorMessage | server/src/middleware/errorHandler.ts:24-26 | the untyped 500 carries `Internal Server Error`, a role refusal `Forbidden`, a missing order `Order not found`, the other typed failures their own text; only an escaped rejection has no `error` body |
| Http.WireAnswerDeterminesFailure | server/src/middleware/errorHandler.ts:10-27 | two failures answered with the same status and the same `error` text are the same failure |
| Seqs.Filter | client/src/pages/Orders.tsx:24 | filtering keeps exactly the elements passing the test and never lengthens the list |
| Seqs.FilterAppend | client/src/pages/Transactions.tsx:100 | filtering keeps order: the kept elements of a prefix come before those of the rest |
| Seqs.FilterKeepsAll | client/src/pages/Orders.tsx:24 | a filter leaves a list unchanged exactly when every element passes |
| Seqs.FilterIdempotent | client/src/pages/Orders.tsx:24 | filtering twice by the same test is filtering once |
| Seqs.FilterFilter | client/src/pages/Transactions.tsx:98-101 | two successive filters equal one filter by their conjunction |
| Seqs.Reverse | server/src/controllers/orderController.ts:37 | reversal puts the element at position `i` at position `n-1-i` |
| Seqs.NewestFirst | server/src/controllers/orderController.ts:37 | when creation times increase along the store, the filtered and reversed listing is sorted newest first and holds exactly the passing elements |
| ObjectIds.Cast | server/src/controllers/orderController.ts:49 | casting accepts exactly 24 hex digits in either case, always yields lower-case text, and leaves lower-case text unchanged |
| ObjectIds.SameIdIgnoringCase | server/src/controllers/orderController.ts:49 | two accepted texts name the same id exactly when they agree once letters are lower-cased |
| ObjectIds.CastIdempotent | server/src/controllers/transactionController.ts:15 | casting the text of an id gives that id back |
| Schemas.TotalAmountNotCheckedAgainstItems | server/src/validation/schemas.ts:19-34 | a create-order body can pass validation with a total that differs from the sum of its items |
| Schemas.ValidItemsAccepted | server/src/models/Order.ts:20-28 | every item the request schema admits also passes the database item schema |
| Schemas.JsLength | server/src/validation/schemas.ts:5-7 | a string's length in UTF-16 units, as the schemas' minimum lengths count it: at least its number of characters and at most twice that, and zero only for the empty string |
| Schemas.AstralPasswordAccepted | server/src/validation/schemas.ts:14-15 | a password of three emoji is six units long and meets the six-character minimum, though it holds three characters |
| Schemas.RegisterValid | server/src/validation/schemas.ts:3-10 | a registration needs a name of at least one unit, a well-formed e-mail, a password of at least six UTF-16 units, and a role that is absent or one of the two enum names |
| Schemas.LoginValid | server/src/validation/schemas.ts:12-17 | a login needs a well-formed e-mail and a password of at least six UTF-16 units |
| Schemas.ItemValid | server/src/validation/schemas.ts:24-29 | an item needs a non-empty product id and name, a positive integer quantity and a non-negative price |
| Schemas.CreateOrderValid | server/src/validation/schemas.ts:19-34 | an order needs a non-empty reference, at least one valid item and a non-negative total |
| Schemas.ListOrdersValid | server/src/validation/schemas.ts:36-38 | the list query's status is absent or one of the three status names |
| Schemas.PatchOrderValid | server/src/validation/schemas.ts:40-43 | a patch needs a non-empty id and a status that is one of the three names |
| Schemas.CreateTransactionValid | server/src/validation/schemas.ts:45-53 | a transaction needs a non-empty id, order reference and payment method and a non-negative amount; any timestamp text passes |
| AuthGate.Split | server/src/middleware/auth.ts:20 | splitting on single spaces gives at least one segment and no segment contains a space |
| AuthGate.JoinSplit | server/src/middleware/auth.ts:20 | joining the segments with single spaces gives back the header text |
| AuthGate.SplitJoin | server/src/middleware/auth.ts:20 | splitting undoes joining for segments without spaces |
| AuthGate.BearerToken | server/src/middleware/auth.ts:16-20 | a token is read exactly when the header is present and starts with `Bearer `; the token has no space |
| AuthGate.BearerRoundTrip | server/src/middleware/auth.ts:16-20 | the header `Bearer <token>` is read back as that token for any token without spaces |
| AuthGate.EmptyTokenSegment | server/src/middleware/auth.ts:20-23 | `Bearer ` followed by nothing or by another space yields an empty token |
| AuthGate.Authenticate | server/src/middleware/auth.ts:14-30 | a missing header, a wrong prefix or an empty token give 401 `Unauthorized`; a token that fails to verify gives 401 `Invalid token`; success exactly when the token verifies, with the identity of its claims |
| AuthGate.IssuedTokenAuthenticates | server/src/middleware/auth.ts:14-30 | a header built from a token the server signed authenticates as exactly the signed identity |
| AuthGate.RequireRole | server/src/middleware/auth.ts:32-39 | the role check admits exactly an attached identity whose role is in the allow-list; otherwise 403 |
| Credentials.FindByEmail | server/src/controllers/authController.ts:14 | the lookup finds a stored user with that e-mail, or none exists |
| Credentials.RequestedRole | server/src/controllers/authController.ts:19 | an absent or empty role means customer; anything else must parse as a role |
| Credentials.Register | server/src/controllers/authController.ts:7-22 | a taken e-mail gives 409 `Email already in use` and changes nothing; success appends exactly one user with the password's hash and the requested role, and answers a token signed over the new id and role; success exactly when the e-mail is free and the record is acceptable |
| Credentials.Login | server/src/controllers/authController.ts:24-36 | every failure is the same 401 `Invalid credentials`; a success is for a stored user with that e-mail whose hash matches the password |
| Credentials.FindByEmailUnique | server/src/models/User.ts:17 | with unique e-mails the lookup finds the one user with that e-mail |
| Credentials.LoginExactly | server/src/controllers/authController.ts:24-36 | login succeeds exactly for a stored user whose hash matches; an unknown e-mail fails like a wrong password |
| Credentials.RegisterPreservesValid | server/src/models/User.ts:14-22 | registration keeps e-mails and ids unique and every user acceptable |
| Credentials.RegisterThenLogin | server/src/controllers/authController.ts:7-36 | after a registration, logging in with the same e-mail and password answers the same session |
| OrderLedger.IndexOfId | server/src/controllers/orderController.ts:49 | the lookup returns the first order with the id, or there is none |
| OrderLedger.CreateOrder | server/src/controllers/orderController.ts:6-27 | a taken external id gives 409 `orderId already exists` and changes nothing; success appends one Pending order owned by the caller's cast id and stamped with the clock; success exactly when the id is free, the caller id casts, and the record passes the database schema |
| OrderLedger.ListOrders | server/src/controllers/orderController.ts:29-42 | admins see every order and others only their own, narrowed by the status if given; a non-admin whose id does not cast gets a 500 |
| OrderLedger.ListOrdersNewestFirst | server/src/controllers/orderController.ts:37 | in a valid store the listing is sorted by decreasing creation time |
| OrderLedger.PatchOrder | server/src/controllers/orderController.ts:44-62 | a malformed id gives 500, an unknown id 404, a caller who is neither admin nor owner exactly 403; success rewrites only that order's status and nothing else in the store |
| OrderLedger.PatchIgnoresCurrentStatus | server/src/controllers/orderController.ts:56-57 | an authorised patch succeeds from every status to every status; there is no transition rule |
| OrderLedger.CreateOrderPreservesValid | server/src/models/Order.ts:30-39 | creation keeps external and system ids unique, records acceptable and creation times increasing |
| OrderLedger.PatchOrderPreservesValid | server/src/models/Order.ts:30-39 | patching keeps the store invariant |
| TransactionLedger.Announce | server/src/controllers/transactionController.ts:21-28 | the announcement is named `transaction:new` and carries the stored record's fields |
| TransactionLedger.CreateTransaction | server/src/controllers/transactionController.ts:7-31 | a well-formed reference to no order gives 400 `Invalid orderId`; a reused transaction id fails; success appends one transaction for the cast order and exactly one announcement of it; success exactly when the reference casts and resolves, the timestamp parses, the id is unused and the record is acceptable |
| TransactionLedger.ListTransactions | server/src/controllers/transactionController.ts:33-36 | the listing holds every transaction and nothing else |
| TransactionLedger.ListTransactionsNewestFirst | server/src/controllers/transactionController.ts:34 | in a valid ledger the listing is sorted by decreasing creation time |
| TransactionLedger.CreateIgnoresOrderStatus | server/src/controllers/transactionController.ts:10-11 | creation depends only on the orders' ids, not on their status or total |
| TransactionLedger.SecondTransactionForSameOrder | server/src/models/Transaction.ts:14 | an order can receive a second transaction under another transaction id |
| TransactionLedger.CreatePreservesValid | server/src/models/Transaction.ts:11-20 | creation keeps ids unique, records acceptable, one announcement per transaction, and every reference resolving |
| TransactionLedger.RefsResolveGrowing | server/src/controllers/orderController.ts:16-22 | references keep resolving while orders are appended or re-statused |
| Routes.PostRegister | server/src/routes/authRoutes.ts:8 | a body the schema rejects gives 400 `ValidationError` before the handler runs |
| Routes.PostLogin | server/src/routes/authRoutes.ts:9 | a body the schema rejects gives 400 `ValidationError` before the handler runs |
| Routes.ValidRegistrationSettles | server/src/controllers/authController.ts:14-21 | a registration the schema admits never ends in an escaped rejection: it is a conflict or a new user |
| Routes.PostOrder | server/src/routes/orderRoutes.ts:9 | authentication decides first, then validation, then the handler; no role restriction |
| Routes.GetOrders | server/src/routes/orderRoutes.ts:10 | authentication decides first, then validation, then the scoped listing |
| Routes.PatchOrderById | server/src/routes/orderRoutes.ts:11 | authentication decides first, then validation of id and status, then the handler |
| Routes.PostTransaction | server/src/routes/transactionRoutes.ts:9 | any authenticated user may post a transaction for any order |
| Routes.GetTransactions | server/src/routes/transactionRoutes.ts:10 | only admins list transactions; a customer gets 403 |
| Routes.MissingTokenWins | server/src/middleware/auth.ts:16-18 | without a header every protected route answers 401 whatever the body and changes nothing |
| Routes.EmptyValid | server/src/models/Order.ts:30-39 | the empty store satisfies the whole-server invariant |
| Routes.Handle | server/src/routes/index.ts:8-10 | the route table: reads leave the store unchanged; registration touches only users, order creation and patching only orders, transaction creation only the ledger |
| Routes.HandlePreservesValid | server/src/routes/index.ts:8-10 | every request on any route keeps the whole-server invariant |
| Routes.RunPreservesValid | server/src/routes/index.ts:8-10 | any run of requests with fresh, distinct ids keeps the whole-server invariant |
| ClientSession.AuthHeader | client/src/utils/axios.ts:7-14 | a header is attached exactly when a non-empty token is stored, and it has the `Bearer ` prefix |
| ClientSession.LoginHeaderAuthenticates | server/src/controllers/authController.ts:34-35 | the token a login hands the client authenticates later requests as the user who logged in |
| ClientSession.CardPayment | client/src/pages/Orders.tsx:71-77 | the payment both pages post for an order: id `TX-` followed by the clock reading, the order's system id and its total, by card; the body passes the transaction schema exactly when the order has an id and a non-negative total |
| ClientSession.ErrorText | client/src/pages/Orders.tsx:59 | a failed request shows the body's `error` text when it is non-empty, and the fallback otherwise, so the text shown is never empty when the fallback is not |
| RouteGuards.ProtectedRoute | client/src/components/ProtectedRoute.tsx:5-9 | the page shows exactly when a token is stored; otherwise it redirects to login |
| RouteGuards.AdminRoute | client/src/components/ProtectedRoute.tsx:11-16 | no token redirects to login; a token without an admin user redirects to orders; the page shows exactly for a token and an admin user |
| RouteGuards.AdminRouteWithinProtected | client/src/components/ProtectedRoute.tsx:5-16 | every page the admin guard shows, the plain guard shows too |
| OrdersPage.Filtered | client/src/pages/Orders.tsx:24 | an empty filter shows the whole list; otherwise exactly the orders with that status |
| OrdersPage.FilteredKeepsOrder | client/src/pages/Orders.tsx:24 | the status filter keeps the loaded order |
| OrdersPage.Load | client/src/pages/Orders.tsx:26-36 | the list is requested with the filter as the status query (none when empty); a signed-out caller gets the authentication failure, a filter naming no status is refused by the schema, and every loaded order is one the filter shows |
| OrdersPage.FilterAfterLoadIsIdentity | client/src/pages/Orders.tsx:24-36 | the list loaded with the status query passes the client filter unchanged |
| OrdersPage.OrderRequest | client/src/pages/Orders.tsx:46-50 | the form sends one item whose price equals the total, so the items sum to the total; the body is valid exactly when the id is non-empty and the total non-negative |
| OrdersPage.CreateToast | client/src/pages/Orders.tsx:51-61 | success shows `Order <id> created`; a 409 shows `Order ID "<id>" already exists`; any other failure shows the server's `error` text, or `Failed to create order` when there is none |
| OrdersPage.SubmitOrder | client/src/pages/Orders.tsx:40-62 | the toast succeeds exactly when the store gains one order; a failure changes nothing and reloads nothing; a success appends one Pending order with the form's id, the one sample item and the total, touches nothing else, and reloads the list under the current filter |
| OrdersPage.SubmitOrderSucceedsExactly | client/src/pages/Orders.tsx:40-62 | creating from the form succeeds exactly for a signed-in caller with a castable id, a non-empty unused order id and a non-negative total, and then says `Order <id> created` |
| OrdersPage.DuplicateOrderIdToast | client/src/pages/Orders.tsx:56-57 | re-using a stored order id shows the "already exists" toast and changes nothing |
| OrdersPage.FindLocal | client/src/pages/Orders.tsx:68 | the local lookup finds a listed order with that id, or none is listed |
| OrdersPage.UpdateStatus | client/src/pages/Orders.tsx:64-84 | a refused patch changes nothing and reloads nothing; otherwise the list is reloaded from the resulting state; users are never touched and at most one transaction is added |
| OrdersPage.UpdateStatusEffects | client/src/pages/Orders.tsx:64-84 | a refused patch changes nothing and reloads nothing; after a successful patch to Completed of a listed order the ledger is exactly what posting that order's payment leaves, and after any other successful patch the store is exactly the patched one; at most one transaction is added, only for such a completion, for that order's id and local total by card, under the `TX-` id of the clock reading; the list is then reloaded even if that post failed |
| OrdersPage.UpdateStatusPostsPayment | client/src/pages/Orders.tsx:66-77 | completing a listed order that the caller (admin or owner) may patch, with an unused transaction id and a parseable time, stores it Completed and adds exactly one transaction for it with the local total, by card, under the `TX-` id of the clock reading, then reloads |
| TransactionsPage.LoadPage | client/src/pages/Transactions.tsx:32-46 | the page loads exactly when both the transaction list and the completed-orders list load |
| TransactionsPage.LoadPageNeedsAdmin | client/src/pages/Transactions.tsx:35-38 | the page loads exactly for an authenticated admin |
| TransactionsPage.CompletedOrdersWithoutTx | client/src/pages/Transactions.tsx:98-101 | the waiting list holds exactly the loaded orders that no transaction refers to |
| TransactionsPage.PayingRemovesOrder | client/src/pages/Transactions.tsx:98-101 | one more transaction removes exactly the orders it refers to and keeps the rest in order |
| TransactionsPage.WaitingListAfterLoad | client/src/pages/Transactions.tsx:32-46 | after a load the waiting list is exactly the store's completed orders that no stored transaction refers to |
| TransactionsPage.TotalAmount | client/src/pages/Transactions.tsx:103 | the summed amount of a single transaction is its amount, and the sum of non-negative amounts is non-negative |
| TransactionsPage.TotalAmountAppend | client/src/pages/Transactions.tsx:103 | the total of two lists is the sum of their totals |
| TransactionsPage.TotalAmountOfListing | client/src/pages/Transactions.tsx:103 | the total over the newest-first listing equals the total over the store |
| TransactionsPage.CountMethodPositive | client/src/pages/Transactions.tsx:104 | a method has a positive count exactly when some transaction uses it |
| TransactionsPage.BumpLookup | client/src/pages/Transactions.tsx:104 | one increment raises that method's count by one and leaves every other count unchanged |
| TransactionsPage.BumpShape | client/src/pages/Transactions.tsx:104 | an increment keeps the tally free of duplicate keys and zero counts |
| TransactionsPage.ByMethod | client/src/pages/Transactions.tsx:104 | the intended per-method tally: one increment per transaction, folded from the first to the last |
| TransactionsPage.ByMethodCounts | client/src/pages/Transactions.tsx:104 | the tally has one entry per method in use and no other, each counts exactly that method's transactions, and the counts add up to the number of transactions |
| TransactionsPage.ByMethodAsWritten | client/src/pages/Transactions.tsx:104 | the tally as the page builds it on a plain object, where an assignment to `__proto__` is ignored |
| TransactionsPage.ProtoMethodGoesUncounted | client/src/pages/Transactions.tsx:104 | a transaction paid with method `__proto__` is left out of the tally as written |
| TransactionsPage.CreateTransactionForOrder | client/src/pages/Transactions.tsx:49-62 | the page reloads exactly when the store gains one transaction, and that transaction refers to the order's system id with its total, by card, under `TX-` followed by the clock reading; nothing else changes; otherwise a blocking alert shows the server's error (or the fallback) and nothing changes |
| TransactionsPage.PaidOrderLeavesWaitingList | client/src/pages/Transactions.tsx:49-62 | after paying a waiting order and reloading, the order is no longer waiting |
| TransactionsPage.CompleteAndPay | client/src/pages/Transactions.tsx:64-95 | the first failing call ends the sequence: a refused create changes nothing, a refused patch posts no transaction, a refused post leaves the order Completed without one; any failure leaves the transactions unchanged; success appends exactly the posted transaction with the drawn amount and method |
| TransactionsPage.CompleteAndPaySucceeds | client/src/pages/Transactions.tsx:64-95 | from a valid store with unused references the sequence succeeds: earlier orders are untouched and one new Completed order is appended whose total and single item (quantity 1) carry the amount; one transaction for it with the same amount is recorded and announced once |
| TransactionsPage.OrderBody | client/src/pages/Transactions.tsx:68-72 | the order the dummy and test buttons create has the given reference, one item of quantity 1 priced at the amount, and a total equal to its items' sum; the order schema accepts it exactly when the reference, product id and name are non-empty and the amount is non-negative |
| TransactionsPage.DummyTransaction | client/src/pages/Transactions.tsx:64-95 | the order and the transaction references use two separate clock readings; a failure shows an error toast with the server's error (or the fallback) and records no transaction; success shows `Dummy transaction created`, reloads, and has recorded exactly one transaction with the `TX-DUMMY-` reference, the drawn amount and method |
| TransactionsPage.DummyTransactionSucceeds | client/src/pages/Transactions.tsx:64-95 | from a valid store, for a signed-in caller and unused references, the button reloads with the success toast, and earlier orders are untouched, the store gains exactly one Completed dummy order whose total is the drawn amount, and one transaction paying it with that amount |
| RealtimeFeed.OnNewTx | client/src/pages/Realtime.tsx:29-31 | a new event goes first, the previous ones follow in order, and the feed never exceeds fifty |
| RealtimeFeed.FeedIsNewestFifty | client/src/pages/Realtime.tsx:29-31 | after any run of events the feed is the newest fifty, newest first |
| RealtimeFeed.Deliver | client/src/pages/Realtime.tsx:21-32 | once unsubscribed no event changes the page |
| RealtimeFeed.Teardown | client/src/pages/Realtime.tsx:33-36 | unmounting unsubscribes, disconnects and keeps the feed |
| RealtimeFeed.TornDownIgnoresEvents | client/src/pages/Realtime.tsx:33-36 | after teardown no run of events changes the page |
| RealtimeFeed.MonitorFromMount | client/src/pages/Realtime.tsx:18-37 | from mounting, the indicator follows the last connection event and the feed holds the newest fifty announcements |
| RealtimeFeed.FeedShowsNewestTransactions | server/src/controllers/transactionController.ts:21-28 | a monitor receiving every later announcement shows the newest transactions persisted since it mounted, up to fifty, newest first, with the stored fields |
| RealtimeFeed.TestTransaction | client/src/pages/Realtime.tsx:39-70 | the button does nothing unless connected and idle; the page itself changes only through the socket; the store gains at most one transaction, with the `TX-TEST-` reference of the second clock reading and the drawn amount and method |
| RealtimeFeed.TestSequence | client/src/pages/Realtime.tsx:43-64 | a failed sequence records no transaction; a successful one appends exactly the posted transaction |
| RealtimeFeed.TestSequenceSucceeds | client/src/pages/Realtime.tsx:43-64 | from a valid store, for a signed-in caller and unused references, the sequence succeeds and ends with exactly one more announcement, of the transaction it posted for the new order |
| RealtimeFeed.TestTransactionReachesFeed | client/src/pages/Realtime.tsx:43-64 | with the two clock readings as separate references, a successful test announces exactly one transaction with the `TX-TEST-` reference, the new order and the drawn amount and method, and that announcement heads the feed |

## Left out

- Express wiring, the Mongo driver, the socket transport and the HTTP client are not modelled. Each endpoint is a function over an in-memory store, and the socket is an append-only event log.
- Concurrency is not modelled. Requests run one at a time, so the check-then-insert race on unique ids does not arise. The state of a page while a request is in flight is not modelled either: the loading flags, and the `testing` flag while a test runs.
- Amounts and prices are integers. JavaScript numbers, fractional amounts and `toFixed(2)` display are not modelled.
- Tokens.Coherent: token expiry (seven days) and the bcrypt salt are not modelled. A signed token always verifies, and the hash is an opaque function.
- `Routes.Env.parseDate`: the date parser is opaque. An unparseable timestamp is a `None`, and the create then throws.
- `updatedAt` timestamps are not modelled. `createdAt` is the store's clock, so "sorted by creation time" means reverse insertion order.
- ObjectIds.Cast: only the 24-hex text form is modelled. The 12-character form that some driver versions also accept is not.
- AuthGate.Authenticate: a verified token is assumed to carry a `sub` and a `role`. Payloads missing them are not modelled.
- The zod e-mail format check is an opaque predicate (`Routes.Env.isEmail`). Unknown extra body fields are dropped by the model's typed bodies.
- TransactionsPage.LoadPage: when both requests fail, the code shows whichever rejection arrives first. The model reports the transaction list's failure. A missing or invalid token fails both requests with the same 401 text. Only a customer can get two different failures (the order list succeeds for them, the transaction list is forbidden), so only the message differs.
- TransactionsPage.ByMethod: the tally is kept in insertion order. JavaScript lists integer-like keys first in ascending order; that ordering is not modelled. Other inherited object keys (`toString`, `constructor`, …) make the page display text instead of a count; that is not modelled either. Only `__proto__` is modelled (see Findings).
- The client's clock readings and random draws (`Date.now()`, the ISO timestamp, the dummy amount and payment method) are parameters. So are the ids the database assigns.
- An escaped rejection (`Unhandled`) shows on the client as a failure without an error body. Whether the request hangs or the process stops is not modelled.
- Duplicate transaction id: the code has no typed error for it. The create rejects on the unique index inside a handler without try/catch. The model follows the code (`Unhandled`), not a dedicated 409 `DuplicateTransactionId` answer.
- The login and register pages, the toast timer and the navigation bar are not modelled. Only the stored token and user they leave behind are, through `ClientSession` and `RouteGuards`.

## Findings

| source | as written | input that shows it | evidently intended | confidence | as-written member | corrected member |
|---|---|---|---|---|---|---|
| client/src/pages/Transactions.tsx:104 | the per-method tally is a plain object literal, so `m['__proto__'] = …` hits the prototype setter, which ignores a non-object value | one transaction with `paymentMethod: "__proto__"` (the schema admits any non-empty string): the count card shows 1 while the method card shows "No data" | every transaction counted under its method, the counts summing to the number of transactions | not executed | TransactionsPage.ProtoMethodGoesUncounted | TransactionsPage.ByMethodCounts |
