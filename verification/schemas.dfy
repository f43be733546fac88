/** Request shapes and the validity predicates the validation middleware
    checks before any handler runs. Field types are already those of the
    schema; what remains are the length, range and enum constraints. The
    e-mail format check is an opaque predicate supplied by the caller. */
module Schemas {
  import opened Http
  import opened Models

  datatype RegisterBody = RegisterBody(name: string, email: string, password: string, role: Option<string>)

  datatype LoginBody = LoginBody(email: string, password: string)

  datatype CreateOrderBody = CreateOrderBody(orderId: string, items: seq<Item>, totalAmount: int)

  datatype ListOrdersQuery = ListOrdersQuery(status: Option<string>)

  datatype PatchOrderBody = PatchOrderBody(status: string)

  /** `timestamp` is any string; it is turned into a date only when stored. */
  datatype CreateTransactionBody = CreateTransactionBody(
    transactionId: string,
    orderId: string,
    amount: int,
    paymentMethod: string,
    timestamp: string)

  /** A string's length as JavaScript measures it, which is what a schema's
      minimum length checks: UTF-16 code units, so a character outside the
      Basic Multilingual Plane counts twice. */
  function JsLength(s: string): (n: nat)
    ensures |s| <= n <= 2 * |s|
    ensures n == 0 <==> s == ""
  {
    if s == "" then 0 else (if s[0] as int >= 0x1_0000 then 2 else 1) + JsLength(s[1..])
  }

  predicate RegisterValid(b: RegisterBody, isEmail: string -> bool) {
    && JsLength(b.name) >= 1
    && isEmail(b.email)
    && JsLength(b.password) >= 6
    && (b.role.Some? ==> ParseRole(b.role.value).Some?)
  }

  predicate LoginValid(b: LoginBody, isEmail: string -> bool) {
    isEmail(b.email) && JsLength(b.password) >= 6
  }

  predicate ItemValid(i: Item) {
    JsLength(i.productId) >= 1 && JsLength(i.name) >= 1 && i.quantity > 0 && i.price >= 0
  }

  predicate CreateOrderValid(b: CreateOrderBody) {
    && JsLength(b.orderId) >= 1
    && |b.items| >= 1
    && (forall k :: 0 <= k < |b.items| ==> ItemValid(b.items[k]))
    && b.totalAmount >= 0
  }

  predicate ListOrdersValid(q: ListOrdersQuery) {
    q.status.Some? ==> ParseStatus(q.status.value).Some?
  }

  predicate PatchOrderValid(id: string, b: PatchOrderBody) {
    JsLength(id) >= 1 && ParseStatus(b.status).Some?
  }

  predicate CreateTransactionValid(b: CreateTransactionBody) {
    && JsLength(b.transactionId) >= 1
    && JsLength(b.orderId) >= 1
    && b.amount >= 0
    && JsLength(b.paymentMethod) >= 1
  }

  /** Sum of price times quantity over the items. */
  function ItemsTotal(items: seq<Item>): int {
    if |items| == 0 then 0 else items[0].price * items[0].quantity + ItemsTotal(items[1..])
  }

  /** The create-order schema never relates `totalAmount` to the items: a
      valid body may carry a total different from the items' sum. */
  lemma TotalAmountNotCheckedAgainstItems()
    ensures exists b :: CreateOrderValid(b) && b.totalAmount != ItemsTotal(b.items)
  {
    var b := CreateOrderBody("ORD-1", [Item("sku-1", "Sample", 2, 10)], 0);
    assert ItemsTotal(b.items) == 20;
    assert ItemValid(b.items[0]);
    assert CreateOrderValid(b);
  }

  /** Every item the create-order schema admits is one the order schema
      accepts, so a validated create never fails the item validators. */
  lemma ValidItemsAccepted(b: CreateOrderBody)
    requires CreateOrderValid(b)
    ensures forall k :: 0 <= k < |b.items| ==> ItemAccepted(b.items[k])
  {
    forall k | 0 <= k < |b.items| ensures ItemAccepted(b.items[k]) {
      assert ItemValid(b.items[k]);
    }
  }

  /** Three emoji make a six-unit password: the minimum length admits it
      although it holds only three characters. */
  lemma AstralPasswordAccepted(email: string, isEmail: string -> bool)
    requires isEmail(email)
    ensures |"\U{1F600}\U{1F600}\U{1F600}"| == 3
    ensures LoginValid(LoginBody(email, "\U{1F600}\U{1F600}\U{1F600}"), isEmail)
  {
    var p := "\U{1F600}\U{1F600}\U{1F600}";
    assert p[1..] == "\U{1F600}\U{1F600}" && p[2..] == "\U{1F600}";
    assert p[3..] == "";
  }
}
