/** The persisted records and what the database schemas accept for each.

    A record is created or saved only if it passes its schema's validators:
    `required` on a string rejects the empty string, `min` bounds numbers, and
    enums are already types here. Uniqueness indexes are store-wide and are
    stated by the ledgers. */
module Models {
  import opened Http

  /** The caller identity the authentication middleware attaches to a request. */
  datatype Identity = Identity(userId: string, role: Role)

  datatype Item = Item(productId: string, name: string, quantity: int, price: int)

  /** `id` is the system id; `orderId` the caller-chosen external id; `userId`
      the owner's system id. `createdAt` is the store's clock at creation. */
  datatype Order = Order(
    id: string,
    orderId: string,
    userId: string,
    items: seq<Item>,
    totalAmount: int,
    status: Status,
    createdAt: nat)

  /** `orderId` is the system id of the order the transaction refers to;
      `timestamp` is the caller-supplied time, already parsed. */
  datatype Transaction = Transaction(
    id: string,
    transactionId: string,
    orderId: string,
    amount: int,
    paymentMethod: string,
    timestamp: int,
    createdAt: nat)

  datatype User = User(id: string, name: string, email: string, role: Role, passwordHash: string)

  predicate ItemAccepted(i: Item) {
    i.productId != "" && i.name != "" && i.quantity >= 1 && i.price >= 0
  }

  predicate OrderAccepted(o: Order) {
    && o.orderId != ""
    && o.userId != ""
    && (forall k :: 0 <= k < |o.items| ==> ItemAccepted(o.items[k]))
    && o.totalAmount >= 0
  }

  predicate TransactionAccepted(t: Transaction) {
    t.transactionId != "" && t.orderId != "" && t.amount >= 0 && t.paymentMethod != ""
  }

  predicate UserAccepted(u: User) {
    u.name != "" && u.email != "" && u.passwordHash != ""
  }
}
