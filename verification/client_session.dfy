/** What the browser client keeps after signing in, and the header it adds to
    every request: `Authorization: Bearer <token>` whenever a token is stored
    (an empty stored token counts as none). */
module ClientSession {
  import opened Http
  import opened Models
  import opened Tokens
  import opened AuthGate
  import opened Credentials
  import opened Schemas
  import opened Routes

  /** JavaScript truthiness of the stored token. */
  predicate HasToken(token: Option<string>) {
    token.Some? && token.value != ""
  }

  /** The header the request interceptor attaches. */
  function AuthHeader(token: Option<string>): (h: Option<string>)
    ensures h.Some? <==> HasToken(token)
    ensures h.Some? ==> HasBearerPrefix(h.value)
  {
    if HasToken(token) then Some(Bearer + token.value) else None
  }

  /** The token a successful login hands the client authenticates every later
      request as the user who logged in. */
  lemma LoginHeaderAuthenticates(s: Server, env: Env, body: LoginBody)
    requires Coherent(env.crypto)
    requires PostLogin(s, env, body).Ok?
    ensures var session := PostLogin(s, env, body).value;
            Authenticate(AuthHeader(Some(session.token)), env.crypto.verify)
            == Ok(Identity(session.user.id, session.user.role))
  {
    var session := PostLogin(s, env, body).value;
    var u :| u in s.users && u.email == body.email && env.crypto.compare(body.password, u.passwordHash)
             && session == Session(env.crypto.sign(Claims(u.id, u.role)), Summary(u));
    IssuedTokenAuthenticates(env.crypto, Claims(u.id, u.role));
  }

  /** A toast notification: success or error, with its text. */
  datatype Toast = Toast(success: bool, message: string)

  /** The error text a failed request shows: the body's `error`, or the
      fallback when there is none. */
  function ErrorText(f: Failure, fallback: string): (text: string)
    ensures ErrorMessage(f).Some? && ErrorMessage(f).value != "" ==> text == ErrorMessage(f).value
    ensures ErrorMessage(f).None? || ErrorMessage(f).value == "" ==> text == fallback
    ensures fallback != "" ==> text != ""
  {
    match ErrorMessage(f)
    case Some(m) => if m == "" then fallback else m
    case None => fallback
  }

  /** The payment both the orders page and the transactions page post for an
      order: an id made of `TX-` and the clock reading `stamp`, the order's
      system id and total, by card. The schema admits it exactly when the
      order's id is non-empty and its total non-negative. */
  function CardPayment(o: Order, stamp: string, timestamp: string): (b: CreateTransactionBody)
    ensures b.transactionId == "TX-" + stamp && b.orderId == o.id && b.amount == o.totalAmount
    ensures b.paymentMethod == "card" && b.timestamp == timestamp
    ensures CreateTransactionValid(b) <==> o.id != "" && o.totalAmount >= 0
  {
    var b := CreateTransactionBody("TX-" + stamp, o.id, o.totalAmount, "card", timestamp);
    assert b.transactionId != "" && b.paymentMethod != "";
    b
  }
}
