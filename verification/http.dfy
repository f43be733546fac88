/** Typed outcomes of the server's request handlers.

    Every handler of the tracker either answers with a value or with one of a
    small set of failures; each failure corresponds to an HTTP status and a JSON
    `error` message. Two failures have no typed message of their own:
    `ServerError` is the generic 500 produced by the error-handling middleware,
    and `Unhandled` is an exception escaping an async handler that has no
    try/catch, so no error body is produced by the handler itself. */
module Http {

  datatype Option<+T> = None | Some(value: T)

  datatype Role = Admin | Customer

  datatype Status = Pending | Completed | Failed

  datatype Failure =
    | Unauthorized(error: string)   // 401
    | Forbidden                     // 403, "Forbidden"
    | BadRequest(error: string)     // 400, "ValidationError" or "Invalid orderId"
    | NotFound                      // 404, "Order not found"
    | Conflict(error: string)       // 409
    | ServerError                   // 500, from the error-handling middleware
    | Unhandled                     // rejection escaping a handler without try/catch

  datatype Reply<+T> = Ok(value: T) | Fail(failure: Failure)

  /** A handler's reply together with the state it leaves behind. */
  datatype Step<+T, +S> = Step(reply: Reply<T>, state: S)

  /** The failure every schema-validation middleware answers with. */
  const ValidationFailed: Failure := BadRequest("ValidationError")

  function RoleName(r: Role): string {
    match r
    case Admin => "admin"
    case Customer => "customer"
  }

  function StatusName(s: Status): string {
    match s
    case Pending => "Pending"
    case Completed => "Completed"
    case Failed => "Failed"
  }

  /** Reading a role from its wire text: only the two enum values are roles. */
  function ParseRole(text: string): (r: Option<Role>)
    ensures r.Some? <==> text == "admin" || text == "customer"
    ensures r.Some? ==> RoleName(r.value) == text
  {
    if text == "admin" then Some(Admin)
    else if text == "customer" then Some(Customer)
    else None
  }

  /** Reading a status from its wire text: the enum is case-sensitive. */
  function ParseStatus(text: string): (r: Option<Status>)
    ensures r.Some? <==> text == "Pending" || text == "Completed" || text == "Failed"
    ensures r.Some? ==> StatusName(r.value) == text
  {
    if text == "Pending" then Some(Pending)
    else if text == "Completed" then Some(Completed)
    else if text == "Failed" then Some(Failed)
    else None
  }

  /** Names and parsing are mutually inverse on the enums. */
  lemma NamesRoundTrip(r: Role, s: Status)
    ensures ParseRole(RoleName(r)) == Some(r)
    ensures ParseStatus(StatusName(s)) == Some(s)
  {
  }

  /** The HTTP status a failure is answered with; none for `Unhandled`.
      Each status names exactly one kind of failure, so a client can tell
      them apart by status alone; anything the handlers do not type is the
      error middleware's 500. */
  function StatusCode(f: Failure): (code: Option<int>)
    ensures code.None? <==> f.Unhandled?
    ensures code.Some? ==> 400 <= code.value <= 500
    ensures code == Some(400) <==> f.BadRequest?
    ensures code == Some(401) <==> f.Unauthorized?
    ensures code == Some(403) <==> f.Forbidden?
    ensures code == Some(404) <==> f.NotFound?
    ensures code == Some(409) <==> f.Conflict?
    ensures code == Some(500) <==> f == ServerError
  {
    match f
    case Unauthorized(_) => Some(401)
    case Forbidden => Some(403)
    case BadRequest(_) => Some(400)
    case NotFound => Some(404)
    case Conflict(_) => Some(409)
    case ServerError => Some(500)
    case Unhandled => None
  }

  /** The `error` field of the JSON body a failure is answered with. */
  function ErrorMessage(f: Failure): (m: Option<string>)
    ensures m.None? <==> f.Unhandled?
    ensures f.Unauthorized? || f.BadRequest? || f.Conflict? ==> m == Some(f.error)
    ensures f == Forbidden ==> m == Some("Forbidden")
    ensures f == NotFound ==> m == Some("Order not found")
    ensures f == ServerError ==> m == Some("Internal Server Error")
  {
    match f
    case Unauthorized(e) => Some(e)
    case Forbidden => Some("Forbidden")
    case BadRequest(e) => Some(e)
    case NotFound => Some("Order not found")
    case Conflict(e) => Some(e)
    case ServerError => Some("Internal Server Error")
    case Unhandled => None
  }

  /** What goes on the wire — the status and the `error` text — determines
      the failure: a client that reads both loses nothing. */
  lemma WireAnswerDeterminesFailure(f: Failure, g: Failure)
    requires StatusCode(f) == StatusCode(g) && ErrorMessage(f) == ErrorMessage(g)
    ensures f == g
  {
  }
}
