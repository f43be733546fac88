/** The client's route guards: a protected page needs a stored token; an
    admin page needs a stored token and a stored user whose role is admin. */
module RouteGuards {
  import opened Http
  import opened Credentials
  import opened ClientSession

  datatype View = Children | RedirectToLogin | RedirectToOrders

  function ProtectedRoute(token: Option<string>): (v: View)
    ensures v == Children <==> HasToken(token)
    ensures v != Children ==> v == RedirectToLogin
  {
    if !HasToken(token) then RedirectToLogin else Children
  }

  /** The token check comes first: without a token the admin guard sends to
      the login page whatever user is stored. */
  function AdminRoute(token: Option<string>, user: Option<UserSummary>): (v: View)
    ensures !HasToken(token) ==> v == RedirectToLogin
    ensures HasToken(token) && !(user.Some? && user.value.role == Admin) ==> v == RedirectToOrders
    ensures v == Children <==> HasToken(token) && user.Some? && user.value.role == Admin
  {
    if !HasToken(token) then RedirectToLogin
    else if user.None? || user.value.role != Admin then RedirectToOrders
    else Children
  }

  /** Every page the admin guard shows, the plain guard shows too. */
  lemma AdminRouteWithinProtected(token: Option<string>, user: Option<UserSummary>)
    ensures AdminRoute(token, user) == Children ==> ProtectedRoute(token) == Children
  {
  }
}
