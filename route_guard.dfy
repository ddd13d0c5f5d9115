/** The route guard of the React client (ProtectedRoute.jsx): what a
    protected page shows for the session's `loading` flag and user record. */
module RouteGuard {
  import opened Common
  import opened Rows

  datatype Decision = Spinner | Redirect(path: string) | Children

  /** Administrators pass on their role alone. */
  predicate IsStaff(user: Row) {
    Get(user, "role") == Text("admin") || Get(user, "role") == Text("super_admin")
  }

  predicate IsVerified(user: Row) {
    Get(user, "status") == Text("verified")
  }

  function Guard(loading: bool, user: Option<Row>): (o: Decision)
    ensures loading ==> o == Spinner
    ensures !loading && user.None? ==> o == Redirect("/")
    ensures o.Redirect? ==> o.path == "/" || o.path == "/verification"
  {
    if loading then Spinner
    else if user.None? then Redirect("/")
    else if !IsStaff(user.value) && !IsVerified(user.value) then Redirect("/verification")
    else Children
  }

  /** The page itself is reached exactly by a signed-in user, once loading
      is over, who is an administrator or verified. */
  lemma ChildrenExactly(loading: bool, user: Option<Row>)
    ensures Guard(loading, user) == Children <==>
      !loading && user.Some? && (IsStaff(user.value) || IsVerified(user.value))
  {
  }

  /** Any other signed-in user is sent to the verification page. */
  lemma UnverifiedAgents(user: Row)
    requires !IsStaff(user) && !IsVerified(user)
    ensures Guard(false, Some(user)) == Redirect("/verification")
  {
  }
}
