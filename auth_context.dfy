/** The session store of the React client (AuthContext.jsx): the signed-in
    user record, the `loading` flag and the 'sita_user_email' storage entry.

    Each request's answer is a parameter (`Failed` when it throws); the
    user record is a JSON object, as the backend returns it. */
module AuthContext {
  import opened Common
  import opened Rows

  /** The `/user/me` requests a call issues; at most one here. */
  datatype Request = NoRequest | Me(email: string)

  class Session {
    var user: Option<Row>
    var loading: bool
    /** The 'sita_user_email' storage entry. */
    var stored: Option<string>

    /** The provider as mounted, before its startup effect. */
    constructor (saved: Option<string>)
      ensures user.None? && loading && stored == saved
    {
      user, loading, stored := None, true, saved;
    }

    /** The startup effect: a stored, non-empty email starts a session
        check; otherwise loading simply ends. */
    method Startup(reply: Outcome<Row>) returns (req: Request)
      modifies this
      ensures old(stored).None? || old(stored) == Some("") ==>
        && req == NoRequest && user == old(user) && stored == old(stored)
      ensures old(stored).Some? && old(stored) != Some("") ==> req == Me(old(stored).value)
      ensures !loading
    {
      if stored.Some? && stored.value != "" {
        req := Me(stored.value);
        CheckSession(stored.value, reply);
      } else {
        req := NoRequest;
        loading := false;
      }
    }

    /** `checkSession`: the record found becomes the user; a failed check
        forgets the stored email and keeps the user. */
    method CheckSession(email: string, reply: Outcome<Row>)
      modifies this
      ensures reply.Ok? ==> user == Some(reply.value) && stored == old(stored)
      ensures reply.Failed? ==> user == old(user) && stored.None?
      ensures !loading
    {
      match reply {
        case Ok(data) => user := Some(data);
        case Failed(_) => stored := None;
      }
      loading := false;
    }

    /** `login(email, userData)`: the email is stored first; a record with
        a role becomes the user without a request; otherwise the fetched
        record does, and a failed fetch is re-thrown with the user kept. */
    method Login(email: string, userData: Row, fetched: Outcome<Row>) returns (req: Request, result: Outcome<Row>)
      modifies this
      ensures stored == Some(email) && !loading
      ensures Truthy(Get(userData, "role")) ==> req == NoRequest && result == Ok(userData) && user == Some(userData)
      ensures !Truthy(Get(userData, "role")) ==> req == Me(email) && result == fetched
      ensures !Truthy(Get(userData, "role")) && fetched.Ok? ==> user == Some(fetched.value)
      ensures result.Failed? ==> user == old(user)
    {
      loading := true;
      stored := Some(email);
      if !Truthy(Get(userData, "role")) {
        req := Me(email);
        if fetched.Ok? {
          user := Some(fetched.value);
        }
        result := fetched;
      } else {
        req := NoRequest;
        user := Some(userData);
        result := Ok(userData);
      }
      loading := false;
    }

    /** `logout`. */
    method Logout()
      modifies this
      ensures user.None? && stored.None? && loading == old(loading)
    {
      stored := None;
      user := None;
    }

    /** `refreshUser`: a session check for the user's email, when there is
        one; nothing otherwise. */
    method RefreshUser(reply: Outcome<Row>) returns (req: Request)
      modifies this
      ensures old(user).None? || !Truthy(Get(old(user).value, "email")) ==>
        && req == NoRequest && user == old(user) && stored == old(stored) && loading == old(loading)
      ensures old(user).Some? && Truthy(Get(old(user).value, "email")) ==>
        && req == Me(Get(old(user).value, "email").s) && !loading
        && (reply.Ok? ==> user == Some(reply.value) && stored == old(stored))
        && (reply.Failed? ==> user == old(user) && stored.None?)
    {
      req := NoRequest;
      if user.Some? && Truthy(Get(user.value, "email")) {
        var email := Get(user.value, "email").s;
        req := Me(email);
        CheckSession(email, reply);
      }
    }
  }
}
