/** The backend's user and one-time-password tables (database.py), as two
    maps keyed by e-mail address.  SQL, the connection handling and the
    schema migration are not modelled; the clock is an integer number of
    seconds passed in by the caller, and the random uuid behind an agent id
    is passed in as its hexadecimal text. */
module Database {
  import opened Common

  /** A row of `users`; `None` is SQL NULL.  `created_at` is not modelled. */
  datatype User = User(
    email: string,
    name: Option<string>,
    picture: Option<string>,
    role: string,
    status: string,
    phone: Option<string>,
    countryCode: Option<string>,
    reason: Option<string>,
    agentId: Option<string>,
    lastLogin: Option<int>)

  /** A row of `otp_codes`.  `readable` is false when the stored expiry
      cannot be parsed back into a time. */
  datatype OtpRecord = OtpRecord(code: string, expiresAt: int, readable: bool)

  const AdminEmail := "admin@sita.ai"
  const AdminAgentId := "SITA-0000"

  /** Lifetime of a one-time password: ten minutes. */
  const OtpLifetime := 600

  const DuplicateAgentId := "UNIQUE constraint failed: users.agent_id"

  /** The administrator row `init_db` seeds. */
  const Admin := User(AdminEmail, Some("SITA Commander"), None, "admin", "verified",
                      Some("000-000-0000"), None, Some("System Administrator"), Some(AdminAgentId), None)

  /** A fresh row with the schema's defaults: role "user", status "pending". */
  function NewUser(email: string): User {
    User(email, None, None, "user", "pending", None, None, None, None, None)
  }

  /** `not user['agent_id']`: NULL or empty. */
  predicate LacksAgentId(u: User) {
    u.agentId.None? || u.agentId.value == ""
  }

  predicate IsLowerHex(c: char) { '0' <= c <= '9' || 'a' <= c <= 'f' }
  predicate IsUpperHex(c: char) { '0' <= c <= '9' || 'A' <= c <= 'F' }

  /** `generate_agent_id`: "SITA-" and the first four hex digits of the
      uuid, upper-cased. */
  function AgentIdFrom(uuidHex: string): (id: string)
    requires |uuidHex| >= 4 && forall i :: 0 <= i < |uuidHex| ==> IsLowerHex(uuidHex[i])
    ensures |id| == 9 && id[..5] == "SITA-"
    ensures forall i :: 5 <= i < 9 ==> IsUpperHex(id[i])
    ensures Lower(id[5..]) == uuidHex[..4]
  {
    var suffix := Upper(uuidHex[..4]);
    assert forall i :: 0 <= i < 4 ==> IsUpperHex(suffix[i]) && LowerChar(suffix[i]) == uuidHex[i] by {
      forall i | 0 <= i < 4 {
        HexCase(uuidHex[i]);
      }
    }
    "SITA-" + suffix
  }

  lemma HexCase(c: char)
    requires IsLowerHex(c)
    ensures IsUpperHex(UpperChar(c)) && LowerChar(UpperChar(c)) == c
  {
  }

  /** The `agent_id UNIQUE` constraint: no two rows share a non-NULL id. */
  predicate AgentIdsUnique(users: map<string, User>) {
    forall a, b :: a in users && b in users && a != b && users[a].agentId.Some? ==> users[a].agentId != users[b].agentId
  }

  /** Whether a row other than `self` already holds agent id `id`. */
  predicate AgentIdTaken(users: map<string, User>, id: string, self: string) {
    exists e :: e in users && e != self && users[e].agentId == Some(id)
  }

  /** The row stored under `email` after `save_otp(email, code)` at `now`. */
  function Saved(otps: map<string, OtpRecord>, email: string, code: string, now: int): map<string, OtpRecord> {
    otps[email := OtpRecord(code, now + OtpLifetime, true)]
  }

  /** Whether `verify_otp(email, code)` at `now` accepts. */
  predicate Accepts(otps: map<string, OtpRecord>, email: string, code: string, now: int) {
    email in otps && otps[email].readable && otps[email].code == code && now < otps[email].expiresAt
  }

  /** The table after `verify_otp`: the record goes only when it was accepted. */
  function AfterVerify(otps: map<string, OtpRecord>, email: string, code: string, now: int): map<string, OtpRecord> {
    if Accepts(otps, email, code, now) then otps - {email} else otps
  }

  /** A code just saved verifies exactly when it is the same code and the
      ten minutes have not run out. */
  lemma SavedCodeVerifies(otps: map<string, OtpRecord>, email: string, code: string, saved: int, attempt: string, now: int)
    ensures Accepts(Saved(otps, email, code, saved), email, attempt, now) <==> attempt == code && now < saved + OtpLifetime
  {
  }

  /** Saving a code for an address voids the one saved before it. */
  lemma ResaveVoidsEarlier(otps: map<string, OtpRecord>, email: string, first: string, second: string, t1: int, t2: int, now: int)
    requires first != second
    ensures !Accepts(Saved(Saved(otps, email, first, t1), email, second, t2), email, first, now)
  {
  }

  /** A code verifies at most once, and whatever is tried next for that
      address fails until a new code is saved. */
  lemma SingleUse(otps: map<string, OtpRecord>, email: string, code: string, now: int, again: string, later: int)
    requires Accepts(otps, email, code, now)
    ensures email !in AfterVerify(otps, email, code, now)
    ensures !Accepts(AfterVerify(otps, email, code, now), email, again, later)
  {
  }

  /** Verifying one address never affects another's code. */
  lemma VerifyIsolated(otps: map<string, OtpRecord>, email: string, code: string, now: int, other: string)
    requires other != email && other in otps
    ensures other in AfterVerify(otps, email, code, now)
    ensures AfterVerify(otps, email, code, now)[other] == otps[other]
  {
  }

  /** The `users` and `otp_codes` tables. */
  class UserStore {
    var users: map<string, User>
    var otps: map<string, OtpRecord>

    /** Rows are keyed by their e-mail (the primary key) and agent ids are unique. */
    ghost predicate Valid()
      reads this
    {
      (forall e :: e in users ==> users[e].email == e) && AgentIdsUnique(users)
    }

    /** Fresh, empty tables. */
    constructor ()
      ensures Valid() && users == map[] && otps == map[]
    {
      users, otps := map[], map[];
    }

    /** `init_db`: seed the administrator when absent.  The insert fails,
        leaving the tables unchanged, when another row already holds the
        administrator's agent id. */
    method InitDb() returns (r: Outcome<bool>)
      requires Valid()
      modifies this
      ensures Valid() && otps == old(otps)
      ensures AdminEmail in old(users) ==> r == Ok(false) && users == old(users)
      ensures AdminEmail !in old(users) && AgentIdTaken(old(users), AdminAgentId, AdminEmail) ==>
        r == Failed(DuplicateAgentId) && users == old(users)
      ensures AdminEmail !in old(users) && !AgentIdTaken(old(users), AdminAgentId, AdminEmail) ==>
        r == Ok(true) && users == old(users)[AdminEmail := Admin]
    {
      if AdminEmail in users {
        return Ok(false);
      }
      if AgentIdTaken(users, AdminAgentId, AdminEmail) {
        return Failed(DuplicateAgentId);
      }
      users := users[AdminEmail := Admin];
      r := Ok(true);
    }

    /** `upsert_google_user`: refresh name, picture and last login of an
        existing row, giving it an agent id only when it has none; create
        a missing row in status "pending_onboarding" with a fresh agent id.
        Role and status of an existing row never change.  A clash on the
        agent id fails and changes nothing. */
    method UpsertGoogleUser(email: string, name: string, picture: string, newAgentId: string, now: int)
      returns (r: Outcome<User>)
      requires Valid()
      modifies this
      ensures Valid() && otps == old(otps)
      ensures r.Failed? ==> users == old(users) && AgentIdTaken(old(users), newAgentId, email)
      ensures r.Ok? ==> email in users && r.value == users[email] && users == old(users)[email := r.value]
      ensures r.Ok? && email in old(users) ==>
        var u := old(users)[email];
        r.value == u.(name := Some(name), picture := Some(picture), lastLogin := Some(now),
                      agentId := if LacksAgentId(u) then Some(newAgentId) else u.agentId)
      ensures r.Ok? && email !in old(users) ==>
        r.value == NewUser(email).(name := Some(name), picture := Some(picture), status := "pending_onboarding",
                                   lastLogin := Some(now), agentId := Some(newAgentId))
      ensures r.Failed? <==> (email !in old(users) || LacksAgentId(old(users)[email])) && AgentIdTaken(old(users), newAgentId, email)
    {
      var u: User;
      if email in users {
        u := users[email];
        if LacksAgentId(u) {
          if AgentIdTaken(users, newAgentId, email) {
            return Failed(DuplicateAgentId);
          }
          u := u.(name := Some(name), picture := Some(picture), lastLogin := Some(now), agentId := Some(newAgentId));
        } else {
          u := u.(name := Some(name), picture := Some(picture), lastLogin := Some(now));
        }
      } else {
        if AgentIdTaken(users, newAgentId, email) {
          return Failed(DuplicateAgentId);
        }
        u := NewUser(email).(name := Some(name), picture := Some(picture), status := "pending_onboarding",
                             lastLogin := Some(now), agentId := Some(newAgentId));
      }
      users := users[email := u];
      r := Ok(u);
    }

    /** `create_otp_user`: create a missing row named "Agent" in status
        "pending_onboarding" with a fresh agent id; otherwise record the
        login, giving the row an agent id only when it has none. */
    method CreateOtpUser(email: string, newAgentId: string, now: int) returns (r: Outcome<User>)
      requires Valid()
      modifies this
      ensures Valid() && otps == old(otps)
      ensures r.Failed? <==> (email !in old(users) || LacksAgentId(old(users)[email])) && AgentIdTaken(old(users), newAgentId, email)
      ensures r.Failed? ==> users == old(users)
      ensures r.Ok? ==> email in users && r.value == users[email] && users == old(users)[email := r.value]
      ensures r.Ok? && email in old(users) ==>
        var u := old(users)[email];
        r.value == u.(lastLogin := Some(now), agentId := if LacksAgentId(u) then Some(newAgentId) else u.agentId)
      ensures r.Ok? && email !in old(users) ==>
        r.value == NewUser(email).(name := Some("Agent"), status := "pending_onboarding",
                                   lastLogin := Some(now), agentId := Some(newAgentId))
    {
      var u: User;
      if email !in users {
        if AgentIdTaken(users, newAgentId, email) {
          return Failed(DuplicateAgentId);
        }
        u := NewUser(email).(name := Some("Agent"), status := "pending_onboarding",
                             lastLogin := Some(now), agentId := Some(newAgentId));
      } else {
        u := users[email];
        if LacksAgentId(u) {
          if AgentIdTaken(users, newAgentId, email) {
            return Failed(DuplicateAgentId);
          }
          u := u.(lastLogin := Some(now), agentId := Some(newAgentId));
        } else {
          u := u.(lastLogin := Some(now));
        }
      }
      users := users[email := u];
      r := Ok(u);
    }

    /** `update_user_profile`: fill in the onboarding answers and mark the
        row "verified"; an unknown address changes nothing and yields None. */
    method UpdateUserProfile(email: string, name: string, phone: string, countryCode: string, reason: string)
      returns (r: Option<User>)
      requires Valid()
      modifies this
      ensures Valid() && otps == old(otps)
      ensures email !in old(users) ==> r == None && users == old(users)
      ensures email in old(users) ==>
        && r == Some(old(users)[email].(name := Some(name), phone := Some(phone), countryCode := Some(countryCode),
                                        reason := Some(reason), status := "verified"))
        && users == old(users)[email := r.value]
    {
      if email !in users {
        return None;
      }
      var u := users[email].(name := Some(name), phone := Some(phone), countryCode := Some(countryCode),
                             reason := Some(reason), status := "verified");
      users := users[email := u];
      r := Some(u);
    }

    /** `save_otp`: replace any earlier code for the address by one that
        expires ten minutes from now. */
    method SaveOtp(email: string, code: string, now: int)
      requires Valid()
      modifies this
      ensures Valid() && users == old(users)
      ensures otps == Saved(old(otps), email, code, now)
      ensures email in otps && otps[email].expiresAt == now + OtpLifetime
    {
      otps := otps[email := OtpRecord(code, now + OtpLifetime, true)];
    }

    /** `verify_otp`: true exactly when a readable record exists, the codes
        are equal as text and its expiry lies ahead; the record is deleted
        on success and kept on every failure. */
    method VerifyOtp(email: string, code: string, now: int) returns (ok: bool)
      requires Valid()
      modifies this
      ensures Valid() && users == old(users)
      ensures ok <==> email in old(otps) && old(otps)[email].readable
                      && old(otps)[email].code == code && now < old(otps)[email].expiresAt
      ensures otps == AfterVerify(old(otps), email, code, now)
    {
      if email !in otps {
        return false;
      }
      var record := otps[email];
      if !record.readable {
        return false;
      }
      if code == record.code && now < record.expiresAt {
        otps := otps - {email};
        return true;
      }
      ok := false;
    }
  }
}
