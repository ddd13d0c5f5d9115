/** The clearance page of the React client (Verification.jsx): the
    `performChecks` sequence that reads the user's record and routes by
    role.  The sounds, toasts and the timed pauses are left out; the
    `/user/me` answer is a parameter (`Failed` when the request throws). */
module Verification {
  import opened Common
  import opened Rows

  /** The landing page for a role whose record passed the check. */
  function RoleHome(record: Row): (path: string)
    ensures path == "/super-admin" <==> Get(record, "role") == Text("super_admin")
    ensures path == "/admin" <==> Get(record, "role") == Text("admin")
    ensures path in {"/super-admin", "/admin", "/agent"}
  {
    if Get(record, "role") == Text("super_admin") then "/super-admin"
    else if Get(record, "role") == Text("admin") then "/admin"
    else "/agent"
  }

  predicate Cleared(record: Row) {
    Get(record, "status") == Text("verified") || Get(record, "status") == Text("pending_onboarding")
  }

  /** Where `performChecks` navigates: by role for a verified or
      onboarding record, to "/agent" for any other record or a failed
      request. */
  function Destination(reply: Outcome<Row>): (path: string)
    ensures reply.Ok? && Cleared(reply.value) ==> path == RoleHome(reply.value)
    ensures !(reply.Ok? && Cleared(reply.value)) ==> path == "/agent"
  {
    match reply
    case Ok(record) => if Cleared(record) then RoleHome(record) else "/agent"
    case Failed(_) => "/agent"
  }

  /** Only a cleared record of an administrator leads to an administration
      page; every other outcome lands on the agent console. */
  lemma AdminPagesNeedClearance(reply: Outcome<Row>)
    ensures Destination(reply) != "/agent" ==>
      reply.Ok? && Cleared(reply.value)
      && (Get(reply.value, "role") == Text("super_admin") || Get(reply.value, "role") == Text("admin"))
  {
  }

  class Page {
    /** 'checking', 'verifying', 'verified' or 'rejected'. */
    var status: string
    var subStatus: string
    var navigatedTo: Option<string>

    constructor ()
      ensures status == "checking" && subStatus == "INITIALIZING SECURE HANDSHAKE..." && navigatedTo.None?
    {
      status, subStatus, navigatedTo := "checking", "INITIALIZING SECURE HANDSHAKE...", None;
    }

    /** The effect: nothing without a user; otherwise the scan, the record
        check, and a navigation that happens on every outcome, with the
        status always ending 'verified'. */
    method PerformChecks(hasUser: bool, reply: Outcome<Row>)
      modifies this
      ensures !hasUser ==> status == old(status) && subStatus == old(subStatus) && navigatedTo == old(navigatedTo)
      ensures hasUser ==> status == "verified" && navigatedTo == Some(Destination(reply))
      ensures hasUser && reply.Ok? && Cleared(reply.value) ==> subStatus == "IDENTITY CONFIRMED. DECRYPTING CLEARANCE..."
      ensures hasUser && reply.Ok? && !Cleared(reply.value) ==> subStatus == "ESTABLISHING NEURAL LINK..."
      ensures hasUser && reply.Failed? ==> subStatus == "BYPASSING SECURITY PROTOCOLS..."
    {
      if !hasUser {
        return;
      }
      status, subStatus := "checking", "SCANNING BIOMETRIC SIGNATURE...";
      subStatus := "ESTABLISHING NEURAL LINK...";
      match reply {
        case Ok(record) =>
          if Cleared(record) {
            status, subStatus := "verified", "IDENTITY CONFIRMED. DECRYPTING CLEARANCE...";
            navigatedTo := Some(RoleHome(record));
          } else {
            status := "verified";
            navigatedTo := Some("/agent");
          }
        case Failed(_) =>
          status, subStatus := "verified", "BYPASSING SECURITY PROTOCOLS...";
          navigatedTo := Some("/agent");
      }
    }
  }
}
