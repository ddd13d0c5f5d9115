/** The super-administrator console of the React client
    (SuperAdminDashboard.jsx): the role redirect and data load, the
    per-organisation user list, the organisation form, and the split of an
    organisation's users into staff and agents.  Requests are parameters
    (`Failed` when they throw); toasts are left out. */
module SuperAdmin {
  import opened Common
  import opened Rows

  datatype OrgForm = OrgForm(name: string, state: string, district: string, password: string)

  const BlankOrg := OrgForm("", "", "", "")

  /** Whether any of the four fields is empty. */
  predicate Incomplete(f: OrgForm) {
    f.name == "" || f.state == "" || f.district == "" || f.password == ""
  }

  /** The `/org/create` body: the form and the requester's email. */
  datatype CreateOrg = CreateOrg(form: OrgForm, requesterEmail: Field)

  function HasRole(role: string): Row -> bool {
    u => Get(u, "role") == Text(role)
  }

  function InOrg(orgId: Field): Row -> bool {
    u => Get(u, "organization_id") == orgId
  }

  /** `getOrgUsers`: the users of one organisation, in order. */
  function OrgUsers(users: seq<Row>, orgId: Field): seq<Row> {
    FilterSeq(users, InOrg(orgId))
  }

  /** A user is listed for an organisation exactly when it belongs to it. */
  lemma OrgUsersExactly(users: seq<Row>, orgId: Field, u: Row)
    ensures u in OrgUsers(users, orgId) <==> u in users && Get(u, "organization_id") == orgId
  {
    if u in users && Get(u, "organization_id") == orgId {
      FilterKeepsEvery(users, InOrg(orgId), u);
    }
  }

  /** The "Command staff" column. */
  function Staff(users: seq<Row>): seq<Row> {
    FilterSeq(users, HasRole("admin"))
  }

  /** The "Field agents" column. */
  function Agents(users: seq<Row>): seq<Row> {
    FilterSeq(users, HasRole("user"))
  }

  /** No user is in both columns; together they hold at most every user,
      and exactly every user when each role is "admin" or "user". */
  lemma {:induction false} StaffAndAgents(users: seq<Row>)
    ensures forall u :: u in Staff(users) ==> u !in Agents(users)
    ensures |Staff(users)| + |Agents(users)| <= |users|
    ensures (forall i :: 0 <= i < |users| ==> HasRole("admin")(users[i]) || HasRole("user")(users[i])) ==>
      |Staff(users)| + |Agents(users)| == |users|
  {
    if users != [] {
      StaffAndAgents(users[1..]);
      assert forall i :: 0 <= i < |users[1..]| ==> users[1..][i] == users[i + 1];
    }
  }

  class Console {
    var users: seq<Row>
    var orgs: seq<Row>
    var isLoading: bool
    var showCreateModal: bool
    var newOrg: OrgForm
    var redirectedTo: Option<string>

    constructor ()
      ensures users == [] && orgs == [] && isLoading && !showCreateModal && newOrg == BlankOrg && redirectedTo.None?
    {
      users, orgs, isLoading, showCreateModal, newOrg, redirectedTo := [], [], true, false, BlankOrg, None;
    }

    /** The mount effect: any signed-in user who is not a super
        administrator is sent home with nothing loaded; otherwise the data
        is loaded. */
    method Mount(user: Option<Row>, loaded: Outcome<(seq<Row>, seq<Row>)>) returns (didLoad: bool)
      modifies this
      ensures user.Some? && Get(user.value, "role") != Text("super_admin") ==>
        && !didLoad && redirectedTo == Some("/")
        && users == old(users) && orgs == old(orgs) && isLoading == old(isLoading)
      ensures !(user.Some? && Get(user.value, "role") != Text("super_admin")) ==>
        && didLoad && redirectedTo == old(redirectedTo) && !isLoading
        && (user.Some? && loaded.Ok? ==> users == loaded.value.0 && orgs == loaded.value.1)
        && (user.None? || loaded.Failed? ==> users == old(users) && orgs == old(orgs))
      ensures showCreateModal == old(showCreateModal) && newOrg == old(newOrg)
    {
      if user.Some? && Get(user.value, "role") != Text("super_admin") {
        redirectedTo := Some("/");
        return false;
      }
      LoadData(user, loaded);
      didLoad := true;
    }

    /** `loadData`: both lists replaced together, or neither; without a user
        the request cannot even be built and nothing is loaded. */
    method LoadData(user: Option<Row>, loaded: Outcome<(seq<Row>, seq<Row>)>)
      modifies this
      ensures user.Some? && loaded.Ok? ==> users == loaded.value.0 && orgs == loaded.value.1
      ensures user.None? || loaded.Failed? ==> users == old(users) && orgs == old(orgs)
      ensures !isLoading && showCreateModal == old(showCreateModal) && newOrg == old(newOrg)
      ensures redirectedTo == old(redirectedTo)
    {
      isLoading := true;
      if user.Some? && loaded.Ok? {
        users, orgs := loaded.value.0, loaded.value.1;
      }
      isLoading := false;
    }

    /** `handleCreateOrg`: an incomplete form sends nothing; a created
        organisation closes the modal, clears the form and asks for a
        reload; a failure changes nothing. */
    method HandleCreateOrg(user: Option<Row>, reply: Outcome<Row>) returns (sent: Option<CreateOrg>, reload: bool)
      modifies this
      ensures Incomplete(old(newOrg)) ==> sent.None? && !reload && newOrg == old(newOrg) && showCreateModal == old(showCreateModal)
      ensures !Incomplete(old(newOrg)) && user.Some? ==> sent == Some(CreateOrg(old(newOrg), Get(user.value, "email")))
      ensures !Incomplete(old(newOrg)) && user.None? ==> sent.None?
      ensures reload <==> !Incomplete(old(newOrg)) && user.Some? && reply.Ok?
      ensures reload ==> !showCreateModal && newOrg == BlankOrg
      ensures !reload ==> showCreateModal == old(showCreateModal) && newOrg == old(newOrg)
      ensures users == old(users) && orgs == old(orgs) && isLoading == old(isLoading) && redirectedTo == old(redirectedTo)
    {
      if Incomplete(newOrg) {
        return None, false;
      }
      if user.None? {
        return None, false;
      }
      sent := Some(CreateOrg(newOrg, Get(user.value, "email")));
      reload := reply.Ok?;
      if reload {
        showCreateModal, newOrg := false, BlankOrg;
      }
    }
  }
}
