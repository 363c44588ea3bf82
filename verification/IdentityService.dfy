/** The lifecycle operations themselves: update, delete, create, confirm, reset, accept. */
module IdentityService {
  import opened Common
  import opened WorkflowKeyring
  import opened EmailText
  import opened Identity
  import opened IdentityLifecycle

  // ---- Update ---------------------------------------------------------------------------------------

  predicate Accessible(db: Directory, u: UserId) {
    u in db.users && db.users[u].active && Verified(db.emails, u)
  }

  predicate RemovesOperator(db: Directory, u: UserId, cmd: Command)
    requires u in db.users
  {
    && db.users[u].operator && Accessible(db, u)
    && (cmd.operator == Some(false) || cmd.active == Some(false) || cmd.verified == Some(false))
  }

  predicate RemovesAdmin(db: Directory, u: UserId, cmd: Command)
    requires u in db.users && u in db.members
  {
    && db.members[u].role == Admin && Accessible(db, u)
    && (cmd.role == Some(Member) || cmd.active == Some(false) || cmd.verified == Some(false)
        || (cmd.organization.Some? && cmd.organization.value != db.members[u].organization))
  }

  /** `protect_update`: the checks, in order, on the counted rows. */
  function UpdateGuard(db: Directory, u: UserId, cmd: Command): Option<Error>
    requires u in db.users && u in db.members
  {
    if RemovesOperator(db, u, cmd) && |OperatorRows(db, {})| <= 1 then Some(LastOperator)
    else if RemovesAdmin(db, u, cmd) && |AdminRows(db, db.members[u].organization, {})| <= 1 then Some(LastAdmin)
    else None
  }

  function ChangedUser(user: User, cmd: Command): User {
    user.(active := Or(cmd.active, user.active), operator := Or(cmd.operator, user.operator))
  }

  function ChangedMember(m: Membership, cmd: Command): Membership {
    Membership(Or(cmd.organization, m.organization), Or(cmd.role, m.role))
  }

  function EmailsLeft(db: Directory, u: UserId, cmd: Command, policy: Policy, newId: EmailId): Directory
    requires Valid(db) && u in db.users && newId !in db.emails.rows
  {
    var plan := PlanFor(db.emails, u, cmd.email, policy);
    PlansAreSound(db.emails, u, cmd.email, policy);
    MovedIsOwn(db, u, plan, newId);
    MovedCurrent(db, u, plan, newId);
    MarkCurrent(Moved(db, u, plan, newId), u, cmd.verified)
  }

  function ColumnsLeft(db: Directory, u: UserId, cmd: Command): Directory
    requires u in db.users && u in db.members
  {
    db.(users := db.users[u := ChangedUser(db.users[u], cmd)],
        members := db.members[u := ChangedMember(db.members[u], cmd)],
        tokens := if db.users[u].active && cmd.active == Some(false)
                  then UseTokens(db.tokens, EmailsOf(db.emails, u), EVERY_PURPOSE) else db.tokens)
  }

  /** `_revokes_sessions`: a value is given for a column, and it differs. */
  predicate ChangesColumns(db: Directory, u: UserId, cmd: Command)
    requires u in db.users && u in db.members
  {
    || (cmd.active.Some? && cmd.active.value != db.users[u].active)
    || (cmd.operator.Some? && cmd.operator.value != db.users[u].operator)
    || (cmd.role.Some? && cmd.role.value != db.members[u].role)
    || (cmd.organization.Some? && cmd.organization.value != db.members[u].organization)
  }

  /** `email_security_changed`. The mark is compared on the address that is current by then, and a
      replacement comes in unverified. */
  predicate ChangesEmailSecurity(db: Directory, u: UserId, cmd: Command, plan: Plan)
    requires db.emails.Consistent() && u in db.emails.current
  {
    plan.Replace? || (cmd.verified.Some? && cmd.verified.value != db.emails.rows[db.emails.current[u]].verified)
  }

  function AfterRevocation(db: Directory, u: UserId, revokes: bool): Directory {
    if revokes then WithoutSessions(db, u) else db
  }

  predicate Revokes(db: Directory, u: UserId, cmd: Command, policy: Policy)
    requires Valid(db) && u in db.users
  {
    ChangesColumns(db, u, cmd) || ChangesEmailSecurity(db, u, cmd, PlanFor(db.emails, u, cmd.email, policy))
  }

  /** What an update that passes every check leaves. */
  function UpdateLeaves(db: Directory, u: UserId, cmd: Command, policy: Policy, newId: EmailId): Directory
    requires Valid(db) && u in db.users && newId !in db.emails.rows
  {
    EmailsLeftFacts(db, u, cmd, policy, newId);
    AfterRevocation(ColumnsLeft(EmailsLeft(db, u, cmd, policy, newId), u, cmd), u, Revokes(db, u, cmd, policy))
  }

  /** Verification after a write for `u` that sets the mark to `verified`, if present. */
  ghost predicate VerifiedAs(before: Emails, after: Emails, u: UserId, verified: Option<bool>) {
    forall v :: Verified(after, v) <==> if v == u then Or(verified, Verified(before, u)) else Verified(before, v)
  }

  lemma MarkIsExact(db: Directory, u: UserId, verified: Option<bool>)
    requires Valid(db) && u in db.users
    ensures VerifiedAs(db.emails, MarkCurrent(db, u, verified).emails, u, verified)
  {
  }

  lemma MarkKeepsOwners(db: Directory, u: UserId, verified: bool)
    requires db.emails.Consistent() && OwnersKnown(db) && u in db.emails.current
    ensures OwnersKnown(db.(emails := db.emails.Marked(db.emails.current[u], verified)))
  {
  }

  lemma MarkKeepsValid(db: Directory, u: UserId, verified: Option<bool>)
    requires Valid(db) && u in db.users
    ensures Valid(MarkCurrent(db, u, verified))
  {
    if verified.Some? {
      MarkedKeepsConsistent(db.emails, db.emails.current[u], verified.value);
      MarkKeepsOwners(db, u, verified.value);
    }
  }

  lemma MarkAfter(db: Directory, moved: Directory, u: UserId, verified: Option<bool>)
    requires Valid(moved) && u in moved.users && VerifiedAs(db.emails, moved.emails, u, None)
    ensures Valid(MarkCurrent(moved, u, verified))
    ensures VerifiedAs(db.emails, MarkCurrent(moved, u, verified).emails, u, verified)
  {
    MarkIsExact(moved, u, verified);
    MarkKeepsValid(moved, u, verified);
  }

  lemma MovedFacts(db: Directory, u: UserId, plan: Plan, newId: EmailId)
    requires Valid(db) && u in db.users && newId !in db.emails.rows && Sound(db.emails, u, plan)
    ensures var moved := Moved(db, u, plan, newId);
            && Valid(moved) && moved.users == db.users && moved.members == db.members
            && VerifiedAs(db.emails, moved.emails, u, None)
  {
    MovedKeepsValid(db, u, plan, newId);
    MovedKeepsColumns(db, u, plan, newId);
    MovedVerifiedAs(db, u, plan, newId);
  }

  lemma MovedKeepsColumns(db: Directory, u: UserId, plan: Plan, newId: EmailId)
    requires db.emails.Consistent() && u in db.emails.current
    ensures Moved(db, u, plan, newId).users == db.users && Moved(db, u, plan, newId).members == db.members
  {
  }

  lemma MovedVerifiedAs(db: Directory, u: UserId, plan: Plan, newId: EmailId)
    requires Valid(db) && u in db.users && newId !in db.emails.rows && Sound(db.emails, u, plan)
    ensures VerifiedAs(db.emails, Moved(db, u, plan, newId).emails, u, None)
  {
    var after := Moved(db, u, plan, newId).emails;
    forall v ensures Verified(after, v) <==> Verified(db.emails, v) {
      MovedKeepsVerified(db, u, plan, newId, v);
    }
  }

  lemma EmailsLeftFacts(db: Directory, u: UserId, cmd: Command, policy: Policy, newId: EmailId)
    requires Valid(db) && u in db.users && newId !in db.emails.rows
    ensures var after := EmailsLeft(db, u, cmd, policy, newId);
            && Valid(after) && after.users == db.users && after.members == db.members
            && VerifiedAs(db.emails, after.emails, u, cmd.verified)
  {
    var plan := PlanFor(db.emails, u, cmd.email, policy);
    PlansAreSound(db.emails, u, cmd.email, policy);
    MovedFacts(db, u, plan, newId);
    MarkAfter(db, Moved(db, u, plan, newId), u, cmd.verified);
  }

  lemma EmailsLeftKeepsColumns(db: Directory, u: UserId, cmd: Command, policy: Policy, newId: EmailId)
    requires Valid(db) && u in db.users && newId !in db.emails.rows
    ensures u in EmailsLeft(db, u, cmd, policy, newId).users && u in EmailsLeft(db, u, cmd, policy, newId).members
  {
    EmailsLeftFacts(db, u, cmd, policy, newId);
  }

  lemma ColumnsKeepValid(db: Directory, u: UserId, cmd: Command)
    requires Valid(db) && u in db.users
    ensures Valid(ColumnsLeft(db, u, cmd))
  {
  }

  lemma UpdateKeepsValid(db: Directory, u: UserId, cmd: Command, policy: Policy, newId: EmailId)
    requires Valid(db) && u in db.users && newId !in db.emails.rows
    ensures Valid(UpdateLeaves(db, u, cmd, policy, newId))
  {
    EmailsLeftFacts(db, u, cmd, policy, newId);
    ColumnsKeepValid(EmailsLeft(db, u, cmd, policy, newId), u, cmd);
  }

  /** Only the target's standing can change, and within an organization only by the target losing
      or gaining it. */
  ghost predicate ChangesOnly(db: Directory, after: Directory, u: UserId, cmd: Command)
    requires u in db.users && u in db.members
  {
    && LiveOperators(after) - {u} == LiveOperators(db) - {u}
    && (forall org :: LiveAdmins(after, org) - {u} == LiveAdmins(db, org) - {u})
    && (u in LiveOperators(db) && u !in LiveOperators(after) <==> RemovesOperator(db, u, cmd))
    && (forall org :: u in LiveAdmins(db, org) && u !in LiveAdmins(after, org) <==>
          org == db.members[u].organization && RemovesAdmin(db, u, cmd))
  }

  lemma OthersAfterColumns(db: Directory, mid: Directory, u: UserId, cmd: Command, v: UserId, org: OrganizationId)
    requires u in db.users && u in db.members && mid.users == db.users && mid.members == db.members
    requires VerifiedAs(db.emails, mid.emails, u, cmd.verified) && v != u
    ensures IsLiveOperator(ColumnsLeft(mid, u, cmd), v) <==> IsLiveOperator(db, v)
    ensures IsLiveAdmin(ColumnsLeft(mid, u, cmd), v, org) <==> IsLiveAdmin(db, v, org)
  {
  }

  lemma OperatorAfterColumns(db: Directory, mid: Directory, u: UserId, cmd: Command)
    requires u in db.users && u in db.members && mid.users == db.users && mid.members == db.members
    requires VerifiedAs(db.emails, mid.emails, u, cmd.verified)
    ensures IsLiveOperator(db, u) && !IsLiveOperator(ColumnsLeft(mid, u, cmd), u) <==> RemovesOperator(db, u, cmd)
  {
  }

  lemma AdminAfterColumns(db: Directory, mid: Directory, u: UserId, cmd: Command, org: OrganizationId)
    requires u in db.users && u in db.members && mid.users == db.users && mid.members == db.members
    requires VerifiedAs(db.emails, mid.emails, u, cmd.verified)
    ensures IsLiveAdmin(db, u, org) && !IsLiveAdmin(ColumnsLeft(mid, u, cmd), u, org) <==>
              org == db.members[u].organization && RemovesAdmin(db, u, cmd)
  {
  }

  lemma OperatorsAfterColumns(db: Directory, mid: Directory, u: UserId, cmd: Command)
    requires u in db.users && u in db.members && mid.users == db.users && mid.members == db.members
    requires VerifiedAs(db.emails, mid.emails, u, cmd.verified)
    ensures LiveOperators(ColumnsLeft(mid, u, cmd)) - {u} == LiveOperators(db) - {u}
    ensures u in LiveOperators(db) && u !in LiveOperators(ColumnsLeft(mid, u, cmd)) <==> RemovesOperator(db, u, cmd)
  {
    forall v | v != u ensures IsLiveOperator(ColumnsLeft(mid, u, cmd), v) <==> IsLiveOperator(db, v) {
      OthersAfterColumns(db, mid, u, cmd, v, 0);
    }
    OperatorAfterColumns(db, mid, u, cmd);
  }

  lemma AdminsAfterColumns(db: Directory, mid: Directory, u: UserId, cmd: Command, org: OrganizationId)
    requires u in db.users && u in db.members && mid.users == db.users && mid.members == db.members
    requires VerifiedAs(db.emails, mid.emails, u, cmd.verified)
    ensures LiveAdmins(ColumnsLeft(mid, u, cmd), org) - {u} == LiveAdmins(db, org) - {u}
    ensures u in LiveAdmins(db, org) && u !in LiveAdmins(ColumnsLeft(mid, u, cmd), org) <==>
              org == db.members[u].organization && RemovesAdmin(db, u, cmd)
  {
    forall v | v != u ensures IsLiveAdmin(ColumnsLeft(mid, u, cmd), v, org) <==> IsLiveAdmin(db, v, org) {
      OthersAfterColumns(db, mid, u, cmd, v, org);
    }
    AdminAfterColumns(db, mid, u, cmd, org);
  }

  lemma LiveAfterColumns(db: Directory, mid: Directory, u: UserId, cmd: Command)
    requires u in db.users && u in db.members && mid.users == db.users && mid.members == db.members
    requires VerifiedAs(db.emails, mid.emails, u, cmd.verified)
    ensures ChangesOnly(db, ColumnsLeft(mid, u, cmd), u, cmd)
  {
    OperatorsAfterColumns(db, mid, u, cmd);
    forall org ensures LiveAdmins(ColumnsLeft(mid, u, cmd), org) - {u} == LiveAdmins(db, org) - {u}
                 && (u in LiveAdmins(db, org) && u !in LiveAdmins(ColumnsLeft(mid, u, cmd), org) <==>
                       org == db.members[u].organization && RemovesAdmin(db, u, cmd))
    {
      AdminsAfterColumns(db, mid, u, cmd, org);
    }
  }

  lemma SessionsGiveNoStanding(db: Directory, u: UserId, revokes: bool)
    ensures LiveOperators(AfterRevocation(db, u, revokes)) == LiveOperators(db)
    ensures forall org :: LiveAdmins(AfterRevocation(db, u, revokes), org) == LiveAdmins(db, org)
  {
  }

  lemma LiveAfterUpdate(db: Directory, u: UserId, cmd: Command, policy: Policy, newId: EmailId)
    requires Valid(db) && u in db.users && newId !in db.emails.rows
    ensures ChangesOnly(db, UpdateLeaves(db, u, cmd, policy, newId), u, cmd)
  {
    EmailsLeftFacts(db, u, cmd, policy, newId);
    var mid := EmailsLeft(db, u, cmd, policy, newId);
    LiveAfterColumns(db, mid, u, cmd);
    SessionsGiveNoStanding(ColumnsLeft(mid, u, cmd), u, Revokes(db, u, cmd, policy));
  }

  /** Removing one live member from a set empties it exactly when the set held nobody else. */
  lemma EmptiedByOne(before: set<UserId>, after: set<UserId>, u: UserId)
    requires after - {u} == before - {u}
    ensures before != {} && after == {} <==> u in before && u !in after && |before| <= 1
  {
    if u in before && |before| <= 1 {
      assert |before - {u}| == 0;
    }
    if before != {} && after == {} {
      assert before == {u} by {
        assert before - {u} == {};
        var v :| v in before;
      }
    }
  }

  ghost predicate EndsOperators(db: Directory, after: Directory) {
    LiveOperators(db) != {} && LiveOperators(after) == {}
  }

  ghost predicate EndsAdmins(db: Directory, after: Directory, org: OrganizationId) {
    LiveAdmins(db, org) != {} && LiveAdmins(after, org) == {}
  }

  lemma OperatorUpdateGuard(db: Directory, after: Directory, u: UserId, cmd: Command)
    requires Valid(db) && u in db.users
    requires LiveOperators(after) - {u} == LiveOperators(db) - {u}
    requires u in LiveOperators(db) && u !in LiveOperators(after) <==> RemovesOperator(db, u, cmd)
    ensures EndsOperators(db, after) <==> RemovesOperator(db, u, cmd) && |OperatorRows(db, {})| <= 1
  {
    CountingRowsCountsOperators(db, {});
    assert LiveOperators(db) - {} == LiveOperators(db);
    EmptiedByOne(LiveOperators(db), LiveOperators(after), u);
  }

  lemma AdminUpdateGuard(db: Directory, after: Directory, u: UserId, cmd: Command, org: OrganizationId)
    requires Valid(db) && u in db.users
    requires LiveAdmins(after, org) - {u} == LiveAdmins(db, org) - {u}
    requires u in LiveAdmins(db, org) && u !in LiveAdmins(after, org) <==>
               org == db.members[u].organization && RemovesAdmin(db, u, cmd)
    ensures EndsAdmins(db, after, org) <==>
              org == db.members[u].organization && RemovesAdmin(db, u, cmd) && |AdminRows(db, org, {})| <= 1
  {
    CountingRowsCountsAdmins(db, org, {});
    assert LiveAdmins(db, org) - {} == LiveAdmins(db, org);
    EmptiedByOne(LiveAdmins(db, org), LiveAdmins(after, org), u);
  }

  lemma GuardMatches(db: Directory, after: Directory, u: UserId, cmd: Command)
    requires Valid(db) && u in db.users && ChangesOnly(db, after, u, cmd)
    ensures UpdateGuard(db, u, cmd) ==
              if EndsOperators(db, after) then Some(LastOperator)
              else if exists org :: EndsAdmins(db, after, org) then Some(LastAdmin)
              else None
  {
    OperatorUpdateGuard(db, after, u, cmd);
    var home := db.members[u].organization;
    forall org ensures EndsAdmins(db, after, org) <==>
                         org == home && RemovesAdmin(db, u, cmd) && |AdminRows(db, home, {})| <= 1
    {
      AdminUpdateGuard(db, after, u, cmd, org);
    }
    assert EndsAdmins(db, after, home) <==> RemovesAdmin(db, u, cmd) && |AdminRows(db, home, {})| <= 1;
  }

  /** The guard refuses exactly the updates that would leave the server without a live operator,
      or, failing that, an organization without a live administrator. */
  lemma UpdateGuardIsExact(db: Directory, u: UserId, cmd: Command, policy: Policy, newId: EmailId)
    requires Valid(db) && u in db.users && newId !in db.emails.rows
    ensures var after := UpdateLeaves(db, u, cmd, policy, newId);
            UpdateGuard(db, u, cmd) ==
              if EndsOperators(db, after) then Some(LastOperator)
              else if exists org :: EndsAdmins(db, after, org) then Some(LastAdmin)
              else None
  {
    LiveAfterUpdate(db, u, cmd, policy, newId);
    GuardMatches(db, UpdateLeaves(db, u, cmd, policy, newId), u, cmd);
  }

  // ---- Delete -----------------------------------------------------------------------------------------

  /** `DELETE FROM user` with its cascades to memberships, addresses, tokens and sessions. */
  function DeleteLeaves(db: Directory, targets: set<UserId>): Directory {
    Directory(
      db.users - targets,
      db.members - targets,
      Emails(map id | id in db.emails.rows && db.emails.rows[id].user !in targets :: db.emails.rows[id],
             db.emails.current - targets,
             db.emails.pending - targets,
             map a | a in db.emails.inUse && db.emails.inUse[a] in db.emails.rows
                     && db.emails.rows[db.emails.inUse[a]].user !in targets :: db.emails.inUse[a]),
      map t | t in db.tokens && !(db.tokens[t].email in db.emails.rows && db.emails.rows[db.tokens[t].email].user in targets)
           :: db.tokens[t],
      map s | s in db.sessions && db.sessions[s] !in targets :: db.sessions[s])
  }

  /** The organizations in which a target is a live administrator. */
  function AffectedOrganizations(db: Directory, targets: set<UserId>): set<OrganizationId> {
    set u | u in targets && u in db.members && db.members[u].role == Admin && Accessible(db, u) :: db.members[u].organization
  }

  predicate ProtectsOperator(db: Directory, targets: set<UserId>) {
    exists u :: u in targets && Accessible(db, u) && db.users[u].operator
  }

  predicate NoAdminRows(db: Directory, org: OrganizationId, targets: set<UserId>) {
    |AdminRows(db, org, targets)| == 0
  }

  /** `protect_delete`. */
  function DeleteGuard(db: Directory, targets: set<UserId>): Option<Error> {
    if ProtectsOperator(db, targets) && |OperatorRows(db, targets)| == 0 then Some(LastOperator)
    else if exists org :: org in AffectedOrganizations(db, targets) && NoAdminRows(db, org, targets)
    then Some(LastAdmin)
    else None
  }

  lemma DeleteKeepsConsistent(db: Directory, targets: set<UserId>)
    requires db.emails.Consistent()
    ensures DeleteLeaves(db, targets).emails.Consistent()
  {
  }

  lemma DeleteKeepsValid(db: Directory, targets: set<UserId>)
    requires Valid(db)
    ensures Valid(DeleteLeaves(db, targets))
  {
    DeleteKeepsConsistent(db, targets);
  }

  lemma VerifiedAfterDelete(db: Directory, targets: set<UserId>, v: UserId)
    requires db.emails.Consistent()
    ensures Verified(DeleteLeaves(db, targets).emails, v) <==> v !in targets && Verified(db.emails, v)
  {
  }

  lemma LiveUserAfterDelete(db: Directory, targets: set<UserId>, v: UserId, org: OrganizationId)
    requires db.emails.Consistent()
    ensures IsLiveOperator(DeleteLeaves(db, targets), v) <==> v !in targets && IsLiveOperator(db, v)
    ensures IsLiveAdmin(DeleteLeaves(db, targets), v, org) <==> v !in targets && IsLiveAdmin(db, v, org)
  {
    VerifiedAfterDelete(db, targets, v);
  }

  lemma LiveAfterDelete(db: Directory, targets: set<UserId>, org: OrganizationId)
    requires Valid(db)
    ensures LiveOperators(DeleteLeaves(db, targets)) == LiveOperators(db) - targets
    ensures LiveAdmins(DeleteLeaves(db, targets), org) == LiveAdmins(db, org) - targets
  {
    forall v ensures (IsLiveOperator(DeleteLeaves(db, targets), v) <==> v !in targets && IsLiveOperator(db, v))
               && (IsLiveAdmin(DeleteLeaves(db, targets), v, org) <==> v !in targets && IsLiveAdmin(db, v, org))
    {
      LiveUserAfterDelete(db, targets, v, org);
    }
  }

  lemma OperatorGuardIsExact(db: Directory, targets: set<UserId>)
    requires Valid(db)
    ensures EndsOperators(db, DeleteLeaves(db, targets)) <==>
              ProtectsOperator(db, targets) && |OperatorRows(db, targets)| == 0
  {
    LiveAfterDelete(db, targets, 0);
    CountingRowsCountsOperators(db, targets);
    OperatorsAreAmongTargets(db, targets);
  }

  lemma AdminGuardIsExact(db: Directory, targets: set<UserId>, org: OrganizationId)
    requires Valid(db)
    ensures EndsAdmins(db, DeleteLeaves(db, targets), org) <==>
              org in AffectedOrganizations(db, targets) && NoAdminRows(db, org, targets)
  {
    LiveAfterDelete(db, targets, org);
    CountingRowsCountsAdmins(db, org, targets);
    AdminsAreAmongTargets(db, targets, org);
  }

  /** Deleting several users at once is refused exactly when nobody live would remain in a scope
      that has somebody: the server first, then the organizations. */
  lemma DeleteGuardIsExact(db: Directory, targets: set<UserId>)
    requires Valid(db)
    ensures DeleteGuard(db, targets) ==
              if EndsOperators(db, DeleteLeaves(db, targets)) then Some(LastOperator)
              else if exists org :: EndsAdmins(db, DeleteLeaves(db, targets), org) then Some(LastAdmin)
              else None
  {
    OperatorGuardIsExact(db, targets);
    forall org ensures EndsAdmins(db, DeleteLeaves(db, targets), org) <==>
                         org in AffectedOrganizations(db, targets) && NoAdminRows(db, org, targets)
    {
      AdminGuardIsExact(db, targets, org);
    }
  }

  lemma OperatorsAreAmongTargets(db: Directory, targets: set<UserId>)
    requires Valid(db)
    ensures LiveOperators(db) != {} && LiveOperators(db) - targets == {} <==>
              ProtectsOperator(db, targets) && |LiveOperators(db) - targets| == 0
  {
    if LiveOperators(db) != {} && LiveOperators(db) - targets == {} {
      var u :| u in LiveOperators(db);
      assert u in LiveOperators(db) - targets || u in targets;
    }
    if ProtectsOperator(db, targets) {
      var u :| u in targets && Accessible(db, u) && db.users[u].operator;
      assert u in LiveOperators(db);
    }
  }

  lemma AdminsAreAmongTargets(db: Directory, targets: set<UserId>, org: OrganizationId)
    requires Valid(db)
    ensures LiveAdmins(db, org) != {} && LiveAdmins(db, org) - targets == {} <==>
              org in AffectedOrganizations(db, targets) && |LiveAdmins(db, org) - targets| == 0
  {
    if LiveAdmins(db, org) != {} && LiveAdmins(db, org) - targets == {} {
      var u :| u in LiveAdmins(db, org);
      assert u in LiveAdmins(db, org) - targets || u in targets;
      assert db.members[u].organization == org;
    }
    if org in AffectedOrganizations(db, targets) {
      var u :| u in targets && u in db.members && db.members[u].role == Admin && Accessible(db, u)
               && db.members[u].organization == org;
      assert u in LiveAdmins(db, org);
    }
  }

  // ---- Create -------------------------------------------------------------------------------------------

  datatype NewUser = NewUser(email: string, member: Membership, active: bool, operator: bool, verified: bool, invited: bool)

  function CreateLeaves(db: Directory, n: NewUser, u: UserId, id: EmailId, passwordHash: string): Directory {
    Directory(db.users[u := User(n.active, n.operator, n.invited, passwordHash)],
              db.members[u := n.member],
              db.emails.Insert(id, Email(u, Normalize(n.email), Current, n.verified)),
              db.tokens, db.sessions)
  }

  lemma NewcomerFits(db: Directory, n: NewUser, u: UserId)
    requires Valid(db) && u !in db.users && Available(db.emails, n.email, None)
    ensures db.emails.Fits(Email(u, Normalize(n.email), Current, n.verified))
  {
  }

  lemma CreateKeepsOwners(db: Directory, n: NewUser, u: UserId, id: EmailId, passwordHash: string)
    requires db.emails.current.Keys == db.users.Keys == db.members.Keys && OwnersKnown(db)
    ensures var after := CreateLeaves(db, n, u, id, passwordHash);
            OwnersKnown(after) && after.emails.current.Keys == after.users.Keys == after.members.Keys
  {
  }

  lemma CreateKeepsValid(db: Directory, n: NewUser, u: UserId, id: EmailId, passwordHash: string)
    requires Valid(db) && u !in db.users && id !in db.emails.rows && Available(db.emails, n.email, None)
    ensures Valid(CreateLeaves(db, n, u, id, passwordHash))
  {
    NewcomerFits(db, n, u);
    InsertKeepsConsistent(db.emails, id, Email(u, Normalize(n.email), Current, n.verified));
    CreateKeepsOwners(db, n, u, id, passwordHash);
  }

  // ---- Confirmation of addresses, and password tokens --------------------------------------------------------

  predicate TokenOpens(db: Directory, t: TokenId, purposes: set<Purpose>, now: Time) {
    t in db.tokens && !db.tokens[t].used && db.tokens[t].expiresAt > now && db.tokens[t].purpose in purposes
  }

  /** `_token_target`: the address row the token names, in the wanted state, of an active user. */
  predicate HasTarget(db: Directory, t: TokenId, status: Status)
    requires t in db.tokens
  {
    var id := db.tokens[t].email;
    id in db.emails.rows && db.emails.rows[id].status == status
    && db.emails.rows[id].user in db.users && db.users[db.emails.rows[id].user].active
  }

  function Spend(db: Directory, t: TokenId): Directory
    requires t in db.tokens
  {
    db.(tokens := db.tokens[t := db.tokens[t].(used := true)])
  }

  predicate Confirms(db: Directory, t: TokenId, purposes: set<Purpose>, now: Time) {
    TokenOpens(db, t, purposes, now)
    && HasTarget(db, t, if db.tokens[t].purpose == EmailChange then Pending else Current)
  }

  function ConfirmLeaves(db: Directory, t: TokenId): Directory
    requires Valid(db) && t in db.tokens
    requires HasTarget(db, t, if db.tokens[t].purpose == EmailChange then Pending else Current)
  {
    var id, spent := db.tokens[t].email, Spend(db, t);
    var u := db.emails.rows[id].user;
    if db.tokens[t].purpose == EmailChange
    then
      var retired := Retire(spent, db.emails.current[u]);
      WithoutSessions(retired.(emails := retired.emails.Promoted(id)), u)
    else WithoutSessions(spent.(emails := spent.emails.Marked(id, true)), u)
  }

  predicate SetsPassword(db: Directory, t: TokenId, purpose: Purpose, now: Time) {
    && TokenOpens(db, t, {purpose}, now) && HasTarget(db, t, Current)
    && (purpose == Invite ==> db.users[db.emails.rows[db.tokens[t].email].user].invitationPending)
  }

  function WithPassword(db: Directory, u: UserId, hash: string): Directory
    requires u in db.users
  {
    WithoutSessions(
      db.(users := db.users[u := db.users[u].(passwordHash := hash, invitationPending := false)],
          tokens := UseTokens(db.tokens, EmailsOf(db.emails, u), CREDENTIAL_PURPOSES)),
      u)
  }

  /** `reset_password` and `accept_invite`: the address that received the token is verified too. */
  function PasswordLeaves(db: Directory, t: TokenId, hash: string): Directory
    requires t in db.tokens && HasTarget(db, t, Current)
  {
    var id := db.tokens[t].email;
    var renewed := WithPassword(Spend(db, t), db.emails.rows[id].user, hash);
    renewed.(emails := renewed.emails.Marked(id, true))
  }

  lemma PromotionKeepsConsistent(emails: Emails, u: UserId, id: EmailId)
    requires emails.Consistent() && id in emails.rows && emails.rows[id].status == Pending && emails.rows[id].user == u
    requires u in emails.current
    ensures emails.Retired(emails.current[u]).Promoted(id).Consistent()
  {
    RetiredKeepsConsistent(emails, emails.current[u]);
    PromotedKeepsConsistent(emails.Retired(emails.current[u]), id);
  }

  lemma PromotionKeepsKeys(emails: Emails, u: UserId, id: EmailId)
    requires emails.Consistent() && u in emails.current && id in emails.rows && emails.rows[id].user == u && emails.rows[id].status == Pending
    ensures emails.Retired(emails.current[u]).Promoted(id).current.Keys == emails.current.Keys
  {
  }

  lemma PromotionKeepsOwners(db: Directory, u: UserId, id: EmailId)
    requires db.emails.Consistent() && OwnersKnown(db) && u in db.emails.current && id in db.emails.rows
    requires id != db.emails.current[u]
    ensures OwnersKnown(db.(emails := db.emails.Retired(db.emails.current[u]).Promoted(id)))
  {
  }

  lemma ConfirmKeepsValid(db: Directory, t: TokenId, purposes: set<Purpose>, now: Time)
    requires Valid(db) && Confirms(db, t, purposes, now)
    ensures Valid(ConfirmLeaves(db, t))
  {
    var id := db.tokens[t].email;
    var u := db.emails.rows[id].user;
    if db.tokens[t].purpose == EmailChange {
      PromotionKeepsConsistent(db.emails, u, id);
      PromotionKeepsKeys(db.emails, u, id);
      PromotionKeepsOwners(db, u, id);
      assert ConfirmLeaves(db, t).emails == db.emails.Retired(db.emails.current[u]).Promoted(id);
    } else {
      MarkedKeepsConsistent(db.emails, id, true);
    }
  }

  lemma PasswordKeepsValid(db: Directory, t: TokenId, hash: string)
    requires Valid(db) && t in db.tokens && HasTarget(db, t, Current)
    ensures Valid(PasswordLeaves(db, t, hash))
  {
    MarkedKeepsConsistent(db.emails, db.tokens[t].email, true);
  }

  /** These steps verify an address and unverify none: nobody live stops being so. */
  lemma VerifyingSparesLive(db: Directory, after: Directory)
    requires after.users.Keys >= db.users.Keys && after.members.Keys >= db.members.Keys
    requires forall u | u in db.users :: after.users[u].active == db.users[u].active && after.users[u].operator == db.users[u].operator
    requires forall u | u in db.members :: after.members[u] == db.members[u]
    requires forall u | Verified(db.emails, u) :: Verified(after.emails, u)
    ensures LiveOperators(db) <= LiveOperators(after)
    ensures forall org :: LiveAdmins(db, org) <= LiveAdmins(after, org)
  {
  }

  lemma GuardedUpdateEndsNobody(db: Directory, u: UserId, cmd: Command, policy: Policy, newId: EmailId, org: OrganizationId)
    requires Valid(db) && u in db.users && newId !in db.emails.rows && UpdateGuard(db, u, cmd).None?
    ensures !EndsOperators(db, UpdateLeaves(db, u, cmd, policy, newId))
    ensures !EndsAdmins(db, UpdateLeaves(db, u, cmd, policy, newId), org)
  {
    UpdateGuardIsExact(db, u, cmd, policy, newId);
  }

  lemma GuardedDeleteEndsNobody(db: Directory, targets: set<UserId>, org: OrganizationId)
    requires Valid(db) && DeleteGuard(db, targets).None?
    ensures !EndsOperators(db, DeleteLeaves(db, targets)) && !EndsAdmins(db, DeleteLeaves(db, targets), org)
  {
    DeleteGuardIsExact(db, targets);
  }
}
