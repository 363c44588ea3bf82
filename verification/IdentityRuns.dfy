/** The lifecycle code on a mutable directory, and what every run of its operations keeps. */
module IdentityRuns {
  import opened Common
  import opened RowOrder
  import opened WorkflowKeyring
  import opened EmailText
  import opened Identity
  import opened IdentityLifecycle
  import opened IdentityService

  // ---- The code -------------------------------------------------------------------------------------

  /** `EmailUpdateEffects`. */
  datatype Effects = Effects(plan: Plan, securityChanged: bool)

  /** The notification an update publishes, about one address row. */
  datatype Announcement = EmailChangeRequested(email: EmailId) | InviteCreated(email: EmailId)

  function Announced(plan: Plan, newId: EmailId, invitationPending: bool): Option<Announcement> {
    match plan
    case Request(_) => Some(EmailChangeRequested(newId))
    case Replace(_) => if invitationPending then Some(InviteCreated(newId)) else None
    case _ => None
  }

  predicate HasAnnounced(db: Directory, u: UserId, plan: Plan) {
    && (plan.Request? ==> u in db.emails.pending)
    && (plan.Replace? ==> u in db.users && u in db.emails.current)
  }

  function AnnouncementOf(db: Directory, u: UserId, plan: Plan): Option<Announcement>
    requires HasAnnounced(db, u, plan)
  {
    match plan
    case Request(_) => Some(EmailChangeRequested(db.emails.pending[u]))
    case Replace(_) => if db.users[u].invitationPending then Some(InviteCreated(db.emails.current[u])) else None
    case _ => None
  }

  /** What is announced is the user's own pending or current row, with the address asked for. */
  predicate AnnouncesOwnAddress(emails: Emails, u: UserId, a: Announcement, address: string) {
    && a.email in emails.rows && emails.rows[a.email].address == address && emails.rows[a.email].user == u
    && (if a.EmailChangeRequested? then u in emails.pending && emails.pending[u] == a.email
        else u in emails.current && emails.current[u] == a.email)
  }

  lemma MarkingAgain(emails: Emails, id: EmailId)
    requires id in emails.rows
    ensures emails.Marked(id, emails.rows[id].verified) == emails
  {
    assert emails.rows[id := emails.rows[id].(verified := emails.rows[id].verified)] == emails.rows;
  }

  class IdentityStore {
    var db: Directory

    /** `create`: a free address is reserved for the new user, or nothing is written. */
    method CreateUser(n: NewUser, u: UserId, id: EmailId, passwordHash: string) returns (result: Result<EmailId, Error>)
      requires Valid(db) && u !in db.users && id !in db.emails.rows
      modifies this
      ensures Valid(db)
      ensures if Available(old(db).emails, n.email, None)
              then result == Ok(id) && db == CreateLeaves(old(db), n, u, id, passwordHash)
              else result == Err(AddressTaken) && db == old(db)
    {
      if !Available(db.emails, n.email, None) {
        return Err(AddressTaken);
      }
      CreateKeepsValid(db, n, u, id, passwordHash);
      NewcomerFits(db, n, u);
      NormalizeIsStable(n.email);
      var display := Strip(n.email);
      var e := Email(u, Normalize(display), Current, n.verified);
      if !db.emails.Fits(e) {
        return Err(UniqueViolation);
      }
      db := Directory(db.users[u := User(n.active, n.operator, n.invited, passwordHash)], db.members[u := n.member],
                      db.emails.Insert(id, e), db.tokens, db.sessions);
      return Ok(id);
    }

    method RevokeUserSecuritySessions(u: UserId)
      modifies this
      ensures db == WithoutSessions(old(db), u) && HoldsNoSession(db, u)
    {
      db := db.(sessions := map s | s in db.sessions && db.sessions[s] != u :: db.sessions[s]);
    }

    /** `retire_email`. */
    method RetireEmail(id: EmailId)
      requires id in db.emails.rows
      modifies this
      ensures db == Retire(old(db), id)
    {
      if !InUse(db.emails.rows[id]) {
        return;
      }
      db := db.(tokens := UseTokens(db.tokens, {id}, EVERY_PURPOSE));
      db := db.(emails := db.emails.Retired(id));
    }

    /** `create_user_email`; false is a violated unique index. */
    method CreateUserEmail(u: UserId, email: string, status: Status, newId: EmailId) returns (created: bool)
      requires newId !in db.emails.rows
      modifies this
      ensures created == old(db).emails.Fits(Email(u, Normalize(email), status, false))
      ensures db == if created then old(db).(emails := old(db).emails.Insert(newId, Email(u, Normalize(email), status, false)))
                    else old(db)
    {
      var display := Strip(email);
      NormalizeIsStable(email);
      var e := Email(u, Normalize(display), status, false);
      created := db.emails.Fits(e);
      if created {
        db := db.(emails := db.emails.Insert(newId, e));
      }
    }

    /** The direct branch of `apply_update`: both addresses retire, then the new one comes in. */
    method ReplaceCurrent(u: UserId, email: string, newId: EmailId) returns (created: bool)
      requires db.emails.Consistent() && u in db.emails.current && newId !in db.emails.rows
      requires Normalize(email) !in db.emails.inUse
      modifies this
      ensures created && db == Moved(old(db), u, Replace(Normalize(email)), newId)
    {
      ghost var before := db;
      ClearedHasRoom(db, u, Replace(Normalize(email)));
      ClearedKeepsKeys(db, u, Replace(Normalize(email)));
      RetiredKeepsConsistent(db.emails, db.emails.current[u]);
      RetireEmail(db.emails.current[u]);
      if u in db.emails.pending {
        RetireEmail(db.emails.pending[u]);
      }
      assert db == Cleared(before, u, Replace(Normalize(email)));
      created := CreateUserEmail(u, email, Current, newId);
    }

    /** The other branch: only a pending address makes way. */
    method ReplacePending(u: UserId, email: string, newId: EmailId) returns (created: bool)
      requires db.emails.Consistent() && u in db.emails.current && newId !in db.emails.rows
      requires Normalize(email) !in db.emails.inUse
      modifies this
      ensures created && db == Moved(old(db), u, Request(Normalize(email)), newId)
    {
      ghost var before := db;
      ClearedHasRoom(db, u, Request(Normalize(email)));
      ClearedKeepsKeys(db, u, Request(Normalize(email)));
      if u in db.emails.pending {
        RetireEmail(db.emails.pending[u]);
      }
      assert db == Cleared(before, u, Request(Normalize(email)));
      created := CreateUserEmail(u, email, Pending, newId);
    }

    /** The first half of `apply_update`. No write meets a violated index. */
    method MoveAddress(u: UserId, email: string, policy: Policy, newId: EmailId) returns (result: Result<Plan, Error>)
      requires db.emails.Consistent() && u in db.emails.current && newId !in db.emails.rows
      modifies this
      ensures var plan := PlanFor(old(db).emails, u, Some(email), policy);
              if plan.Taken? then result == Err(AddressTaken) && db == old(db)
              else result == Ok(plan) && db == Moved(old(db), u, plan, newId)
    {
      PlansAreSound(db.emails, u, Some(email), policy);
      var address := Normalize(email);
      var current := db.emails.rows[db.emails.current[u]];
      var known := {current.address};
      if u in db.emails.pending {
        known := known + {db.emails.rows[db.emails.pending[u]].address};
      }
      if address in known {
        return Ok(Keep);
      }
      if !Available(db.emails, address, Some(u)) {
        return Err(AddressTaken);
      }
      var created;
      if policy.DirectIfUnverified? && !current.verified {
        created := ReplaceCurrent(u, email, newId);
        return Ok(Replace(address));
      } else {
        created := ReplacePending(u, email, newId);
        return Ok(Request(address));
      }
    }

    /** `apply_update`. The plan says what to announce: a request sends a confirmation, a
        replacement a new invitation. */
    method ApplyUpdate(u: UserId, cmd: Command, policy: Policy, newId: EmailId) returns (result: Result<Effects, Error>)
      requires Valid(db) && u in db.users && newId !in db.emails.rows
      modifies this
      ensures var plan := PlanFor(old(db).emails, u, cmd.email, policy);
              if plan.Taken? then result == Err(AddressTaken) && db == old(db)
              else
                && result == Ok(Effects(plan, ChangesEmailSecurity(old(db), u, cmd, plan)))
                && db == EmailsLeft(old(db), u, cmd, policy, newId)
    {
      ghost var before, plan := db, PlanFor(db.emails, u, cmd.email, policy);
      PlansAreSound(db.emails, u, cmd.email, policy);
      MovedIsOwn(db, u, plan, newId);
      MovedCurrent(db, u, plan, newId);
      MovedMark(db, u, plan, newId);
      var effects := Effects(Keep, false);
      if cmd.email.Some? {
        var moved := MoveAddress(u, cmd.email.value, policy, newId);
        if moved.Err? {
          return Err(moved.error);
        }
        effects := Effects(moved.value, moved.value.Replace?);
      }
      assert db == Moved(before, u, plan, newId);
      if cmd.verified.Some? {
        if db.emails.rows[db.emails.current[u]].verified != cmd.verified.value {
          effects := effects.(securityChanged := true);
          db := db.(emails := db.emails.Marked(db.emails.current[u], cmd.verified.value));
        } else {
          MarkingAgain(db.emails, db.emails.current[u]);
        }
      }
      return Ok(effects);
    }

    /** `protect_update`. */
    method ProtectUpdate(u: UserId, cmd: Command) returns (refusal: Option<Error>)
      requires Valid(db) && u in db.users
      ensures refusal == UpdateGuard(db, u, cmd)
    {
      var accessible := db.users[u].active && Verified(db.emails, u);
      var m := db.members[u];
      var removesAdmin := m.role == Admin && accessible
                          && (cmd.role == Some(Member) || cmd.active == Some(false) || cmd.verified == Some(false)
                              || (cmd.organization.Some? && cmd.organization.value != m.organization));
      var removesOperator := db.users[u].operator && accessible
                             && (cmd.operator == Some(false) || cmd.active == Some(false) || cmd.verified == Some(false));
      if removesOperator {
        if |OperatorRows(db, {})| <= 1 {
          return Some(LastOperator);
        }
      }
      if removesAdmin {
        if |AdminRows(db, m.organization, {})| <= 1 {
          return Some(LastAdmin);
        }
      }
      return None;
    }

    /** The rest of `update`: the writes to the user and its membership, then what it publishes, read
        from the refreshed row. Whether sessions are revoked is decided before the writes. */
    method WriteChanges(u: UserId, cmd: Command, effects: Effects) returns (announcement: Option<Announcement>)
      requires u in db.users && u in db.members && HasAnnounced(db, u, effects.plan)
      modifies this
      ensures db == AfterRevocation(ColumnsLeft(old(db), u, cmd), u, ChangesColumns(old(db), u, cmd) || effects.securityChanged)
      ensures announcement == AnnouncementOf(old(db), u, effects.plan)
    {
      var wasActive := db.users[u].active;
      var revokes := ChangesColumns(db, u, cmd) || effects.securityChanged;
      db := db.(users := db.users[u := ChangedUser(db.users[u], cmd)]);
      db := db.(members := db.members[u := ChangedMember(db.members[u], cmd)]);
      if revokes {
        RevokeUserSecuritySessions(u);
      }
      if wasActive && cmd.active == Some(false) {
        db := db.(tokens := UseTokens(db.tokens, EmailsOf(db.emails, u), EVERY_PURPOSE));
      }
      match effects.plan
      case Request(_) => return Some(EmailChangeRequested(db.emails.pending[u]));
      case Replace(_) => return if db.users[u].invitationPending then Some(InviteCreated(db.emails.current[u])) else None;
      case _ => return None;
    }

    /** `update` once the guard has passed. */
    method ApplyChanges(u: UserId, cmd: Command, policy: Policy, newId: EmailId) returns (result: Result<Option<Announcement>, Error>)
      requires Valid(db) && u in db.users && newId !in db.emails.rows
      modifies this
      ensures var plan := PlanFor(old(db).emails, u, cmd.email, policy);
              if plan.Taken? then result == Err(AddressTaken) && db == old(db)
              else
                && result == Ok(Announced(plan, newId, old(db).users[u].invitationPending))
                && db == UpdateLeaves(old(db), u, cmd, policy, newId)
    {
      ghost var before := db;
      var applied := ApplyUpdate(u, cmd, policy, newId);
      if applied.Err? {
        return Err(applied.error);
      }
      DecidedInTime(before, u, cmd, policy, newId, db);
      PlannedRowIsOwn(before, u, cmd, policy, newId, db);
      var announcement := WriteChanges(u, cmd, applied.value);
      return Ok(announcement);
    }

    /** `update`: guard, addresses, columns, sessions, tokens, in that order. */
    method Update(u: UserId, cmd: Command, policy: Policy, newId: EmailId) returns (result: Result<Option<Announcement>, Error>)
      requires Valid(db) && u in db.users && newId !in db.emails.rows
      modifies this
      ensures Valid(db)
      ensures var refusal, plan := UpdateGuard(old(db), u, cmd), PlanFor(old(db).emails, u, cmd.email, policy);
              if refusal.Some? then result == Err(refusal.value) && db == old(db)
              else if plan.Taken? then result == Err(AddressTaken) && db == old(db)
              else
                && result == Ok(Announced(plan, newId, old(db).users[u].invitationPending))
                && db == UpdateLeaves(old(db), u, cmd, policy, newId)
      ensures result.Ok? && result.value.Some? ==>
                AnnouncesOwnAddress(db.emails, u, result.value.value, Normalize(cmd.email.value))
    {
      ghost var before := db;
      var refusal := ProtectUpdate(u, cmd);
      if refusal.Some? {
        return Err(refusal.value);
      }
      result := ApplyChanges(u, cmd, policy, newId);
      if result.Ok? {
        UpdateKeepsValid(before, u, cmd, policy, newId);
        UpdateKeepsAddresses(before, u, cmd, policy, newId);
        if result.value.Some? {
          UpdateAnnouncesOwn(before, u, cmd, policy, newId, db.emails, result.value.value);
        }
      }
    }

    /** The loop of `protect_delete`, over the organizations in ascending order. */
    method FindOrphaned(order: seq<OrganizationId>, targets: set<UserId>) returns (found: bool)
      ensures found <==> exists k :: 0 <= k < |order| && NoAdminRows(db, order[k], targets)
    {
      for i := 0 to |order|
        invariant forall k | 0 <= k < i :: !NoAdminRows(db, order[k], targets)
      {
        if NoAdminRows(db, order[i], targets) {
          return true;
        }
      }
      return false;
    }

    /** `protect_delete`. */
    method ProtectDelete(targets: set<UserId>) returns (refusal: Option<Error>)
      requires Valid(db)
      ensures refusal == DeleteGuard(db, targets)
    {
      if ProtectsOperator(db, targets) {
        if |OperatorRows(db, targets)| == 0 {
          return Some(LastOperator);
        }
      }
      var affected := AffectedOrganizations(db, targets);
      AscendingListsAll(affected);
      var order := Ascending(affected);
      var found := FindOrphaned(order, targets);
      if found {
        ghost var k :| 0 <= k < |order| && NoAdminRows(db, order[k], targets);
        assert order[k] in affected;
        return Some(LastAdmin);
      }
      forall org | org in affected ensures !NoAdminRows(db, org, targets) {
        var k :| 0 <= k < |order| && order[k] == org;
      }
      return None;
    }

    /** `delete`. */
    method Delete(targets: set<UserId>) returns (result: Result<nat, Error>)
      requires Valid(db)
      modifies this
      ensures Valid(db)
      ensures if targets == {} then result == Ok(0) && db == old(db)
              else if DeleteGuard(old(db), targets).Some? then
                result == Err(DeleteGuard(old(db), targets).value) && db == old(db)
              else if !(targets <= old(db).users.Keys) then result == Err(NotFound) && db == old(db)
              else result == Ok(|targets|) && db == DeleteLeaves(old(db), targets)
    {
      if targets == {} {
        return Ok(0);
      }
      var refusal := ProtectDelete(targets);
      if refusal.Some? {
        return Err(refusal.value);
      }
      if !(targets <= db.users.Keys) {
        return Err(NotFound);
      }
      DeleteKeepsValid(db, targets);
      db := DeleteLeaves(db, targets);
      return Ok(|targets|);
    }

    /** `_confirm_email`; an error rolls the spent token back. */
    method ConfirmEmail(t: TokenId, purposes: set<Purpose>, now: Time) returns (result: Result<UserId, Error>)
      requires Valid(db)
      modifies this
      ensures Valid(db)
      ensures if Confirms(old(db), t, purposes, now)
              then result == Ok(old(db).emails.rows[old(db).tokens[t].email].user) && db == ConfirmLeaves(old(db), t)
              else result == Err(InvalidToken) && db == old(db)
    {
      var before := db;
      if !TokenOpens(db, t, purposes, now) {
        return Err(InvalidToken);
      }
      db := Spend(db, t);
      var id := db.tokens[t].email;
      if !HasTarget(db, t, if db.tokens[t].purpose == EmailChange then Pending else Current) {
        db := before;
        return Err(InvalidToken);
      }
      ConfirmKeepsValid(before, t, purposes, now);
      var u := db.emails.rows[id].user;
      if db.tokens[t].purpose == EmailChange {
        RetireEmail(db.emails.current[u]);
        db := db.(emails := db.emails.Promoted(id));
      } else {
        db := db.(emails := db.emails.Marked(id, true));
      }
      RevokeUserSecuritySessions(u);
      return Ok(u);
    }

    /** `reset_password`, and with purpose Invite `accept_invite`, after the hash was computed. */
    method SetPassword(t: TokenId, purpose: Purpose, hash: string, now: Time) returns (result: Result<UserId, Error>)
      requires Valid(db) && purpose in CREDENTIAL_PURPOSES
      modifies this
      ensures Valid(db)
      ensures if SetsPassword(old(db), t, purpose, now)
              then result == Ok(old(db).emails.rows[old(db).tokens[t].email].user) && db == PasswordLeaves(old(db), t, hash)
              else result == Err(InvalidToken) && db == old(db)
    {
      var before := db;
      if !TokenOpens(db, t, {purpose}, now) {
        return Err(InvalidToken);
      }
      db := Spend(db, t);
      var id := db.tokens[t].email;
      if !HasTarget(db, t, Current) {
        db := before;
        return Err(InvalidToken);
      }
      var u := db.emails.rows[id].user;
      if purpose == Invite && !db.users[u].invitationPending {
        db := before;
        return Err(InvalidToken);
      }
      PasswordKeepsValid(before, t, hash);
      db := db.(users := db.users[u := db.users[u].(passwordHash := hash, invitationPending := false)]);
      db := db.(tokens := UseTokens(db.tokens, EmailsOf(db.emails, u), CREDENTIAL_PURPOSES));
      db := db.(emails := db.emails.Marked(id, true));
      RevokeUserSecuritySessions(u);
      return Ok(u);
    }

    /** `change_password_autonomously`, its writing transaction: the hash must still be the one
        that was verified. */
    method ChangePassword(u: UserId, previousHash: string, newHash: string) returns (changed: bool)
      requires Valid(db)
      modifies this
      ensures Valid(db)
      ensures changed == (u in old(db).users && old(db).users[u].passwordHash == previousHash && old(db).users[u].active)
      ensures db == if changed then WithPassword(old(db), u, newHash) else old(db)
    {
      changed := u in db.users && db.users[u].passwordHash == previousHash && db.users[u].active;
      if changed {
        db := db.(users := db.users[u := db.users[u].(passwordHash := newHash, invitationPending := false)]);
        db := db.(tokens := UseTokens(db.tokens, EmailsOf(db.emails, u), CREDENTIAL_PURPOSES));
        RevokeUserSecuritySessions(u);
      }
    }
  }

  lemma MovedAddress(db: Directory, u: UserId, plan: Plan, newId: EmailId)
    requires db.emails.Consistent() && u in db.emails.current && plan.Inserts()
    ensures var after := Moved(db, u, plan, newId).emails;
            && newId in after.rows && after.rows[newId] == NewAddress(u, plan)
            && (plan.Request? ==> u in after.pending && after.pending[u] == newId)
            && (plan.Replace? ==> u in after.current && after.current[u] == newId)
  {
  }

  lemma MovedMark(db: Directory, u: UserId, plan: Plan, newId: EmailId)
    requires db.emails.Consistent() && u in db.emails.current && newId !in db.emails.rows && Sound(db.emails, u, plan)
    ensures var after := Moved(db, u, plan, newId).emails;
            && u in after.current && after.current[u] in after.rows
            && after.rows[after.current[u]].verified == db.emails.rows[db.emails.current[u]].verified
  {
    MovedIsOwn(db, u, plan, newId);
    MovedCurrent(db, u, plan, newId);
    MovedTargetVerified(db, u, plan, newId);
  }

  lemma MarkKeepsAddresses(db: Directory, u: UserId, verified: Option<bool>)
    requires u in db.emails.current && db.emails.current[u] in db.emails.rows
    ensures var after := MarkCurrent(db, u, verified).emails;
            && after.pending == db.emails.pending && after.current == db.emails.current && after.rows.Keys == db.emails.rows.Keys
            && forall id | id in after.rows :: after.rows[id].(verified := false) == db.emails.rows[id].(verified := false)
  {
  }

  lemma AddressesLeft(db: Directory, u: UserId, cmd: Command, policy: Policy, newId: EmailId)
    requires Valid(db) && u in db.users && newId !in db.emails.rows
    ensures var plan, after := PlanFor(db.emails, u, cmd.email, policy), EmailsLeft(db, u, cmd, policy, newId);
            && (plan.Request? ==> AnnouncesOwnAddress(after.emails, u, EmailChangeRequested(newId), plan.address))
            && (plan.Replace? ==> AnnouncesOwnAddress(after.emails, u, InviteCreated(newId), plan.address))
  {
    var plan := PlanFor(db.emails, u, cmd.email, policy);
    MovedCurrent(db, u, plan, newId);
    if plan.Inserts() {
      MovedAddress(db, u, plan, newId);
      PlansAreSound(db.emails, u, cmd.email, policy);
      MovedIsOwn(db, u, plan, newId);
      MarkKeepsAddresses(Moved(db, u, plan, newId), u, cmd.verified);
    }
  }

  /** What is read back for the notification is the row the plan inserted. */
  lemma PlannedRowIsOwn(db: Directory, u: UserId, cmd: Command, policy: Policy, newId: EmailId, mid: Directory)
    requires Valid(db) && u in db.users && newId !in db.emails.rows && mid == EmailsLeft(db, u, cmd, policy, newId)
    ensures var plan := PlanFor(db.emails, u, cmd.email, policy);
            HasAnnounced(mid, u, plan) && AnnouncementOf(mid, u, plan) == Announced(plan, newId, db.users[u].invitationPending)
  {
    EmailsLeftFacts(db, u, cmd, policy, newId);
    AddressesLeft(db, u, cmd, policy, newId);
  }

  lemma ChangesKeepAddresses(mid: Directory, u: UserId, cmd: Command, revokes: bool)
    requires u in mid.users && u in mid.members
    ensures AfterRevocation(ColumnsLeft(mid, u, cmd), u, revokes).emails == mid.emails
  {
  }

  lemma UpdateKeepsAddresses(db: Directory, u: UserId, cmd: Command, policy: Policy, newId: EmailId)
    requires Valid(db) && u in db.users && newId !in db.emails.rows
    ensures UpdateLeaves(db, u, cmd, policy, newId).emails == EmailsLeft(db, u, cmd, policy, newId).emails
  {
    EmailsLeftFacts(db, u, cmd, policy, newId);
    ChangesKeepAddresses(EmailsLeft(db, u, cmd, policy, newId), u, cmd, Revokes(db, u, cmd, policy));
  }

  lemma UpdateAnnouncesOwn(db: Directory, u: UserId, cmd: Command, policy: Policy, newId: EmailId, emails: Emails, a: Announcement)
    requires Valid(db) && u in db.users && newId !in db.emails.rows
    requires emails == EmailsLeft(db, u, cmd, policy, newId).emails
    requires Announced(PlanFor(db.emails, u, cmd.email, policy), newId, db.users[u].invitationPending) == Some(a)
    ensures cmd.email.Some? && AnnouncesOwnAddress(emails, u, a, Normalize(cmd.email.value))
  {
    AddressesLeft(db, u, cmd, policy, newId);
  }

  lemma SameColumns(db: Directory, mid: Directory, u: UserId, cmd: Command)
    requires u in db.users && u in db.members && mid.users == db.users && mid.members == db.members
    ensures ChangesColumns(mid, u, cmd) == ChangesColumns(db, u, cmd)
  {
  }

  /** The decision on sessions may read the columns after the addresses were written. */
  lemma DecidedInTime(db: Directory, u: UserId, cmd: Command, policy: Policy, newId: EmailId, mid: Directory)
    requires Valid(db) && u in db.users && newId !in db.emails.rows && mid == EmailsLeft(db, u, cmd, policy, newId)
    ensures u in mid.users && u in mid.members
    ensures ChangesColumns(mid, u, cmd) == ChangesColumns(db, u, cmd)
  {
    EmailsLeftFacts(db, u, cmd, policy, newId);
    SameColumns(db, mid, u, cmd);
  }

  // ---- Runs -----------------------------------------------------------------------------------------------

  datatype Action =
    | Create(n: NewUser, u: UserId, id: EmailId, passwordHash: string)
    | Update(u: UserId, cmd: Command, policy: Policy, newId: EmailId)
    | Delete(targets: set<UserId>)
    | Confirm(t: TokenId, purposes: set<Purpose>, now: Time)
    | SetPassword(t: TokenId, purpose: Purpose, hash: string, now: Time)
    | ChangePassword(u: UserId, previousHash: string, newHash: string)
    | IssueToken(t: TokenId, token: Token)
    | SignIn(s: SessionId, u: UserId)
    | SignOut(ended: set<SessionId>)

  predicate Enabled(db: Directory, a: Action)
    requires Valid(db)
  {
    match a
    case Create(n, u, id, _) => u !in db.users && id !in db.emails.rows && Available(db.emails, n.email, None)
    case Update(u, cmd, policy, newId) =>
      u in db.users && newId !in db.emails.rows && UpdateGuard(db, u, cmd).None? && !PlanFor(db.emails, u, cmd.email, policy).Taken?
    case Delete(targets) => targets <= db.users.Keys && DeleteGuard(db, targets).None?
    case Confirm(t, purposes, now) => Confirms(db, t, purposes, now)
    case SetPassword(t, purpose, _, now) => purpose in CREDENTIAL_PURPOSES && SetsPassword(db, t, purpose, now)
    case ChangePassword(u, previousHash, _) => u in db.users && db.users[u].passwordHash == previousHash && db.users[u].active
    case IssueToken(t, _) => t !in db.tokens
    case SignIn(s, u) => s !in db.sessions && u in db.users
    case SignOut(_) => true
  }

  /** A refused operation, or one whose transaction aborts, changes nothing. */
  function Step(db: Directory, a: Action): Directory
    requires Valid(db)
  {
    if !Enabled(db, a) then db
    else
      match a
      case Create(n, u, id, hash) => CreateLeaves(db, n, u, id, hash)
      case Update(u, cmd, policy, newId) => UpdateLeaves(db, u, cmd, policy, newId)
      case Delete(targets) => DeleteLeaves(db, targets)
      case Confirm(t, _, _) => ConfirmLeaves(db, t)
      case SetPassword(t, _, hash, _) => PasswordLeaves(db, t, hash)
      case ChangePassword(u, _, hash) => WithPassword(db, u, hash)
      case IssueToken(t, token) => db.(tokens := db.tokens[t := token])
      case SignIn(s, u) => db.(sessions := db.sessions[s := u])
      case SignOut(ended) => db.(sessions := db.sessions - ended)
  }

  lemma StepKeepsValid(db: Directory, a: Action)
    requires Valid(db)
    ensures Valid(Step(db, a))
  {
    if Enabled(db, a) {
      match a
      case Create(n, u, id, hash) => CreateKeepsValid(db, n, u, id, hash);
      case Update(u, cmd, policy, newId) => UpdateKeepsValid(db, u, cmd, policy, newId);
      case Delete(targets) => DeleteKeepsValid(db, targets);
      case Confirm(t, purposes, now) => ConfirmKeepsValid(db, t, purposes, now);
      case SetPassword(t, _, hash, _) => PasswordKeepsValid(db, t, hash);
      case _ =>
    }
  }

  function Run(db: Directory, actions: seq<Action>): Directory
    requires Valid(db)
    decreases |actions|
  {
    if actions == [] then db
    else
      StepKeepsValid(db, actions[0]);
      Run(Step(db, actions[0]), actions[1..])
  }

  lemma {:induction false} RunKeepsValid(db: Directory, actions: seq<Action>)
    requires Valid(db)
    ensures Valid(Run(db, actions))
    decreases |actions|
  {
    if actions != [] {
      StepKeepsValid(db, actions[0]);
      RunKeepsValid(Step(db, actions[0]), actions[1..]);
    }
  }

  const NOBODY := Directory(map[], map[], Emails(map[], map[], map[], map[]), map[], map[])

  lemma CountsOfAddresses(db: Directory, u: UserId)
    requires Valid(db) && u in db.users
    ensures EmailRules(db.emails.rows)
    ensures |WithStatus(db.emails, u, Current)| == 1 && |WithStatus(db.emails, u, Pending)| <= 1
  {
    OwnershipIsWellFormed(db, u);
  }

  /** In every reachable state a user has exactly one current and at most one pending address, and
      no two addresses in use are the same. */
  lemma OwnershipHolds(actions: seq<Action>, u: UserId)
    requires u in Run(NOBODY, actions).users
    ensures var db := Run(NOBODY, actions);
            && EmailRules(db.emails.rows)
            && |WithStatus(db.emails, u, Current)| == 1 && |WithStatus(db.emails, u, Pending)| <= 1
  {
    RunKeepsValid(NOBODY, actions);
    CountsOfAddresses(Run(NOBODY, actions), u);
  }

  // ---- Somebody can always act -----------------------------------------------------------------------------

  lemma ConfirmSparesLive(db: Directory, t: TokenId, purposes: set<Purpose>, now: Time)
    requires Valid(db) && Confirms(db, t, purposes, now)
    ensures LiveOperators(db) <= LiveOperators(ConfirmLeaves(db, t))
    ensures forall org :: LiveAdmins(db, org) <= LiveAdmins(ConfirmLeaves(db, t), org)
  {
    var after := ConfirmLeaves(db, t);
    ConfirmKeepsValid(db, t, purposes, now);
    forall u | Verified(db.emails, u) ensures Verified(after.emails, u) {
      ConfirmKeepsVerified(db, t, purposes, now, u);
    }
    VerifyingSparesLive(db, after);
  }

  lemma PromotionKeepsVerified(emails: Emails, u: UserId, id: EmailId, v: UserId)
    requires emails.Consistent() && u in emails.current && id in emails.rows && emails.rows[id].user == u
    requires Verified(emails, v)
    ensures Verified(emails.Retired(emails.current[u]).Promoted(id), v)
  {
  }

  lemma ConfirmKeepsVerified(db: Directory, t: TokenId, purposes: set<Purpose>, now: Time, v: UserId)
    requires Valid(db) && Confirms(db, t, purposes, now) && Verified(db.emails, v)
    ensures Verified(ConfirmLeaves(db, t).emails, v)
  {
    var id := db.tokens[t].email;
    var u := db.emails.rows[id].user;
    if db.tokens[t].purpose == EmailChange {
      PromotionKeepsVerified(db.emails, u, id, v);
      assert ConfirmLeaves(db, t).emails == db.emails.Retired(db.emails.current[u]).Promoted(id);
    }
  }

  lemma PasswordSparesLive(db: Directory, t: TokenId, hash: string)
    requires Valid(db) && t in db.tokens && HasTarget(db, t, Current)
    ensures LiveOperators(db) <= LiveOperators(PasswordLeaves(db, t, hash))
    ensures forall org :: LiveAdmins(db, org) <= LiveAdmins(PasswordLeaves(db, t, hash), org)
  {
    VerifyingSparesLive(db, PasswordLeaves(db, t, hash));
  }

  lemma InsertKeepsVerified(emails: Emails, id: EmailId, e: Email, v: UserId)
    requires emails.Consistent() && id !in emails.rows && emails.Fits(e) && Verified(emails, v)
    ensures Verified(emails.Insert(id, e), v)
  {
  }

  lemma CreateSparesLive(db: Directory, n: NewUser, u: UserId, id: EmailId, passwordHash: string)
    requires Valid(db) && u !in db.users && id !in db.emails.rows && Available(db.emails, n.email, None)
    ensures LiveOperators(db) <= LiveOperators(CreateLeaves(db, n, u, id, passwordHash))
    ensures forall org :: LiveAdmins(db, org) <= LiveAdmins(CreateLeaves(db, n, u, id, passwordHash), org)
  {
    var after := CreateLeaves(db, n, u, id, passwordHash);
    NewcomerFits(db, n, u);
    forall v | Verified(db.emails, v) ensures Verified(after.emails, v) {
      InsertKeepsVerified(db.emails, id, Email(u, Normalize(n.email), Current, n.verified), v);
    }
    VerifyingSparesLive(db, after);
  }

  lemma PasswordChangeSparesLive(db: Directory, u: UserId, hash: string)
    requires Valid(db) && u in db.users
    ensures LiveOperators(db) <= LiveOperators(WithPassword(db, u, hash))
    ensures forall org :: LiveAdmins(db, org) <= LiveAdmins(WithPassword(db, u, hash), org)
  {
    VerifyingSparesLive(db, WithPassword(db, u, hash));
  }

  lemma OthersSpareLive(db: Directory, after: Directory)
    requires Valid(db) && after == db.(tokens := after.tokens, sessions := after.sessions)
    ensures LiveOperators(db) <= LiveOperators(after)
    ensures forall org :: LiveAdmins(db, org) <= LiveAdmins(after, org)
  {
    VerifyingSparesLive(db, after);
  }

  /** No accepted operation ends a scope. */
  lemma StepEndsNobody(db: Directory, a: Action, org: OrganizationId)
    requires Valid(db)
    ensures !EndsOperators(db, Step(db, a)) && !EndsAdmins(db, Step(db, a), org)
  {
    if Enabled(db, a) {
      match a
      case Create(n, u, id, hash) => CreateSparesLive(db, n, u, id, hash);
      case Update(u, cmd, policy, newId) => GuardedUpdateEndsNobody(db, u, cmd, policy, newId, org);
      case Delete(targets) => GuardedDeleteEndsNobody(db, targets, org);
      case Confirm(t, purposes, now) => ConfirmSparesLive(db, t, purposes, now);
      case SetPassword(t, _, hash, _) => PasswordSparesLive(db, t, hash);
      case ChangePassword(u, _, hash) => PasswordChangeSparesLive(db, u, hash);
      case _ => OthersSpareLive(db, Step(db, a));
    }
  }

  /** Once there is an active verified operator there always is one, and the same for the
      administrators of each organization. */
  lemma {:induction false} SomebodyCanAlwaysAct(db: Directory, actions: seq<Action>, org: OrganizationId)
    requires Valid(db)
    ensures LiveOperators(db) != {} ==> LiveOperators(Run(db, actions)) != {}
    ensures LiveAdmins(db, org) != {} ==> LiveAdmins(Run(db, actions), org) != {}
    decreases |actions|
  {
    if actions != [] {
      StepKeepsValid(db, actions[0]);
      StepEndsNobody(db, actions[0], org);
      SomebodyCanAlwaysAct(Step(db, actions[0]), actions[1..], org);
    }
  }

  // ---- Retired addresses hold no live token --------------------------------------------------------------

  /** Tokens are spent, never revived, and every address that went out of use has only spent ones. */
  ghost predicate SpendsRetired(before: Directory, after: Directory) {
    && before.emails.rows.Keys <= after.emails.rows.Keys
    && (forall t | t in after.tokens ::
          t in before.tokens && after.tokens[t].email == before.tokens[t].email && (before.tokens[t].used ==> after.tokens[t].used))
    && (forall id | id in before.emails.rows && InUse(before.emails.rows[id]) && !InUse(after.emails.rows[id]) ::
          NoUnusedToken(after, id))
  }

  lemma SpendsRetiredComposes(a: Directory, b: Directory, c: Directory)
    requires SpendsRetired(a, b) && SpendsRetired(b, c)
    ensures SpendsRetired(a, c)
  {
    forall id | id in a.emails.rows && InUse(a.emails.rows[id]) && !InUse(c.emails.rows[id])
      ensures NoUnusedToken(c, id)
    {
      assert InUse(b.emails.rows[id]) || NoUnusedToken(b, id);
    }
  }

  lemma RetireSpends(db: Directory, id: EmailId)
    requires id in db.emails.rows
    ensures SpendsRetired(db, Retire(db, id))
  {
    if InUse(db.emails.rows[id]) {
      RetiringSpendsTokens(db, id);
    }
  }

  lemma RetirePendingSpends(db: Directory, u: UserId)
    requires db.emails.Consistent()
    ensures SpendsRetired(db, RetirePending(db, u))
  {
    if u in db.emails.pending {
      RetireSpends(db, db.emails.pending[u]);
    }
  }

  lemma InsertSpends(db: Directory, id: EmailId, e: Email)
    requires id !in db.emails.rows
    ensures SpendsRetired(db, db.(emails := db.emails.Insert(id, e)))
  {
  }

  lemma MovedSpends(db: Directory, u: UserId, plan: Plan, newId: EmailId)
    requires db.emails.Consistent() && u in db.emails.current && newId !in db.emails.rows
    ensures SpendsRetired(db, Moved(db, u, plan, newId))
  {
    var cleared := Cleared(db, u, plan);
    if plan.Replace? {
      var first := Retire(db, db.emails.current[u]);
      RetiredKeepsConsistent(db.emails, db.emails.current[u]);
      RetireSpends(db, db.emails.current[u]);
      RetirePendingSpends(first, u);
      SpendsRetiredComposes(db, first, cleared);
    } else {
      RetirePendingSpends(db, u);
    }
    ClearedKeepsKeys(db, u, plan);
    if plan.Inserts() {
      InsertSpends(cleared, newId, NewAddress(u, plan));
      SpendsRetiredComposes(db, cleared, Moved(db, u, plan, newId));
    }
  }

  lemma MarkSpends(db: Directory, u: UserId, verified: Option<bool>)
    requires u in db.emails.current && db.emails.current[u] in db.emails.rows
    ensures SpendsRetired(db, MarkCurrent(db, u, verified))
  {
  }

  lemma ColumnsSpend(db: Directory, u: UserId, cmd: Command)
    requires u in db.users && u in db.members
    ensures SpendsRetired(db, ColumnsLeft(db, u, cmd))
  {
  }

  lemma EmailsLeftSpend(db: Directory, u: UserId, cmd: Command, policy: Policy, newId: EmailId)
    requires Valid(db) && u in db.users && newId !in db.emails.rows
    ensures SpendsRetired(db, EmailsLeft(db, u, cmd, policy, newId))
  {
    var plan := PlanFor(db.emails, u, cmd.email, policy);
    PlansAreSound(db.emails, u, cmd.email, policy);
    MovedSpends(db, u, plan, newId);
    MovedFacts(db, u, plan, newId);
    var moved := Moved(db, u, plan, newId);
    MarkSpends(moved, u, cmd.verified);
    SpendsRetiredComposes(db, moved, MarkCurrent(moved, u, cmd.verified));
  }

  lemma RevocationSpends(db: Directory, after: Directory, u: UserId, revokes: bool)
    requires SpendsRetired(db, after)
    ensures SpendsRetired(db, AfterRevocation(after, u, revokes))
  {
  }

  lemma ChangesSpend(db: Directory, mid: Directory, u: UserId, cmd: Command, revokes: bool)
    requires SpendsRetired(db, mid) && u in mid.users && u in mid.members
    ensures SpendsRetired(db, AfterRevocation(ColumnsLeft(mid, u, cmd), u, revokes))
  {
    ColumnsSpend(mid, u, cmd);
    SpendsRetiredComposes(db, mid, ColumnsLeft(mid, u, cmd));
    RevocationSpends(db, ColumnsLeft(mid, u, cmd), u, revokes);
  }

  lemma UpdateSpends(db: Directory, u: UserId, cmd: Command, policy: Policy, newId: EmailId)
    requires Valid(db) && u in db.users && newId !in db.emails.rows
    ensures SpendsRetired(db, UpdateLeaves(db, u, cmd, policy, newId))
  {
    EmailsLeftSpend(db, u, cmd, policy, newId);
    EmailsLeftKeepsColumns(db, u, cmd, policy, newId);
    ChangesSpend(db, EmailsLeft(db, u, cmd, policy, newId), u, cmd, Revokes(db, u, cmd, policy));
  }

  lemma SpendingSpends(db: Directory, t: TokenId)
    requires t in db.tokens
    ensures SpendsRetired(db, Spend(db, t))
  {
  }

  lemma PromotionSpends(db: Directory, id: EmailId)
    requires id in db.emails.rows
    ensures SpendsRetired(db, db.(emails := db.emails.Promoted(id)))
  {
  }

  lemma ConfirmSpends(db: Directory, t: TokenId, purposes: set<Purpose>, now: Time)
    requires Valid(db) && Confirms(db, t, purposes, now) && db.tokens[t].purpose == EmailChange
    ensures SpendsRetired(db, ConfirmLeaves(db, t))
  {
    var spent, id := Spend(db, t), db.tokens[t].email;
    var current := db.emails.current[db.emails.rows[id].user];
    SpendingSpends(db, t);
    RetireSpends(spent, current);
    PromotionSpends(Retire(spent, current), id);
    SpendsRetiredComposes(db, spent, Retire(spent, current));
    SpendsRetiredComposes(db, Retire(spent, current), ConfirmLeaves(db, t));
  }

  ghost predicate StaysInUse(after: Directory, id: EmailId) {
    id in after.emails.rows ==> InUse(after.emails.rows[id])
  }

  lemma CreateRetiresNothing(db: Directory, n: NewUser, u: UserId, newId: EmailId, hash: string, id: EmailId)
    requires id in db.emails.rows && InUse(db.emails.rows[id]) && newId !in db.emails.rows
    ensures StaysInUse(CreateLeaves(db, n, u, newId, hash), id)
  {
  }

  lemma DeleteRetiresNothing(db: Directory, targets: set<UserId>, id: EmailId)
    requires id in db.emails.rows && InUse(db.emails.rows[id])
    ensures StaysInUse(DeleteLeaves(db, targets), id)
  {
  }

  lemma VerifyingRetiresNothing(db: Directory, t: TokenId, id: EmailId)
    requires Valid(db) && t in db.tokens && db.tokens[t].purpose != EmailChange && HasTarget(db, t, Current)
    requires id in db.emails.rows && InUse(db.emails.rows[id])
    ensures StaysInUse(ConfirmLeaves(db, t), id)
  {
  }

  lemma PasswordRetiresNothing(db: Directory, t: TokenId, hash: string, id: EmailId)
    requires t in db.tokens && HasTarget(db, t, Current) && id in db.emails.rows && InUse(db.emails.rows[id])
    ensures StaysInUse(PasswordLeaves(db, t, hash), id)
  {
  }

  lemma TokenStepsRetireNothing(db: Directory, a: Action, id: EmailId)
    requires Valid(db) && id in db.emails.rows && InUse(db.emails.rows[id]) && Enabled(db, a)
    requires a.SetPassword? || (a.Confirm? && db.tokens[a.t].purpose != EmailChange)
    ensures StaysInUse(Step(db, a), id)
  {
    if a.SetPassword? {
      PasswordRetiresNothing(db, a.t, a.hash, id);
    } else {
      VerifyingRetiresNothing(db, a.t, id);
    }
  }

  lemma OthersRetireNothing(db: Directory, a: Action, id: EmailId)
    requires Valid(db) && id in db.emails.rows && InUse(db.emails.rows[id])
    requires !a.Update? && !a.SetPassword? && !a.Confirm?
    ensures StaysInUse(Step(db, a), id)
  {
    match a
    case Create(n, u, newId, hash) =>
      if newId !in db.emails.rows {
        CreateRetiresNothing(db, n, u, newId, hash, id);
      }
    case Delete(targets) => DeleteRetiresNothing(db, targets, id);
    case _ =>
  }

  /** Whichever operation takes an address out of use, no token for it is left unused. */
  lemma RetirementSpendsTokens(db: Directory, a: Action, id: EmailId)
    requires Valid(db) && id in db.emails.rows && InUse(db.emails.rows[id])
    requires id in Step(db, a).emails.rows && !InUse(Step(db, a).emails.rows[id])
    ensures NoUnusedToken(Step(db, a), id)
  {
    if a.Update? && Enabled(db, a) {
      UpdateSpends(db, a.u, a.cmd, a.policy, a.newId);
    } else if a.Confirm? && Enabled(db, a) && db.tokens[a.t].purpose == EmailChange {
      ConfirmSpends(db, a.t, a.purposes, a.now);
    } else if (a.Confirm? || a.SetPassword?) && Enabled(db, a) {
      TokenStepsRetireNothing(db, a, id);
    } else if !a.Update? && !a.SetPassword? && !a.Confirm? {
      OthersRetireNothing(db, a, id);
    }
  }

  /** No token of the user with one of these purposes is unused. */
  predicate Spent(db: Directory, u: UserId, purposes: set<Purpose>) {
    forall t | t in db.tokens && db.tokens[t].purpose in purposes
               && db.tokens[t].email in db.emails.rows && db.emails.rows[db.tokens[t].email].user == u :: db.tokens[t].used
  }

  lemma WithPasswordSpends(db: Directory, u: UserId, hash: string)
    requires u in db.users
    ensures Spent(WithPassword(db, u, hash), u, CREDENTIAL_PURPOSES)
  {
  }

  /** A new password ends every invitation and reset of that user, for all of the user's addresses. */
  lemma NewPasswordSpendsTokens(db: Directory, a: Action)
    requires Valid(db) && Enabled(db, a)
    ensures a.SetPassword? ==>
              Spent(Step(db, a), db.emails.rows[db.tokens[a.t].email].user, CREDENTIAL_PURPOSES)
    ensures a.ChangePassword? ==> Spent(Step(db, a), a.u, CREDENTIAL_PURPOSES)
  {
    if a.SetPassword? {
      WithPasswordSpends(Spend(db, a.t), db.emails.rows[db.tokens[a.t].email].user, a.hash);
    } else if a.ChangePassword? {
      WithPasswordSpends(db, a.u, a.newHash);
    }
  }

  lemma ColumnsSpendOnDeactivation(db: Directory, u: UserId, cmd: Command)
    requires u in db.users && u in db.members && db.users[u].active && cmd.active == Some(false)
    ensures Spent(ColumnsLeft(db, u, cmd), u, EVERY_PURPOSE)
  {
  }

  /** Deactivation ends the tokens of every purpose, for old and new addresses alike. */
  lemma DeactivationSpendsTokens(db: Directory, u: UserId, cmd: Command, policy: Policy, newId: EmailId)
    requires Valid(db) && u in db.users && newId !in db.emails.rows
    requires db.users[u].active && cmd.active == Some(false)
    ensures Spent(UpdateLeaves(db, u, cmd, policy, newId), u, EVERY_PURPOSE)
  {
    EmailsLeftFacts(db, u, cmd, policy, newId);
    ColumnsSpendOnDeactivation(EmailsLeft(db, u, cmd, policy, newId), u, cmd);
  }
}
