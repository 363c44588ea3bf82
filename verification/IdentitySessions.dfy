/** Which sessions outlive a change to a user: none whose user's standing or password has changed. */
module IdentitySessions {
  import opened Common
  import opened WorkflowKeyring
  import opened EmailText
  import opened Identity
  import opened IdentityLifecycle
  import opened IdentityService
  import opened IdentityRuns

  /** What a session was granted on. */
  datatype Standing = Standing(active: bool, operator: bool, member: Membership, address: EmailId, verified: bool)

  function StandingOf(db: Directory, u: UserId): Standing
    requires Valid(db) && u in db.users
  {
    Standing(db.users[u].active, db.users[u].operator, db.members[u], db.emails.current[u], Verified(db.emails, u))
  }

  // ---- Updates ------------------------------------------------------------------------------------------

  lemma MarkKeepsCurrent(db: Directory, u: UserId, verified: Option<bool>)
    requires u in db.emails.current && db.emails.current[u] in db.emails.rows
    ensures MarkCurrent(db, u, verified).emails.current == db.emails.current
  {
  }

  lemma EmailsLeftCurrent(db: Directory, u: UserId, cmd: Command, policy: Policy, newId: EmailId)
    requires Valid(db) && u in db.users && newId !in db.emails.rows
    ensures var plan, after := PlanFor(db.emails, u, cmd.email, policy), EmailsLeft(db, u, cmd, policy, newId).emails.current;
            && u in after && after[u] == (if plan.Replace? then newId else db.emails.current[u])
            && forall v | v != u && v in db.emails.current :: v in after && after[v] == db.emails.current[v]
  {
    var plan := PlanFor(db.emails, u, cmd.email, policy);
    PlansAreSound(db.emails, u, cmd.email, policy);
    MovedIsOwn(db, u, plan, newId);
    MovedCurrent(db, u, plan, newId);
    MarkKeepsCurrent(Moved(db, u, plan, newId), u, cmd.verified);
  }

  lemma StandingAfterColumns(db: Directory, mid: Directory, after: Directory, u: UserId, cmd: Command, revokes: bool, v: UserId)
    requires Valid(db) && Valid(after) && u in db.users && v in db.users && mid.users == db.users && mid.members == db.members
    requires after == AfterRevocation(ColumnsLeft(mid, u, cmd), u, revokes)
    requires VerifiedAs(db.emails, mid.emails, u, cmd.verified) && v in mid.emails.current
    ensures v in after.users && v in after.emails.current && after.users[v].passwordHash == db.users[v].passwordHash
    ensures StandingOf(after, v) ==
              if v != u then StandingOf(db, v).(address := mid.emails.current[v])
              else Standing(Or(cmd.active, db.users[u].active), Or(cmd.operator, db.users[u].operator),
                            ChangedMember(db.members[u], cmd), mid.emails.current[u], Or(cmd.verified, Verified(db.emails, u)))
  {
  }

  lemma StandingAfterUpdate(db: Directory, u: UserId, cmd: Command, policy: Policy, newId: EmailId, after: Directory, v: UserId)
    requires Valid(db) && u in db.users && newId !in db.emails.rows && v in db.users
    requires after == UpdateLeaves(db, u, cmd, policy, newId)
    ensures Valid(after) && v in after.users && after.users[v].passwordHash == db.users[v].passwordHash
    ensures v != u ==> StandingOf(after, v) == StandingOf(db, v)
    ensures StandingOf(after, u) == Standing(
              Or(cmd.active, db.users[u].active), Or(cmd.operator, db.users[u].operator), ChangedMember(db.members[u], cmd),
              if PlanFor(db.emails, u, cmd.email, policy).Replace? then newId else db.emails.current[u],
              Or(cmd.verified, Verified(db.emails, u)))
  {
    UpdateKeepsValid(db, u, cmd, policy, newId);
    EmailsLeftFacts(db, u, cmd, policy, newId);
    EmailsLeftCurrent(db, u, cmd, policy, newId);
    var mid := EmailsLeft(db, u, cmd, policy, newId);
    StandingAfterColumns(db, mid, after, u, cmd, Revokes(db, u, cmd, policy), u);
    StandingAfterColumns(db, mid, after, u, cmd, Revokes(db, u, cmd, policy), v);
  }

  /** An update ends the user's sessions if and only if it changes the user's standing: a value
      that is given but equal ends none, and a new address that is only requested ends none. */
  lemma UpdateRevokesExactlyWhen(db: Directory, u: UserId, cmd: Command, policy: Policy, newId: EmailId)
    requires Valid(db) && u in db.users && newId !in db.emails.rows
    ensures var after := UpdateLeaves(db, u, cmd, policy, newId);
            && Valid(after) && u in after.users
            && after.sessions == if StandingOf(after, u) != StandingOf(db, u) then WithoutSessions(db, u).sessions else db.sessions
  {
    var after := UpdateLeaves(db, u, cmd, policy, newId);
    StandingAfterUpdate(db, u, cmd, policy, newId, after, u);
    RevokesExactlyWhen(db, u, cmd, PlanFor(db.emails, u, cmd.email, policy), newId, StandingOf(after, u));
    SessionsAfterUpdate(db, u, cmd, policy, newId);
  }

  lemma RevokesExactlyWhen(db: Directory, u: UserId, cmd: Command, plan: Plan, newId: EmailId, after: Standing)
    requires Valid(db) && u in db.users && db.emails.current[u] != newId
    requires after == Standing(
               Or(cmd.active, db.users[u].active), Or(cmd.operator, db.users[u].operator), ChangedMember(db.members[u], cmd),
               if plan.Replace? then newId else db.emails.current[u], Or(cmd.verified, Verified(db.emails, u)))
    ensures ChangesColumns(db, u, cmd) || ChangesEmailSecurity(db, u, cmd, plan) <==> after != StandingOf(db, u)
  {
  }

  lemma SessionsAfterUpdate(db: Directory, u: UserId, cmd: Command, policy: Policy, newId: EmailId)
    requires Valid(db) && u in db.users && newId !in db.emails.rows
    ensures UpdateLeaves(db, u, cmd, policy, newId).sessions
         == if Revokes(db, u, cmd, policy) then WithoutSessions(db, u).sessions else db.sessions
  {
    EmailsLeftFacts(db, u, cmd, policy, newId);
    EmailsLeftSessions(db, u, cmd, policy, newId);
  }

  lemma EmailsLeftSessions(db: Directory, u: UserId, cmd: Command, policy: Policy, newId: EmailId)
    requires Valid(db) && u in db.users && newId !in db.emails.rows
    ensures EmailsLeft(db, u, cmd, policy, newId).sessions == db.sessions
  {
    var plan := PlanFor(db.emails, u, cmd.email, policy);
    MovedSessions(db, u, plan, newId);
  }

  lemma MovedSessions(db: Directory, u: UserId, plan: Plan, newId: EmailId)
    requires db.emails.Consistent() && u in db.emails.current
    ensures Moved(db, u, plan, newId).sessions == db.sessions
  {
  }

  // ---- All operations -----------------------------------------------------------------------------------

  predicate SameUser(db: Directory, after: Directory, u: UserId)
    requires Valid(db) && Valid(after) && u in db.users && u in after.users
  {
    StandingOf(after, u) == StandingOf(db, u) && after.users[u].passwordHash == db.users[u].passwordHash
  }

  predicate EndsOrSpares(db: Directory, after: Directory, v: UserId)
    requires Valid(db) && v in db.users
  {
    Valid(after) && v in after.users && (SameUser(db, after, v) || HoldsNoSession(after, v))
  }

  lemma PromotionSparesOthers(emails: Emails, u: UserId, id: EmailId, v: UserId)
    requires emails.Consistent() && u in emails.current && id in emails.rows && emails.rows[id].user == u
    requires emails.rows[id].status == Pending && v != u && v in emails.current
    ensures var after := emails.Retired(emails.current[u]).Promoted(id);
            && v in after.current && after.current[v] == emails.current[v]
            && (Verified(after, v) <==> Verified(emails, v))
  {
  }

  lemma SameUserFrom(db: Directory, after: Directory, v: UserId)
    requires Valid(db) && Valid(after) && v in db.users && v in after.users
    requires after.users[v] == db.users[v] && after.members[v] == db.members[v]
    requires after.emails.current[v] == db.emails.current[v] && (Verified(after.emails, v) <==> Verified(db.emails, v))
    ensures SameUser(db, after, v)
  {
  }

  lemma PromotedSparesOthers(db: Directory, t: TokenId, v: UserId)
    requires Valid(db) && t in db.tokens && db.tokens[t].purpose == EmailChange && HasTarget(db, t, Pending)
    requires v in db.users && v != db.emails.rows[db.tokens[t].email].user && Valid(ConfirmLeaves(db, t))
    ensures v in ConfirmLeaves(db, t).users && SameUser(db, ConfirmLeaves(db, t), v)
  {
    var id := db.tokens[t].email;
    PromotionSparesOthers(db.emails, db.emails.rows[id].user, id, v);
    assert ConfirmLeaves(db, t).emails == db.emails.Retired(db.emails.current[db.emails.rows[id].user]).Promoted(id);
    SameUserFrom(db, ConfirmLeaves(db, t), v);
  }

  lemma VerifiedSparesOthers(db: Directory, t: TokenId, v: UserId)
    requires Valid(db) && t in db.tokens && db.tokens[t].purpose != EmailChange && HasTarget(db, t, Current)
    requires v in db.users && v != db.emails.rows[db.tokens[t].email].user && Valid(ConfirmLeaves(db, t))
    ensures v in ConfirmLeaves(db, t).users && SameUser(db, ConfirmLeaves(db, t), v)
  {
    SameUserFrom(db, ConfirmLeaves(db, t), v);
  }

  lemma ConfirmEndsOrSpares(db: Directory, t: TokenId, purposes: set<Purpose>, now: Time, v: UserId)
    requires Valid(db) && Confirms(db, t, purposes, now) && v in db.users
    ensures EndsOrSpares(db, ConfirmLeaves(db, t), v)
  {
    ConfirmKeepsValid(db, t, purposes, now);
    if v == db.emails.rows[db.tokens[t].email].user {
      ConfirmEnds(db, t);
    } else if db.tokens[t].purpose == EmailChange {
      PromotedSparesOthers(db, t, v);
    } else {
      VerifiedSparesOthers(db, t, v);
    }
  }

  lemma ConfirmEnds(db: Directory, t: TokenId)
    requires Valid(db) && t in db.tokens
    requires HasTarget(db, t, if db.tokens[t].purpose == EmailChange then Pending else Current)
    ensures HoldsNoSession(ConfirmLeaves(db, t), db.emails.rows[db.tokens[t].email].user)
    ensures ConfirmLeaves(db, t).users == db.users
  {
  }

  lemma PasswordEndsOrSpares(db: Directory, t: TokenId, hash: string, v: UserId)
    requires Valid(db) && t in db.tokens && HasTarget(db, t, Current) && v in db.users
    ensures EndsOrSpares(db, PasswordLeaves(db, t, hash), v)
  {
    PasswordKeepsValid(db, t, hash);
    if v != db.emails.rows[db.tokens[t].email].user {
      PasswordSparesOthers(db, t, hash, v);
    }
  }

  lemma PasswordChangeEndsOrSpares(db: Directory, u: UserId, hash: string, v: UserId)
    requires Valid(db) && u in db.users && v in db.users
    ensures EndsOrSpares(db, WithPassword(db, u, hash), v)
  {
    if v != u {
      PasswordChangeSparesOthers(db, u, hash, v);
    }
  }

  lemma PasswordSparesOthers(db: Directory, t: TokenId, hash: string, v: UserId)
    requires Valid(db) && t in db.tokens && HasTarget(db, t, Current) && v in db.users
    requires v != db.emails.rows[db.tokens[t].email].user
    ensures Valid(PasswordLeaves(db, t, hash)) && v in PasswordLeaves(db, t, hash).users
    ensures SameUser(db, PasswordLeaves(db, t, hash), v)
  {
    PasswordKeepsValid(db, t, hash);
  }

  lemma CreateSparesOthers(db: Directory, n: NewUser, u: UserId, id: EmailId, hash: string, v: UserId)
    requires Valid(db) && u !in db.users && id !in db.emails.rows && Available(db.emails, n.email, None) && v in db.users
    ensures EndsOrSpares(db, CreateLeaves(db, n, u, id, hash), v)
  {
    CreateKeepsValid(db, n, u, id, hash);
  }

  lemma DeleteSparesOthers(db: Directory, targets: set<UserId>, v: UserId)
    requires Valid(db) && v in db.users && v !in targets
    ensures EndsOrSpares(db, DeleteLeaves(db, targets), v)
  {
    DeleteKeepsValid(db, targets);
    VerifiedAfterDelete(db, targets, v);
  }

  lemma PasswordChangeSparesOthers(db: Directory, u: UserId, hash: string, v: UserId)
    requires Valid(db) && u in db.users && v in db.users && v != u
    ensures Valid(WithPassword(db, u, hash)) && v in WithPassword(db, u, hash).users && SameUser(db, WithPassword(db, u, hash), v)
  {
  }

  lemma UpdateEndsOrSpares(db: Directory, u: UserId, cmd: Command, policy: Policy, newId: EmailId, v: UserId)
    requires Valid(db) && u in db.users && newId !in db.emails.rows && v in db.users
    ensures EndsOrSpares(db, UpdateLeaves(db, u, cmd, policy, newId), v)
  {
    var after := UpdateLeaves(db, u, cmd, policy, newId);
    StandingAfterUpdate(db, u, cmd, policy, newId, after, v);
    UpdateRevokesExactlyWhen(db, u, cmd, policy, newId);
  }

  lemma OthersSpareAll(db: Directory, after: Directory, v: UserId)
    requires Valid(db) && v in db.users && after == db.(tokens := after.tokens, sessions := after.sessions)
    ensures EndsOrSpares(db, after, v)
  {
    SameUserFrom(db, after, v);
  }

  /** Whichever operation changes a user's activation, operator right, role, organization, current
      address, verification or password, the user holds no session afterwards. */
  lemma ChangeEndsSessions(db: Directory, a: Action, v: UserId)
    requires Valid(db) && v in db.users && v in Step(db, a).users
    ensures EndsOrSpares(db, Step(db, a), v)
  {
    if Enabled(db, a) {
      match a
      case Create(n, u, id, hash) => CreateSparesOthers(db, n, u, id, hash, v);
      case Update(u, cmd, policy, newId) => UpdateEndsOrSpares(db, u, cmd, policy, newId, v);
      case Delete(targets) => DeleteSparesOthers(db, targets, v);
      case Confirm(t, purposes, now) => ConfirmEndsOrSpares(db, t, purposes, now, v);
      case SetPassword(t, _, hash, _) => PasswordEndsOrSpares(db, t, hash, v);
      case ChangePassword(u, _, hash) => PasswordChangeEndsOrSpares(db, u, hash, v);
      case _ => OthersSpareAll(db, Step(db, a), v);
    }
  }

  /** A new password ends every session, even when it equals the old one; so does a confirmation. */
  lemma CredentialsEndSessions(db: Directory, a: Action)
    requires Valid(db) && Enabled(db, a)
    ensures a.SetPassword? || a.Confirm? ==> HoldsNoSession(Step(db, a), db.emails.rows[db.tokens[a.t].email].user)
    ensures a.ChangePassword? ==> HoldsNoSession(Step(db, a), a.u)
  {
  }

  /** The session is there before and after every step of the run. */
  predicate StaysSignedIn(db: Directory, actions: seq<Action>, s: SessionId)
    requires Valid(db)
    decreases |actions|
  {
    if actions == [] then s in db.sessions
    else
      StepKeepsValid(db, actions[0]);
      s in db.sessions && StaysSignedIn(Step(db, actions[0]), actions[1..], s)
  }

  lemma UpdateKeepsOwner(db: Directory, u: UserId, cmd: Command, policy: Policy, newId: EmailId, s: SessionId)
    requires Valid(db) && u in db.users && newId !in db.emails.rows && s in db.sessions && db.sessions[s] in db.users
    requires s in UpdateLeaves(db, u, cmd, policy, newId).sessions
    ensures var after := UpdateLeaves(db, u, cmd, policy, newId);
            after.sessions[s] == db.sessions[s] && db.sessions[s] in after.users
  {
    SessionsAfterUpdate(db, u, cmd, policy, newId);
    StandingAfterUpdate(db, u, cmd, policy, newId, UpdateLeaves(db, u, cmd, policy, newId), db.sessions[s]);
  }

  lemma SessionKeepsOwner(db: Directory, a: Action, s: SessionId)
    requires Valid(db) && s in db.sessions && s in Step(db, a).sessions && db.sessions[s] in db.users
    ensures Step(db, a).sessions[s] == db.sessions[s] && db.sessions[s] in Step(db, a).users
  {
    if Enabled(db, a) && a.Update? {
      UpdateKeepsOwner(db, a.u, a.cmd, a.policy, a.newId, s);
    }
  }

  /** Over every run: as long as a session lasts, its user is exactly who signed in, with the same
      standing and the same password. */
  lemma {:induction false} SessionsKeepStanding(db: Directory, actions: seq<Action>, s: SessionId)
    requires Valid(db) && StaysSignedIn(db, actions, s) && db.sessions[s] in db.users
    ensures var u, after := db.sessions[s], Run(db, actions);
            && Valid(after) && s in after.sessions && after.sessions[s] == u && u in after.users && SameUser(db, after, u)
    decreases |actions|
  {
    if actions != [] {
      var mid := Step(db, actions[0]);
      StepKeepsValid(db, actions[0]);
      SessionKeepsOwner(db, actions[0], s);
      ChangeEndsSessions(db, actions[0], db.sessions[s]);
      SessionsKeepStanding(mid, actions[1..], s);
    }
  }
}
