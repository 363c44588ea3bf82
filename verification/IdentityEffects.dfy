/** When each operation on users and addresses is accepted, and what it leaves, field by field. */
module IdentityEffects {
  import opened Common
  import opened WorkflowKeyring
  import opened EmailText
  import opened Identity
  import opened IdentityLifecycle
  import opened IdentityService
  import opened IdentityRuns
  import IdentitySessions

  // ---- Passwords ----------------------------------------------------------------------------------------

  /** The address row a token was sent to. */
  function Target(db: Directory, t: TokenId): Email
    requires t in db.tokens && db.tokens[t].email in db.emails.rows
  {
    db.emails.rows[db.tokens[t].email]
  }

  /** An unused, unexpired token of a wanted purpose, sent to an address in the given state, of an
      active user. */
  predicate Redeemable(db: Directory, t: TokenId, purposes: set<Purpose>, status: Status, now: Time) {
    && t in db.tokens && !db.tokens[t].used && now < db.tokens[t].expiresAt && db.tokens[t].purpose in purposes
    && db.tokens[t].email in db.emails.rows && Target(db, t).status == status
    && Target(db, t).user in db.users && db.users[Target(db, t).user].active
  }

  lemma PasswordSetExactlyWhen(db: Directory, t: TokenId, purpose: Purpose, hash: string, now: Time)
    requires Valid(db)
    ensures Enabled(db, SetPassword(t, purpose, hash, now)) <==>
              && (purpose == Invite || purpose == ResetPassword)
              && Redeemable(db, t, {purpose}, Current, now)
              && (purpose == Invite ==> db.users[Target(db, t).user].invitationPending)
  {
  }

  predicate SetsOnly(db: Directory, after: Directory, u: UserId, hash: string)
    requires u in db.users
  {
    && after.users == db.users[u := User(db.users[u].active, db.users[u].operator, false, hash)]
    && after.members == db.members && after.emails.rows.Keys == db.emails.rows.Keys
  }

  /** A reset or an accepted invitation stores the new password, ends the invitation, verifies the
      address that received the token, uses the token, and changes no other user and no other
      address. */
  lemma PasswordIsStored(db: Directory, t: TokenId, purpose: Purpose, hash: string, now: Time)
    requires Valid(db) && Enabled(db, SetPassword(t, purpose, hash, now))
    ensures var after, id := Step(db, SetPassword(t, purpose, hash, now)), db.tokens[t].email;
            && SetsOnly(db, after, Target(db, t).user, hash)
            && after.emails.current == db.emails.current && Target(db, t).user in db.emails.current
            && db.emails.current[Target(db, t).user] == id
            && after.emails.rows == db.emails.rows[id := Target(db, t).(verified := true)]
            && t in after.tokens && after.tokens[t].used
  {
  }

  /** A changed password is stored, and nothing else of any user changes. */
  lemma ChangedPasswordIsStored(db: Directory, u: UserId, previousHash: string, newHash: string)
    requires Valid(db)
    ensures var after := Step(db, ChangePassword(u, previousHash, newHash));
            if u in db.users && db.users[u].active && db.users[u].passwordHash == previousHash
            then SetsOnly(db, after, u, newHash) && after.emails == db.emails
            else after == db
  {
  }

  // ---- Confirmations --------------------------------------------------------------------------------------

  lemma ConfirmedExactlyWhen(db: Directory, t: TokenId, purposes: set<Purpose>, now: Time)
    requires Valid(db)
    ensures Enabled(db, Confirm(t, purposes, now)) <==>
              && t in db.tokens
              && Redeemable(db, t, purposes, if db.tokens[t].purpose == EmailChange then Pending else Current, now)
  {
  }

  /** A confirmation leaves the address its token names current and verified. A confirmed change
      retires the address it replaces and leaves none pending. */
  lemma ConfirmedIsCurrent(db: Directory, t: TokenId, purposes: set<Purpose>, now: Time)
    requires Valid(db) && Enabled(db, Confirm(t, purposes, now))
    ensures var after, id, u := Step(db, Confirm(t, purposes, now)), db.tokens[t].email, Target(db, t).user;
            && id in after.emails.rows && after.emails.rows[id] == Email(u, Target(db, t).address, Current, true)
            && u in after.emails.current && after.emails.current[u] == id
            && t in after.tokens && after.tokens[t].used && after.users == db.users && after.members == db.members
  {
    if db.tokens[t].purpose == EmailChange {
      PromotedRow(db.emails, db.tokens[t].email, Target(db, t).user);
      assert ConfirmLeaves(db, t).emails == db.emails.Retired(db.emails.current[Target(db, t).user]).Promoted(db.tokens[t].email);
      TokenStaysUsed(Spend(db, t), db.emails.current[Target(db, t).user], t);
    }
  }

  lemma PromotedRow(emails: Emails, id: EmailId, u: UserId)
    requires emails.Consistent() && id in emails.rows && emails.rows[id].status == Pending && emails.rows[id].user == u
    requires u in emails.current
    ensures var after, old_id := emails.Retired(emails.current[u]).Promoted(id), emails.current[u];
            && id in after.rows && after.rows[id] == Email(u, emails.rows[id].address, Current, true)
            && u in after.current && after.current[u] == id && u !in after.pending
            && old_id in after.rows && after.rows[old_id] == emails.rows[old_id].(status := Status.Retired)
  {
  }

  lemma TokenStaysUsed(db: Directory, id: EmailId, t: TokenId)
    requires id in db.emails.rows && t in db.tokens && db.tokens[t].used
    ensures t in Retire(db, id).tokens && Retire(db, id).tokens[t].used
  {
  }

  /** With a confirmed change the replaced address is retired and none is pending. */
  lemma ConfirmedChangeReplaces(db: Directory, t: TokenId, purposes: set<Purpose>, now: Time)
    requires Valid(db) && Enabled(db, Confirm(t, purposes, now)) && db.tokens[t].purpose == EmailChange
    ensures var after, u := Step(db, Confirm(t, purposes, now)).emails, Target(db, t).user;
            && u in db.emails.current && db.emails.current[u] in db.emails.rows && u !in after.pending
            && db.emails.current[u] in after.rows && after.rows[db.emails.current[u]].status == Status.Retired
  {
    PromotedRow(db.emails, db.tokens[t].email, Target(db, t).user);
    assert ConfirmLeaves(db, t).emails == db.emails.Retired(db.emails.current[Target(db, t).user]).Promoted(db.tokens[t].email);
  }

  // ---- A change of address ----------------------------------------------------------------------------------

  /** The user's own current or pending address. */
  predicate Known(emails: Emails, u: UserId, address: string)
    requires emails.Consistent() && u in emails.current
  {
    || emails.rows[emails.current[u]].address == address
    || (u in emails.pending && emails.rows[emails.pending[u]].address == address)
  }

  /** Somebody else uses the address, as current or pending. */
  predicate TakenByOther(emails: Emails, u: UserId, address: string) {
    exists id :: id in emails.rows && emails.rows[id].status != Status.Retired && emails.rows[id].address == address
      && emails.rows[id].user != u
  }

  /** A change of address is refused exactly when somebody else uses that address. */
  lemma AddressTakenExactlyWhen(emails: Emails, u: UserId, email: string, policy: Policy)
    requires emails.Consistent() && u in emails.current
    ensures PlanFor(emails, u, Some(email), policy).Taken? <==>
              !Known(emails, u, Normalize(email)) && TakenByOther(emails, u, Normalize(email))
  {
    NormalizeIsStable(email);
  }

  /** What becomes of the user's addresses: a known address changes nothing; a new one replaces an
      unverified current address at once where the policy allows it, and waits for its confirmation
      otherwise. */
  predicate AddressesFollow(before: Emails, after: Emails, u: UserId, address: string, policy: Policy, newId: EmailId)
    requires before.Consistent() && u in before.current
  {
    var current := before.current[u];
    if Known(before, u, address) then after.current == before.current && after.pending == before.pending
    else if policy == DirectIfUnverified && !before.rows[current].verified then
      && u in after.current && after.current[u] == newId && u !in after.pending
      && newId in after.rows && after.rows[newId].(verified := false) == Email(u, address, Current, false)
      && current in after.rows && after.rows[current].status == Status.Retired
    else
      && u in after.current && after.current[u] == current
      && u in after.pending && after.pending[u] == newId
      && newId in after.rows && after.rows[newId] == Email(u, address, Pending, false)
  }

  lemma ReplacedRows(db: Directory, u: UserId, address: string, newId: EmailId)
    requires db.emails.Consistent() && u in db.emails.current && newId !in db.emails.rows
    ensures var after := Moved(db, u, Replace(address), newId).emails;
            && u in after.current && after.current[u] == newId && u !in after.pending
            && newId in after.rows && after.rows[newId] == Email(u, address, Current, false)
            && db.emails.current[u] in after.rows && after.rows[db.emails.current[u]].status == Status.Retired
  {
    var first := Retire(db, db.emails.current[u]);
    RetiredKeepsConsistent(db.emails, db.emails.current[u]);
    RetirePendingIsOwn(first, u);
    assert OwnChange(first.emails.rows, db.emails.current[u], RetirePending(first, u).emails.rows[db.emails.current[u]], u);
  }

  lemma RequestedRows(db: Directory, u: UserId, address: string, newId: EmailId)
    requires db.emails.Consistent() && u in db.emails.current && newId !in db.emails.rows
    ensures var after := Moved(db, u, Request(address), newId).emails;
            && u in after.current && after.current[u] == db.emails.current[u]
            && u in after.pending && after.pending[u] == newId
            && newId in after.rows && after.rows[newId] == Email(u, address, Pending, false)
  {
    MovedCurrent(db, u, Request(address), newId);
    MovedAddress(db, u, Request(address), newId);
  }

  lemma PlanIs(emails: Emails, u: UserId, email: string, policy: Policy)
    requires emails.Consistent() && u in emails.current && !PlanFor(emails, u, Some(email), policy).Taken?
    ensures PlanFor(emails, u, Some(email), policy)
         == if Known(emails, u, Normalize(email)) then Keep
            else if policy == DirectIfUnverified && !emails.rows[emails.current[u]].verified then Replace(Normalize(email))
            else Request(Normalize(email))
  {
  }

  lemma MovedFollows(db: Directory, u: UserId, email: string, policy: Policy, newId: EmailId)
    requires Valid(db) && u in db.users && newId !in db.emails.rows && !PlanFor(db.emails, u, Some(email), policy).Taken?
    ensures var moved := Moved(db, u, PlanFor(db.emails, u, Some(email), policy), newId).emails;
            AddressesFollow(db.emails, moved, u, Normalize(email), policy, newId)
  {
    PlanIs(db.emails, u, email, policy);
    var address := Normalize(email);
    if !Known(db.emails, u, address) {
      if policy == DirectIfUnverified && !db.emails.rows[db.emails.current[u]].verified {
        ReplacedRows(db, u, address, newId);
      } else {
        RequestedRows(db, u, address, newId);
      }
    }
  }

  lemma MarkFollows(before: Emails, db: Directory, u: UserId, address: string, policy: Policy, newId: EmailId, verified: Option<bool>)
    requires before.Consistent() && u in before.current && newId !in before.rows
    requires u in db.emails.current && db.emails.current[u] in db.emails.rows
    requires AddressesFollow(before, db.emails, u, address, policy, newId)
    ensures AddressesFollow(before, MarkCurrent(db, u, verified).emails, u, address, policy, newId)
  {
  }

  /** An accepted update with an address leaves the user that address, as current or as pending. */
  lemma UpdateMovesAddress(db: Directory, u: UserId, cmd: Command, policy: Policy, newId: EmailId)
    requires Valid(db) && Enabled(db, Update(u, cmd, policy, newId)) && cmd.email.Some?
    ensures AddressesFollow(db.emails, Step(db, Update(u, cmd, policy, newId)).emails, u, Normalize(cmd.email.value), policy, newId)
  {
    var plan := PlanFor(db.emails, u, cmd.email, policy);
    PlansAreSound(db.emails, u, cmd.email, policy);
    MovedIsOwn(db, u, plan, newId);
    MovedCurrent(db, u, plan, newId);
    MovedFollows(db, u, cmd.email.value, policy, newId);
    MarkFollows(db.emails, Moved(db, u, plan, newId), u, Normalize(cmd.email.value), policy, newId, cmd.verified);
    UpdateKeepsAddresses(db, u, cmd, policy, newId);
  }

  /** An accepted update announces a new address exactly if it has one: for confirmation when it waits,
      and as a new invitation when it replaced an address whose user is still invited. */
  lemma AnnouncedExactlyWhen(db: Directory, u: UserId, cmd: Command, policy: Policy, newId: EmailId)
    requires Valid(db) && Enabled(db, Update(u, cmd, policy, newId))
    ensures var announced := Announced(PlanFor(db.emails, u, cmd.email, policy), newId, db.users[u].invitationPending);
            var moves := cmd.email.Some? && !Known(db.emails, u, Normalize(cmd.email.value));
            var direct := policy == DirectIfUnverified && !db.emails.rows[db.emails.current[u]].verified;
            && (announced == Some(EmailChangeRequested(newId)) <==> moves && !direct)
            && (announced == Some(InviteCreated(newId)) <==> moves && direct && db.users[u].invitationPending)
            && (announced == None <==> !moves || (direct && !db.users[u].invitationPending))
  {
    if cmd.email.Some? {
      PlanIs(db.emails, u, cmd.email.value, policy);
    }
  }

  /** An accepted update sets exactly the columns it gives, and those of its target only. */
  lemma UpdatedAsAsked(db: Directory, u: UserId, cmd: Command, policy: Policy, newId: EmailId, v: UserId)
    requires Valid(db) && Enabled(db, Update(u, cmd, policy, newId)) && v in db.users
    ensures var after := Step(db, Update(u, cmd, policy, newId));
            && u in after.users && u in after.members && v in after.users && v in after.members
            && after.users[u].active == (if cmd.active.Some? then cmd.active.value else db.users[u].active)
            && after.users[u].operator == (if cmd.operator.Some? then cmd.operator.value else db.users[u].operator)
            && after.members[u].organization == (if cmd.organization.Some? then cmd.organization.value else db.members[u].organization)
            && after.members[u].role == (if cmd.role.Some? then cmd.role.value else db.members[u].role)
            && (Verified(after.emails, u) <==> if cmd.verified.Some? then cmd.verified.value else Verified(db.emails, u))
            && after.users[v].passwordHash == db.users[v].passwordHash
            && (v != u ==> after.users[v].active == db.users[v].active && after.users[v].operator == db.users[v].operator
                           && after.members[v] == db.members[v] && (Verified(after.emails, v) <==> Verified(db.emails, v)))
  {
    IdentitySessions.StandingAfterUpdate(db, u, cmd, policy, newId, Step(db, Update(u, cmd, policy, newId)), v);
    IdentitySessions.StandingAfterUpdate(db, u, cmd, policy, newId, Step(db, Update(u, cmd, policy, newId)), u);
  }

  // ---- Creation and deletion ------------------------------------------------------------------------------------

  /** A user is created exactly when nobody uses the address, and as asked for. */
  lemma CreatedAsAsked(db: Directory, n: NewUser, u: UserId, id: EmailId, hash: string)
    requires Valid(db) && u !in db.users && id !in db.emails.rows
    ensures var after, address := Step(db, Create(n, u, id, hash)), Normalize(n.email);
            if exists other :: other in db.emails.rows && db.emails.rows[other].status != Status.Retired
                 && db.emails.rows[other].address == address
            then after == db
            else && after.users == db.users[u := User(n.active, n.operator, n.invited, hash)]
                 && after.members == db.members[u := n.member]
                 && after.emails.rows == db.emails.rows[id := Email(u, address, Current, n.verified)]
                 && u in after.emails.current && after.emails.current[u] == id
  {
  }

  /** An accepted deletion leaves nothing of the targets and everything of everybody else. */
  lemma DeletedEntirely(db: Directory, targets: set<UserId>)
    requires Valid(db) && Enabled(db, Delete(targets))
    ensures var after := Step(db, Delete(targets));
            && (forall u | u in targets :: u !in after.users && u !in after.members && u !in after.emails.current && HoldsNoSession(after, u))
            && (forall id | id in after.emails.rows :: after.emails.rows[id].user !in targets)
            && (forall t | t in after.tokens && after.tokens[t].email in db.emails.rows ::
                  db.emails.rows[after.tokens[t].email].user !in targets)
            && (forall u | u in db.users && u !in targets ::
                  u in after.users && after.users[u] == db.users[u] && u in after.members && after.members[u] == db.members[u])
            && (forall id | id in db.emails.rows && db.emails.rows[id].user !in targets ::
                  id in after.emails.rows && after.emails.rows[id] == db.emails.rows[id])
  {
  }
}
