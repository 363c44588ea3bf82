/** app/identity/services and app/workflow_tokens/confirmation_service.py: the mutations of users
    and addresses, each one transaction. */
module IdentityLifecycle {
  import opened Common
  import opened EmailText
  import opened Identity

  /** `UserUpdateCommand`: an absent field is left alone. */
  datatype Command = Command(
    email: Option<string>, active: Option<bool>, operator: Option<bool>, role: Option<Role>,
    verified: Option<bool>, organization: Option<OrganizationId>)

  datatype Policy = DirectIfUnverified | PendingOnly

  datatype Error = LastOperator | LastAdmin | AddressTaken | UniqueViolation | NotFound | InvalidToken

  function Or<T>(change: Option<T>, present: T): T {
    match change case Some(x) => x case None => present
  }

  // ---- Addresses: `apply_update` ----------------------------------------------------------------------

  datatype Plan = Keep | Taken | Replace(address: string) | Request(address: string)
  {
    predicate Inserts() {
      Replace? || Request?
    }
  }

  function PlanFor(emails: Emails, u: UserId, email: Option<string>, policy: Policy): Plan
    requires emails.Consistent() && u in emails.current
  {
    if email.None? then Keep
    else
      var address, current := Normalize(email.value), emails.rows[emails.current[u]];
      if address == current.address || (u in emails.pending && address == emails.rows[emails.pending[u]].address) then Keep
      else if !Available(emails, address, Some(u)) then Taken
      else if policy.DirectIfUnverified? && !current.verified then Replace(address)
      else Request(address)
  }

  function RetirePending(db: Directory, u: UserId): Directory
    requires db.emails.Consistent()
  {
    if u in db.emails.pending then Retire(db, db.emails.pending[u]) else db
  }

  /** The addresses that make way, just before a new one is inserted. */
  function Cleared(db: Directory, u: UserId, plan: Plan): Directory
    requires db.emails.Consistent() && u in db.emails.current
  {
    match plan
    case Replace(_) =>
      var first := Retire(db, db.emails.current[u]);
      RetiredKeepsConsistent(db.emails, db.emails.current[u]);
      RetirePending(first, u)
    case Request(_) => RetirePending(db, u)
    case _ => db
  }

  function NewAddress(u: UserId, plan: Plan): Email
    requires plan.Inserts()
  {
    Email(u, plan.address, if plan.Replace? then Current else Pending, false)
  }

  /** After the plan's writes. `newId` is the id of an inserted address. */
  function Moved(db: Directory, u: UserId, plan: Plan, newId: EmailId): Directory
    requires db.emails.Consistent() && u in db.emails.current
  {
    if plan.Inserts()
    then
      var cleared := Cleared(db, u, plan);
      cleared.(emails := cleared.emails.Insert(newId, NewAddress(u, plan)))
    else db
  }

  function MarkCurrent(db: Directory, u: UserId, verified: Option<bool>): Directory
    requires u in db.emails.current && db.emails.current[u] in db.emails.rows
  {
    match verified
    case None => db
    case Some(v) => db.(emails := db.emails.Marked(db.emails.current[u], v))
  }

  /** Nothing in use carries the address a plan inserts, and only an unverified address is replaced. */
  lemma PlansAreSound(emails: Emails, u: UserId, email: Option<string>, policy: Policy)
    requires emails.Consistent() && u in emails.current
    ensures Sound(emails, u, PlanFor(emails, u, email, policy))
  {
    if PlanFor(emails, u, email, policy).Inserts() {
      NormalizeIsStable(email.value);
      AvailableIsFree(emails, u, Normalize(email.value));
    }
  }

  predicate Sound(emails: Emails, u: UserId, plan: Plan)
    requires emails.Consistent() && u in emails.current
  {
    && (plan.Inserts() ==> plan.address !in emails.inUse)
    && (plan.Replace? ==> !emails.rows[emails.current[u]].verified)
  }

  lemma AvailableIsFree(emails: Emails, u: UserId, address: string)
    requires emails.Consistent() && u in emails.current && Normalize(address) == address
    requires Available(emails, address, Some(u)) && address != emails.rows[emails.current[u]].address
    requires u in emails.pending ==> address != emails.rows[emails.pending[u]].address
    ensures address !in emails.inUse
  {
  }

  /** What the writes for one user may change: that user's addresses retire or come in. */
  ghost predicate OwnWrite(before: Directory, after: Directory, u: UserId) {
    && after.users == before.users && after.members == before.members
    && (forall id | id in before.emails.rows :: id in after.emails.rows)
    && (forall id | id in after.emails.rows :: OwnChange(before.emails.rows, id, after.emails.rows[id], u))
    && (forall v | v != u :: v in after.emails.current <==> v in before.emails.current)
    && (forall v | v != u && v in before.emails.current :: after.emails.current[v] == before.emails.current[v])
  }

  predicate OwnChange(before: map<EmailId, Email>, id: EmailId, e: Email, u: UserId) {
    if id in before then e == before[id] || (before[id].user == u && e == before[id].(status := Retired))
    else e.user == u && !e.verified
  }

  lemma RetireIsOwn(db: Directory, u: UserId, id: EmailId)
    requires db.emails.Consistent() && id in db.emails.rows && db.emails.rows[id].user == u
    ensures OwnWrite(db, Retire(db, id), u) && Retire(db, id).emails.Consistent()
    ensures Retire(db, id).emails.inUse.Keys <= db.emails.inUse.Keys
  {
    RetiredKeepsConsistent(db.emails, id);
  }

  lemma InsertIsOwn(db: Directory, u: UserId, id: EmailId, e: Email)
    requires db.emails.Consistent() && id !in db.emails.rows && db.emails.Fits(e) && e.user == u && !e.verified
    ensures OwnWrite(db, db.(emails := db.emails.Insert(id, e)), u) && db.emails.Insert(id, e).Consistent()
  {
    InsertKeepsConsistent(db.emails, id, e);
  }

  lemma OwnWritesCompose(a: Directory, b: Directory, c: Directory, u: UserId)
    requires OwnWrite(a, b, u) && OwnWrite(b, c, u)
    ensures OwnWrite(a, c, u)
  {
    forall id | id in c.emails.rows ensures OwnChange(a.emails.rows, id, c.emails.rows[id], u) {
      assert OwnChange(b.emails.rows, id, c.emails.rows[id], u);
      assert id in b.emails.rows ==> OwnChange(a.emails.rows, id, b.emails.rows[id], u);
    }
  }

  lemma RetirePendingIsOwn(db: Directory, u: UserId)
    requires db.emails.Consistent()
    ensures OwnWrite(db, RetirePending(db, u), u) && RetirePending(db, u).emails.Consistent()
    ensures RetirePending(db, u).emails.inUse.Keys <= db.emails.inUse.Keys
    ensures u !in RetirePending(db, u).emails.pending
    ensures u in RetirePending(db, u).emails.current <==> u in db.emails.current
  {
    if u in db.emails.pending {
      RetireIsOwn(db, u, db.emails.pending[u]);
    }
  }

  /** Before the insert the indexes are consistent and have room for the new address. */
  lemma ClearedHasRoom(db: Directory, u: UserId, plan: Plan)
    requires db.emails.Consistent() && u in db.emails.current && plan.Inserts() && plan.address !in db.emails.inUse
    ensures OwnWrite(db, Cleared(db, u, plan), u)
    ensures Cleared(db, u, plan).emails.Consistent() && Cleared(db, u, plan).emails.Fits(NewAddress(u, plan))
  {
    if plan.Replace? {
      var first := Retire(db, db.emails.current[u]);
      RetireIsOwn(db, u, db.emails.current[u]);
      RetirePendingIsOwn(first, u);
      OwnWritesCompose(db, first, RetirePending(first, u), u);
    } else {
      RetirePendingIsOwn(db, u);
    }
  }

  lemma ClearedKeepsKeys(db: Directory, u: UserId, plan: Plan)
    requires db.emails.Consistent() && u in db.emails.current
    ensures Cleared(db, u, plan).emails.rows.Keys == db.emails.rows.Keys
  {
  }

  /** Every write fits, touches only the user's own addresses, and leaves the user a current one. */
  lemma MovedIsOwn(db: Directory, u: UserId, plan: Plan, newId: EmailId)
    requires db.emails.Consistent() && u in db.emails.current && newId !in db.emails.rows && Sound(db.emails, u, plan)
    ensures OwnWrite(db, Moved(db, u, plan, newId), u) && Moved(db, u, plan, newId).emails.Consistent()
  {
    if plan.Inserts() {
      ClearedHasRoom(db, u, plan);
      ClearedKeepsKeys(db, u, plan);
      InsertIsOwn(Cleared(db, u, plan), u, newId, NewAddress(u, plan));
      OwnWritesCompose(db, Cleared(db, u, plan), Moved(db, u, plan, newId), u);
    }
  }

  lemma MovedCurrent(db: Directory, u: UserId, plan: Plan, newId: EmailId)
    requires db.emails.Consistent() && u in db.emails.current
    ensures u in Moved(db, u, plan, newId).emails.current
    ensures Moved(db, u, plan, newId).emails.current[u] == if plan.Replace? then newId else db.emails.current[u]
    ensures plan.Inserts() ==> newId in Moved(db, u, plan, newId).emails.rows
                               && Moved(db, u, plan, newId).emails.rows[newId] == NewAddress(u, plan)
  {
  }

  lemma OwnWriteKeepsOwners(before: Directory, after: Directory, u: UserId)
    requires OwnersKnown(before) && u in before.users && OwnWrite(before, after, u)
    ensures OwnersKnown(after)
  {
    forall id | id in after.emails.rows
      ensures after.emails.rows[id].user in after.users
      ensures after.emails.rows[id].status == Pending ==> !after.emails.rows[id].verified
    {
      assert OwnChange(before.emails.rows, id, after.emails.rows[id], u);
    }
  }

  lemma OwnWriteKeepsKeys(before: Directory, after: Directory, u: UserId)
    requires before.emails.current.Keys == before.users.Keys && u in before.users && OwnWrite(before, after, u)
    requires u in after.emails.current
    ensures after.emails.current.Keys == after.users.Keys
  {
    forall v ensures v in after.emails.current.Keys <==> v in before.emails.current.Keys {
    }
  }

  lemma OwnWriteKeepsValid(before: Directory, after: Directory, u: UserId)
    requires Valid(before) && u in before.users && OwnWrite(before, after, u)
    requires after.emails.Consistent() && u in after.emails.current
    ensures Valid(after)
  {
    OwnWriteKeepsOwners(before, after, u);
    OwnWriteKeepsKeys(before, after, u);
  }

  lemma MovedKeepsValid(db: Directory, u: UserId, plan: Plan, newId: EmailId)
    requires Valid(db) && u in db.users && newId !in db.emails.rows && Sound(db.emails, u, plan)
    ensures Valid(Moved(db, u, plan, newId))
  {
    MovedIsOwn(db, u, plan, newId);
    MovedCurrent(db, u, plan, newId);
    OwnWriteKeepsValid(db, Moved(db, u, plan, newId), u);
  }

  lemma OwnWriteSparesOthers(before: Directory, after: Directory, u: UserId, v: UserId)
    requires before.emails.Consistent() && OwnWrite(before, after, u) && v != u
    ensures Verified(after.emails, v) <==> Verified(before.emails, v)
  {
    if v in before.emails.current {
      var id := before.emails.current[v];
      assert OwnChange(before.emails.rows, id, after.emails.rows[id], u);
    }
  }

  lemma MovedTargetVerified(db: Directory, u: UserId, plan: Plan, newId: EmailId)
    requires db.emails.Consistent() && u in db.emails.current && newId !in db.emails.rows && Sound(db.emails, u, plan)
    requires OwnWrite(db, Moved(db, u, plan, newId), u) && Moved(db, u, plan, newId).emails.Consistent()
    ensures Verified(Moved(db, u, plan, newId).emails, u) <==> Verified(db.emails, u)
  {
    MovedCurrent(db, u, plan, newId);
    var after := Moved(db, u, plan, newId).emails;
    assert OwnChange(db.emails.rows, after.current[u], after.rows[after.current[u]], u);
  }

  /** A change of address makes nobody verified and unverifies nobody. */
  lemma MovedKeepsVerified(db: Directory, u: UserId, plan: Plan, newId: EmailId, v: UserId)
    requires Valid(db) && u in db.users && newId !in db.emails.rows && Sound(db.emails, u, plan)
    ensures Verified(Moved(db, u, plan, newId).emails, v) <==> Verified(db.emails, v)
  {
    MovedIsOwn(db, u, plan, newId);
    if v != u {
      OwnWriteSparesOthers(db, Moved(db, u, plan, newId), u, v);
    } else {
      MovedTargetVerified(db, u, plan, newId);
    }
  }
}
