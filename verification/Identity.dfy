/** app/identity/users/emails.py: the canonical form of an address, for ASCII text. */
module EmailText {

  predicate IsSpace(c: char) {
    c == ' ' || '\t' <= c <= '\r' || '\U{1c}' <= c <= '\U{1f}'
  }

  function LowerChar(c: char): char {
    if 'A' <= c <= 'Z' then (c as int + 32) as char else c
  }

  function Lower(s: string): (r: string)
    ensures |r| == |s| && forall i | 0 <= i < |s| :: r[i] == LowerChar(s[i])
  {
    seq(|s|, i requires 0 <= i < |s| => LowerChar(s[i]))
  }

  function Strip(s: string): string {
    if s != [] && IsSpace(s[0]) then Strip(s[1..])
    else if s != [] && IsSpace(s[|s| - 1]) then Strip(s[..|s| - 1])
    else s
  }

  function Normalize(email: string): string {
    Lower(Strip(email))
  }

  predicate Stripped(s: string) {
    s == [] || (!IsSpace(s[0]) && !IsSpace(s[|s| - 1]))
  }

  lemma {:induction false} StripStrips(s: string)
    ensures Stripped(Strip(s))
  {
    if s != [] && IsSpace(s[0]) {
      StripStrips(s[1..]);
    } else if s != [] && IsSpace(s[|s| - 1]) {
      StripStrips(s[..|s| - 1]);
    }
  }

  lemma {:induction false} StripMeaning(s: string) returns (i: nat, j: nat)
    ensures i <= j <= |s| && Strip(s) == s[i..j]
    ensures forall k | 0 <= k < |s| && (k < i || k >= j) :: IsSpace(s[k])
    ensures i < j ==> !IsSpace(s[i]) && !IsSpace(s[j - 1])
  {
    if s != [] && IsSpace(s[0]) {
      i, j := StripMeaning(s[1..]);
      assert s[1..][i..j] == s[i + 1..j + 1];
      forall k | 1 <= k < |s| && (k < i + 1 || k >= j + 1) ensures IsSpace(s[k]) {
        assert s[k] == s[1..][k - 1];
      }
      i, j := i + 1, j + 1;
    } else if s != [] && IsSpace(s[|s| - 1]) {
      i, j := StripMeaning(s[..|s| - 1]);
      assert s[..|s| - 1][i..j] == s[i..j];
    } else {
      i, j := 0, |s|;
    }
  }

  /** The canonical form is the address without the white space around it, every capital replaced. */
  lemma NormalizeMeaning(email: string) returns (i: nat, j: nat)
    ensures i <= j <= |email|
    ensures forall k | 0 <= k < |email| && (k < i || k >= j) :: IsSpace(email[k])
    ensures i < j ==> !IsSpace(email[i]) && !IsSpace(email[j - 1])
    ensures |Normalize(email)| == j - i
    ensures forall k | 0 <= k < j - i ::
              var c := email[i + k];
              Normalize(email)[k] == if 'A' <= c <= 'Z' then 'a' + (c - 'A') else c
  {
    i, j := StripMeaning(email);
  }

  /** Lookups may normalize a normalized address again, and inserts a stripped one: all the same. */
  lemma {:induction false} NormalizeIsStable(email: string)
    ensures Normalize(Normalize(email)) == Normalize(email)
    ensures Normalize(Strip(email)) == Normalize(email)
  {
    StripStrips(email);
    var n := Normalize(email);
    assert Stripped(n);
    assert Strip(n) == n && Strip(Strip(email)) == Strip(email);
    assert Lower(n) == n;
  }
}

/** app/identity: users, their one membership, their addresses, and the tokens bound to addresses. */
module Identity {
  import opened Common
  import opened WorkflowKeyring
  import opened EmailText

  type UserId = nat
  type EmailId = nat
  type OrganizationId = nat
  type TokenId = nat

  datatype Role = Member | Admin

  datatype Status = Current | Pending | Retired

  datatype User = User(active: bool, operator: bool, invitationPending: bool, passwordHash: string)

  datatype Membership = Membership(organization: OrganizationId, role: Role)

  /** `address` is the normalized one. */
  datatype Email = Email(user: UserId, address: string, status: Status, verified: bool)

  datatype Token = Token(email: EmailId, purpose: Purpose, expiresAt: Time, used: bool)

  type Users = map<UserId, User>
  type Members = map<UserId, Membership>
  type Tokens = map<TokenId, Token>

  predicate InUse(e: Email) {
    e.status != Retired
  }

  /** `user_email` with its three partial unique indexes: current rows and pending rows by user,
      and rows in use by address. */
  datatype Emails = Emails(
    rows: map<EmailId, Email>, current: map<UserId, EmailId>, pending: map<UserId, EmailId>, inUse: map<string, EmailId>)
  {
    predicate CurrentIndexed() {
      && (forall u | u in current :: current[u] in rows && rows[current[u]].user == u && rows[current[u]].status == Current)
      && (forall id | id in rows && rows[id].status == Current :: rows[id].user in current && current[rows[id].user] == id)
    }

    predicate PendingIndexed() {
      && (forall u | u in pending :: pending[u] in rows && rows[pending[u]].user == u && rows[pending[u]].status == Pending)
      && (forall id | id in rows && rows[id].status == Pending :: rows[id].user in pending && pending[rows[id].user] == id)
    }

    predicate AddressesIndexed() {
      && (forall a | a in inUse :: inUse[a] in rows && rows[inUse[a]].address == a && InUse(rows[inUse[a]]))
      && (forall id | id in rows && InUse(rows[id]) :: rows[id].address in inUse && inUse[rows[id].address] == id)
    }

    /** The indexes list exactly the rows they cover. */
    predicate Consistent() {
      CurrentIndexed() && PendingIndexed() && AddressesIndexed()
    }

    /** Whether an insert passes the unique indexes. */
    predicate Fits(e: Email) {
      && (InUse(e) ==> e.address !in inUse)
      && (e.status == Current ==> e.user !in current)
      && (e.status == Pending ==> e.user !in pending)
    }

    function Insert(id: EmailId, e: Email): Emails {
      Emails(rows[id := e],
             if e.status == Current then current[e.user := id] else current,
             if e.status == Pending then pending[e.user := id] else pending,
             if InUse(e) then inUse[e.address := id] else inUse)
    }

    function Retired(id: EmailId): Emails
      requires id in rows
    {
      var e := rows[id];
      if !InUse(e) then this
      else Emails(rows[id := e.(status := Status.Retired)],
                  if e.status == Current then current - {e.user} else current,
                  if e.status == Pending then pending - {e.user} else pending,
                  inUse - {e.address})
    }

    /** A pending row becomes the verified current one. */
    function Promoted(id: EmailId): Emails
      requires id in rows
    {
      var e := rows[id];
      Emails(rows[id := e.(status := Current, verified := true)], current[e.user := id], pending - {e.user}, inUse)
    }

    function Marked(id: EmailId, verified: bool): Emails
      requires id in rows
    {
      this.(rows := rows[id := rows[id].(verified := verified)])
    }
  }

  type SessionId = nat

  /** `sessions` are the browser sessions and token families of each user that nothing has revoked. */
  datatype Directory = Directory(
    users: Users, members: Members, emails: Emails, tokens: Tokens, sessions: map<SessionId, UserId>)

  // ---- Ownership of addresses ---------------------------------------------------------------------

  /** What the indexes demand of two rows. */
  predicate Compatible(a: Email, b: Email) {
    InUse(a) && InUse(b) ==> a.address != b.address && !(a.user == b.user && a.status == b.status)
  }

  predicate EmailRules(rows: map<EmailId, Email>) {
    forall i, j | i in rows && j in rows && i != j :: Compatible(rows[i], rows[j])
  }

  /** Every user has one membership and exactly one current address; pending ones are unverified. */
  predicate Valid(db: Directory) {
    && db.members.Keys == db.users.Keys
    && db.emails.Consistent()
    && db.emails.current.Keys == db.users.Keys
    && OwnersKnown(db)
  }

  predicate OwnersKnown(db: Directory) {
    forall id | id in db.emails.rows ::
      db.emails.rows[id].user in db.users && (db.emails.rows[id].status == Pending ==> !db.emails.rows[id].verified)
  }

  /** The indexes keep every two rows apart. */
  lemma IndexesEnforceRules(emails: Emails)
    requires emails.Consistent()
    ensures EmailRules(emails.rows)
  {
    forall i, j | i in emails.rows && j in emails.rows && i != j ensures Compatible(emails.rows[i], emails.rows[j]) {
      RowsAreApart(emails, i, j);
    }
  }

  lemma RowsAreApart(emails: Emails, i: EmailId, j: EmailId)
    requires emails.Consistent() && i in emails.rows && j in emails.rows && i != j
    ensures Compatible(emails.rows[i], emails.rows[j])
  {
  }

  function WithStatus(emails: Emails, u: UserId, status: Status): set<EmailId> {
    set id | id in emails.rows && emails.rows[id].user == u && emails.rows[id].status == status
  }

  lemma OneCurrent(emails: Emails, u: UserId)
    requires emails.CurrentIndexed() && u in emails.current
    ensures WithStatus(emails, u, Current) == {emails.current[u]}
  {
  }

  lemma AtMostOnePending(emails: Emails, u: UserId)
    requires emails.PendingIndexed()
    ensures WithStatus(emails, u, Pending) == if u in emails.pending then {emails.pending[u]} else {}
  {
  }

  /** In a valid directory each user has exactly one current address and at most one pending one,
      and no address is in use twice. */
  lemma OwnershipIsWellFormed(db: Directory, u: UserId)
    requires Valid(db) && u in db.users
    ensures EmailRules(db.emails.rows)
    ensures WithStatus(db.emails, u, Current) == {db.emails.current[u]}
    ensures WithStatus(db.emails, u, Pending) == if u in db.emails.pending then {db.emails.pending[u]} else {}
  {
    IndexesEnforceRules(db.emails);
    OneCurrent(db.emails, u);
    AtMostOnePending(db.emails, u);
  }

  /** `email_is_available`. */
  predicate Available(emails: Emails, address: string, excluding: Option<UserId>) {
    forall id | id in emails.rows && InUse(emails.rows[id]) && emails.rows[id].address == Normalize(address) ::
      Some(emails.rows[id].user) == excluding
  }

  lemma InsertKeepsConsistent(emails: Emails, id: EmailId, e: Email)
    requires emails.Consistent() && id !in emails.rows && emails.Fits(e)
    ensures emails.Insert(id, e).Consistent()
  {
    InsertKeepsCurrent(emails, id, e);
    InsertKeepsPending(emails, id, e);
    InsertKeepsAddresses(emails, id, e);
  }

  lemma InsertKeepsCurrent(emails: Emails, id: EmailId, e: Email)
    requires emails.CurrentIndexed() && id !in emails.rows && emails.Fits(e)
    ensures emails.Insert(id, e).CurrentIndexed()
  {
  }

  lemma InsertKeepsPending(emails: Emails, id: EmailId, e: Email)
    requires emails.PendingIndexed() && id !in emails.rows && emails.Fits(e)
    ensures emails.Insert(id, e).PendingIndexed()
  {
  }

  lemma InsertKeepsAddresses(emails: Emails, id: EmailId, e: Email)
    requires emails.AddressesIndexed() && id !in emails.rows && emails.Fits(e)
    ensures emails.Insert(id, e).AddressesIndexed()
  {
  }

  lemma RetiredKeepsConsistent(emails: Emails, id: EmailId)
    requires emails.Consistent() && id in emails.rows
    ensures emails.Retired(id).Consistent()
  {
  }

  lemma PromotedKeepsConsistent(emails: Emails, id: EmailId)
    requires emails.Consistent() && id in emails.rows && emails.rows[id].status == Pending
    requires emails.rows[id].user !in emails.current
    ensures emails.Promoted(id).Consistent()
  {
  }

  lemma MarkedKeepsConsistent(emails: Emails, id: EmailId, verified: bool)
    requires emails.Consistent() && id in emails.rows
    ensures emails.Marked(id, verified).Consistent()
  {
  }

  // ---- Tokens -----------------------------------------------------------------------------------------

  function UseTokens(tokens: Tokens, emails: set<EmailId>, purposes: set<Purpose>): Tokens {
    map t | t in tokens ::
      if tokens[t].email in emails && tokens[t].purpose in purposes then tokens[t].(used := true) else tokens[t]
  }

  /** `revoke_user_security_sessions`. */
  function WithoutSessions(db: Directory, u: UserId): Directory {
    db.(sessions := map s | s in db.sessions && db.sessions[s] != u :: db.sessions[s])
  }

  predicate HoldsNoSession(db: Directory, u: UserId) {
    u !in db.sessions.Values
  }

  function EmailsOf(emails: Emails, u: UserId): set<EmailId> {
    set id | id in emails.rows && emails.rows[id].user == u
  }

  predicate NoUnusedToken(db: Directory, id: EmailId) {
    forall t | t in db.tokens && db.tokens[t].email == id :: db.tokens[t].used
  }

  /** `retire_email`. */
  function Retire(db: Directory, id: EmailId): Directory
    requires id in db.emails.rows
  {
    if !InUse(db.emails.rows[id]) then db
    else db.(tokens := UseTokens(db.tokens, {id}, EVERY_PURPOSE), emails := db.emails.Retired(id))
  }

  lemma RetiringSpendsTokens(db: Directory, id: EmailId)
    requires id in db.emails.rows && InUse(db.emails.rows[id])
    ensures NoUnusedToken(Retire(db, id), id)
  {
    forall t | t in db.tokens ensures db.tokens[t].purpose in EVERY_PURPOSE {
      EveryPurpose(db.tokens[t].purpose);
    }
  }

  // ---- Who can act: live operators and administrators --------------------------------------------------

  predicate Verified(emails: Emails, u: UserId) {
    u in emails.current && emails.current[u] in emails.rows && emails.rows[emails.current[u]].verified
  }

  predicate IsLiveOperator(db: Directory, u: UserId) {
    u in db.users && db.users[u].operator && db.users[u].active && Verified(db.emails, u)
  }

  function LiveOperators(db: Directory): set<UserId> {
    set u | u in db.users && IsLiveOperator(db, u)
  }

  predicate IsAdminOf(db: Directory, u: UserId, org: OrganizationId) {
    u in db.members && db.members[u] == Membership(org, Admin)
  }

  predicate IsLiveAdmin(db: Directory, u: UserId, org: OrganizationId) {
    u in db.users && IsAdminOf(db, u, org) && db.users[u].active && Verified(db.emails, u)
  }

  function LiveAdmins(db: Directory, org: OrganizationId): set<UserId> {
    set u | u in db.users && IsLiveAdmin(db, u, org)
  }

  predicate VerifiedRow(rows: map<EmailId, Email>, u: UserId, id: EmailId) {
    id in rows && rows[id].user == u && rows[id].status == Current && rows[id].verified
  }

  /** The rows of the two joins that are counted, less the excluded users. */
  function OperatorRows(db: Directory, excluded: set<UserId>): set<(UserId, EmailId)> {
    set u, id | u in db.users && id in db.emails.rows && VerifiedRow(db.emails.rows, u, id)
                && db.users[u].operator && db.users[u].active && u !in excluded :: (u, id)
  }

  function AdminRows(db: Directory, org: OrganizationId, excluded: set<UserId>): set<(UserId, EmailId)> {
    set u, id | u in db.users && id in db.emails.rows && VerifiedRow(db.emails.rows, u, id)
                && IsAdminOf(db, u, org) && db.users[u].active && u !in excluded :: (u, id)
  }

  function FirstOf(rows: set<(UserId, EmailId)>): set<UserId> {
    set r | r in rows :: r.0
  }

  lemma {:induction false} OneRowEach(rows: set<(UserId, EmailId)>)
    requires forall a, b | a in rows && b in rows && a.0 == b.0 :: a == b
    ensures |FirstOf(rows)| == |rows|
  {
    if rows == {} {
      assert FirstOf(rows) == {};
    } else {
      var r :| r in rows;
      OneRowEach(rows - {r});
      assert FirstOf(rows) == FirstOf(rows - {r}) + {r.0};
    }
  }

  /** The queries count joined rows. Because nobody has two current addresses, that is the number
      of people. */
  lemma CountingRowsCountsOperators(db: Directory, excluded: set<UserId>)
    requires db.emails.Consistent()
    ensures |OperatorRows(db, excluded)| == |LiveOperators(db) - excluded|
  {
    var rows := OperatorRows(db, excluded);
    OneRowEach(rows);
    forall u | u in LiveOperators(db) - excluded ensures u in FirstOf(rows) {
      assert (u, db.emails.current[u]) in rows;
    }
    assert FirstOf(rows) == LiveOperators(db) - excluded;
  }

  lemma CountingRowsCountsAdmins(db: Directory, org: OrganizationId, excluded: set<UserId>)
    requires db.emails.Consistent()
    ensures |AdminRows(db, org, excluded)| == |LiveAdmins(db, org) - excluded|
  {
    var rows := AdminRows(db, org, excluded);
    OneRowEach(rows);
    forall u | u in LiveAdmins(db, org) - excluded ensures u in FirstOf(rows) {
      assert (u, db.emails.current[u]) in rows;
    }
    assert FirstOf(rows) == LiveAdmins(db, org) - excluded;
  }

  /** Without that rule the count lies: one operator with two current addresses counts twice. */
  lemma WithoutEmailRulesTheCountLies() returns (db: Directory)
    ensures !EmailRules(db.emails.rows)
    ensures |OperatorRows(db, {})| == 2 && |LiveOperators(db)| == 1
  {
    var a, b := Email(1, "a", Current, true), Email(1, "b", Current, true);
    var emails := Emails(map[1 := a, 2 := b], map[1 := 1], map[], map["a" := 1, "b" := 2]);
    db := Directory(map[1 := User(true, true, false, "")], map[1 := Membership(1, Member)], emails, map[], map[]);
    assert !Compatible(emails.rows[1], emails.rows[2]);
    assert OperatorRows(db, {}) == {(1, 1), (1, 2)};
    assert LiveOperators(db) == {1};
  }
}
