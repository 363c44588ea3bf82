/** app/browser_sessions: login with its session cap, sliding expiry under an absolute bound, and
    revocation. */
module BrowserSessions {
  import opened Common
  import opened RowOrder

  type UserId = nat

  /** Digest of the random session id. */
  type SessionId = nat

  datatype Settings = Settings(slideSeconds: nat, ttlSeconds: nat, absoluteTtlSeconds: nat, maxPerUser: nat)
  {
    predicate Valid() {
      0 < slideSeconds <= ttlSeconds <= absoluteTtlSeconds && 1 <= maxPerUser <= 100
    }
  }

  /** `publicId` is unique and only compared. */
  datatype Row = Row(
    user: UserId, publicId: nat, createdAt: Time, expiresAt: Time, absoluteExpiresAt: Time, lastSeenAt: Time,
    revokedAt: Option<Time>)
  {
    predicate Active(now: Time) {
      revokedAt.None? && expiresAt > now && absoluteExpiresAt > now
    }
  }

  type Rows = map<SessionId, Row>

  // ---- Sliding --------------------------------------------------------------------------------------

  function NewRow(s: Settings, user: UserId, publicId: nat, now: Time): Row {
    var absolute := now + s.absoluteTtlSeconds * SECOND;
    Row(user, publicId, now, Min(now + s.ttlSeconds * SECOND, absolute), absolute, now, None)
  }

  /** What `slide_session` makes of a row it was handed. */
  function Slid(s: Settings, row: Row, now: Time): Row {
    var patch: Time := Min(now + s.ttlSeconds * SECOND, row.absoluteExpiresAt);
    var extend := row.expiresAt - now <= s.slideSeconds * SECOND && patch > row.expiresAt;
    if extend then row.(expiresAt := patch, lastSeenAt := now)
    else if now - row.lastSeenAt >= s.slideSeconds * SECOND then row.(lastSeenAt := now)
    else row
  }

  /** Sliding buys at least `slide` seconds, at most `ttl` seconds, never past the absolute expiry,
      and never shortens a session. */
  lemma SlideBounds(s: Settings, row: Row, now: Time)
    requires s.Valid() && row.expiresAt <= row.absoluteExpiresAt
    ensures var after := Slid(s, row, now);
            && after.(expiresAt := row.expiresAt, lastSeenAt := row.lastSeenAt) == row
            && row.expiresAt <= after.expiresAt <= row.absoluteExpiresAt
            && after.expiresAt >= Min(now + s.slideSeconds * SECOND, row.absoluteExpiresAt)
            && after.expiresAt <= Max(row.expiresAt, now + s.ttlSeconds * SECOND)
  {
  }

  /** Within its last `slide` seconds a session gets the full `ttl` again, up to its absolute expiry;
      before that its expiry stays. The request is noted exactly when the expiry grew or `slide`
      seconds have passed since the last one noted. */
  lemma SlideRenews(s: Settings, row: Row, now: Time)
    requires s.Valid() && row.expiresAt <= row.absoluteExpiresAt
    ensures var after := Slid(s, row, now);
            && (row.Active(now) && row.expiresAt <= now + s.slideSeconds * SECOND ==>
                  forall t: Time | now <= t < now + s.ttlSeconds * SECOND && t < row.absoluteExpiresAt :: after.Active(t))
            && (row.expiresAt > now + s.slideSeconds * SECOND ==> after.expiresAt == row.expiresAt)
            && after.lastSeenAt == (if after.expiresAt > row.expiresAt || now >= row.lastSeenAt + s.slideSeconds * SECOND
                                    then now else row.lastSeenAt)
  {
  }

  /** `remaining_session_lifetime_seconds`; truncation toward zero matters only above zero. */
  function RemainingSeconds(row: Row, now: Time): nat {
    var left := Min(row.expiresAt, row.absoluteExpiresAt) - now;
    if left <= 0 then 0 else left / SECOND
  }

  /** A cookie with this lifetime ends with the session, at most one second early; once the
      session is over it is zero. */
  lemma CookieEndsWithSession(row: Row, now: Time)
    requires row.revokedAt.None?
    ensures row.Active(now) ==>
              now + RemainingSeconds(row, now) * SECOND <= Min(row.expiresAt, row.absoluteExpiresAt)
              < now + (RemainingSeconds(row, now) + 1) * SECOND
    ensures !row.Active(now) ==> RemainingSeconds(row, now) == 0
  {
    var left := Min(row.expiresAt, row.absoluteExpiresAt) - now;
    assert left > 0 ==> left == (left / SECOND) * SECOND + left % SECOND;
  }

  // ---- The session cap -------------------------------------------------------------------------------

  function ActiveOf(rows: Rows, user: UserId, now: Time): set<SessionId> {
    set id | id in rows && rows[id].user == user && rows[id].Active(now)
  }

  predicate Newer(rows: Rows, a: SessionId, b: SessionId)
    requires a in rows && b in rows
  {
    rows[a].createdAt > rows[b].createdAt
    || (rows[a].createdAt == rows[b].createdAt && rows[a].publicId > rows[b].publicId)
  }

  predicate DistinctPublicIds(rows: Rows) {
    forall a, b | a in rows && b in rows && rows[a].publicId == rows[b].publicId :: a == b
  }

  function NewerOnes(rows: Rows, ids: set<SessionId>, id: SessionId): set<SessionId>
    requires ids <= rows.Keys && id in rows
  {
    set o | o in ids && Newer(rows, o, id)
  }

  /** `ORDER BY created_at DESC, public_id DESC OFFSET k`: those that have `k` newer ones. */
  function Overflow(rows: Rows, ids: set<SessionId>, k: nat): set<SessionId>
    requires ids <= rows.Keys
  {
    set id | id in ids && |NewerOnes(rows, ids, id)| >= k
  }

  /** A listing of `ids`, newest first. */
  predicate ListsNewestFirst(rows: Rows, ids: set<SessionId>, q: seq<SessionId>)
    requires ids <= rows.Keys
  {
    && Elements(q) == ids
    && forall i, j | 0 <= i < j < |q| :: q[i] in rows && q[j] in rows && Newer(rows, q[i], q[j])
  }

  function Elements(q: seq<SessionId>): set<SessionId> {
    set id | id in q
  }

  lemma {:induction false} DistinctElements(q: seq<SessionId>)
    requires forall i, j | 0 <= i < j < |q| :: q[i] != q[j]
    ensures |Elements(q)| == |q|
  {
    if q != [] {
      var n := |q| - 1;
      DistinctElements(q[..n]);
      var x, init := q[n], Elements(q[..n]);
      assert q == q[..n] + [x];
      assert Elements(q) == init + {x};
      assert x !in init;
    }
  }

  /** The rank definition is what the query computes: skip `k` rows of the sorted listing. */
  lemma OverflowIsTheTail(rows: Rows, ids: set<SessionId>, k: nat, q: seq<SessionId>)
    requires ids <= rows.Keys && ListsNewestFirst(rows, ids, q)
    ensures forall i | 0 <= i < |q| :: q[i] in Overflow(rows, ids, k) <==> i >= k
    ensures |q| == |ids|
  {
    DistinctElements(q);
    forall i | 0 <= i < |q| ensures q[i] in Overflow(rows, ids, k) <==> i >= k {
      assert q[i] in ids;
      forall id ensures id in NewerOnes(rows, ids, q[i]) <==> id in q[..i] {
        if id in ids {
          assert id in q;
          var j :| 0 <= j < |q| && q[j] == id;
          assert j < i ==> q[..i][j] == id;
        }
        if id in q[..i] {
          var j :| 0 <= j < i && q[..i][j] == id;
          assert q[j] == id && id in ids;
        }
      }
      assert NewerOnes(rows, ids, q[i]) == Elements(q[..i]);
      DistinctElements(q[..i]);
    }
  }

  lemma {:induction false} OldestExists(rows: Rows, ids: set<SessionId>) returns (oldest: SessionId)
    requires ids != {} && ids <= rows.Keys && DistinctPublicIds(rows)
    ensures oldest in ids && forall id | id in ids && id != oldest :: Newer(rows, id, oldest)
  {
    var x :| x in ids;
    if ids == {x} {
      oldest := x;
    } else {
      var rest := OldestExists(rows, ids - {x});
      oldest := if Newer(rows, x, rest) then rest else x;
      assert forall id | id in ids && id != x :: id in ids - {x};
    }
  }

  lemma {:induction false} NewestExists(rows: Rows, ids: set<SessionId>) returns (newest: SessionId)
    requires ids != {} && ids <= rows.Keys && DistinctPublicIds(rows)
    ensures newest in ids && forall id | id in ids && id != newest :: Newer(rows, newest, id)
  {
    var x :| x in ids;
    if ids == {x} {
      newest := x;
    } else {
      var rest := NewestExists(rows, ids - {x});
      newest := if Newer(rows, x, rest) then x else rest;
      assert forall id | id in ids && id != x :: id in ids - {x};
    }
  }

  lemma OverflowIsUpward(rows: Rows, ids: set<SessionId>, k: nat, a: SessionId, b: SessionId)
    requires ids <= rows.Keys && a in ids && b in Overflow(rows, ids, k) && Newer(rows, b, a)
    ensures a in Overflow(rows, ids, k)
  {
    CountSubset(NewerOnes(rows, ids, b), NewerOnes(rows, ids, a));
  }

  lemma KeptAreNewer(rows: Rows, ids: set<SessionId>, k: nat)
    requires ids <= rows.Keys && DistinctPublicIds(rows)
    ensures forall a, b | a in ids - Overflow(rows, ids, k) && b in Overflow(rows, ids, k) :: Newer(rows, a, b)
  {
    forall a, b | a in ids - Overflow(rows, ids, k) && b in Overflow(rows, ids, k) ensures Newer(rows, a, b) {
      assert a != b && rows[a].publicId != rows[b].publicId;
      if Newer(rows, b, a) {
        OverflowIsUpward(rows, ids, k, a, b);
      }
    }
  }

  /** What is left after the overflow: the newest `k`, or all when there are fewer. */
  lemma KeptAreTheNewest(rows: Rows, ids: set<SessionId>, k: nat)
    requires ids <= rows.Keys && DistinctPublicIds(rows)
    ensures |ids - Overflow(rows, ids, k)| == Min(k, |ids|)
    ensures forall a, b | a in ids - Overflow(rows, ids, k) && b in Overflow(rows, ids, k) ::
              rows[a].createdAt > rows[b].createdAt || (rows[a].createdAt == rows[b].createdAt && rows[a].publicId > rows[b].publicId)
  {
    KeptAreLater(rows, ids, k);
    KeptCount(rows, ids, k);
  }

  lemma KeptAreLater(rows: Rows, ids: set<SessionId>, k: nat)
    requires ids <= rows.Keys && DistinctPublicIds(rows)
    ensures forall a, b | a in ids - Overflow(rows, ids, k) && b in Overflow(rows, ids, k) ::
              rows[a].createdAt > rows[b].createdAt || (rows[a].createdAt == rows[b].createdAt && rows[a].publicId > rows[b].publicId)
  {
    KeptAreNewer(rows, ids, k);
    forall a, b | a in ids - Overflow(rows, ids, k) && b in Overflow(rows, ids, k)
      ensures rows[a].createdAt > rows[b].createdAt || (rows[a].createdAt == rows[b].createdAt && rows[a].publicId > rows[b].publicId)
    {
      assert Newer(rows, a, b);
    }
  }

  lemma KeptCount(rows: Rows, ids: set<SessionId>, k: nat)
    requires ids <= rows.Keys && DistinctPublicIds(rows)
    ensures |ids - Overflow(rows, ids, k)| == Min(k, |ids|)
  {
    AtMostKept(rows, ids, k);
    AtLeastKept(rows, ids, k);
    CountSubset(ids - Overflow(rows, ids, k), ids);
  }

  lemma AtLeastKept(rows: Rows, ids: set<SessionId>, k: nat)
    requires ids <= rows.Keys && DistinctPublicIds(rows)
    ensures |ids - Overflow(rows, ids, k)| >= Min(k, |ids|)
  {
    var out := Overflow(rows, ids, k);
    if out == {} {
      assert ids - out == ids;
    } else {
      var first := NewestExists(rows, out);
      assert NewerOnes(rows, ids, first) <= ids - out;
      CountSubset(NewerOnes(rows, ids, first), ids - out);
    }
  }

  lemma AtMostKept(rows: Rows, ids: set<SessionId>, k: nat)
    requires ids <= rows.Keys && DistinctPublicIds(rows)
    ensures |ids - Overflow(rows, ids, k)| <= k
  {
    var kept := ids - Overflow(rows, ids, k);
    if kept != {} {
      var last := OldestExists(rows, kept);
      CountSubset(kept - {last}, NewerOnes(rows, ids, last));
    }
  }

  /** The sessions a login deletes: the other active ones beyond the newest `max - 1`. */
  function Evicted(s: Settings, rows: Rows, user: UserId, id: SessionId, now: Time): set<SessionId>
    requires s.Valid()
  {
    Overflow(rows, ActiveOf(rows, user, now) - {id}, s.maxPerUser - 1)
  }

  function LoginLeaves(s: Settings, rows: Rows, id: SessionId, row: Row, now: Time): Rows
    requires s.Valid()
  {
    var all := rows[id := row];
    all - Evicted(s, all, row.user, id, now)
  }

  predicate CanInsert(rows: Rows, id: SessionId, publicId: nat) {
    id !in rows && forall other | other in rows :: rows[other].publicId != publicId
  }

  function GoneAtLogin(s: Settings, rows: Rows, user: UserId, now: Time): set<SessionId>
    requires s.Valid()
  {
    Overflow(rows, ActiveOf(rows, user, now), s.maxPerUser - 1)
  }

  /** The new row does not disturb the ranking of the others. */
  lemma EvictedFromOthers(s: Settings, rows: Rows, id: SessionId, row: Row, now: Time)
    requires s.Valid() && id !in rows
    ensures Evicted(s, rows[id := row], row.user, id, now) == GoneAtLogin(s, rows, row.user, now)
  {
    var all, others := rows[id := row], ActiveOf(rows, row.user, now);
    assert ActiveOf(all, row.user, now) - {id} == others;
    forall other | other in others ensures NewerOnes(all, others, other) == NewerOnes(rows, others, other) {
    }
  }

  lemma NewRowIsActive(s: Settings, user: UserId, publicId: nat, now: Time)
    requires s.Valid()
    ensures NewRow(s, user, publicId, now).Active(now)
    ensures forall t: Time | now <= t < now + s.ttlSeconds * SECOND :: NewRow(s, user, publicId, now).Active(t)
  {
  }

  lemma ActiveAfterLogin(rows: Rows, gone: set<SessionId>, id: SessionId, row: Row, now: Time)
    requires id !in rows && row.Active(now) && gone <= ActiveOf(rows, row.user, now)
    ensures |ActiveOf((rows - gone)[id := row], row.user, now)| == |ActiveOf(rows, row.user, now) - gone| + 1
  {
    var kept := ActiveOf(rows, row.user, now) - gone;
    assert ActiveOf((rows - gone)[id := row], row.user, now) == kept + {id};
    assert id !in kept;
  }

  lemma OneMoreFits(kept: nat, others: nat, cap: nat)
    requires cap >= 1 && kept == Min(cap - 1, others)
    ensures kept + 1 == Min(cap, others + 1)
  {
  }

  lemma LoginRemoves(s: Settings, rows: Rows, id: SessionId, row: Row, now: Time)
    requires s.Valid() && id !in rows
    ensures var gone := GoneAtLogin(s, rows, row.user, now);
            LoginLeaves(s, rows, id, row, now) == (rows - gone)[id := row] && gone <= ActiveOf(rows, row.user, now)
  {
    EvictedFromOthers(s, rows, id, row, now);
  }

  /** A login keeps its own session and removes only the user's oldest active ones. */
  lemma LoginEvictsTheOldest(s: Settings, rows: Rows, id: SessionId, row: Row, now: Time)
    requires s.Valid() && DistinctPublicIds(rows) && CanInsert(rows, id, row.publicId)
    ensures var gone := GoneAtLogin(s, rows, row.user, now);
            && LoginLeaves(s, rows, id, row, now) == (rows - gone)[id := row]
            && gone <= ActiveOf(rows, row.user, now)
            && forall k, g | k in ActiveOf(rows, row.user, now) - gone && g in gone ::
                 rows[k].createdAt > rows[g].createdAt
                 || (rows[k].createdAt == rows[g].createdAt && rows[k].publicId > rows[g].publicId)
  {
    LoginRemoves(s, rows, id, row, now);
    KeptAreLater(rows, ActiveOf(rows, row.user, now), s.maxPerUser - 1);
  }

  /** And it leaves exactly as many active as fit. */
  lemma LoginFillsTheCap(s: Settings, rows: Rows, id: SessionId, row: Row, now: Time)
    requires s.Valid() && DistinctPublicIds(rows) && CanInsert(rows, id, row.publicId) && row.Active(now)
    ensures |ActiveOf(LoginLeaves(s, rows, id, row, now), row.user, now)|
         == Min(s.maxPerUser, |ActiveOf(rows, row.user, now)| + 1)
  {
    var active, gone := ActiveOf(rows, row.user, now), GoneAtLogin(s, rows, row.user, now);
    LoginRemoves(s, rows, id, row, now);
    KeptAtLogin(s, rows, row.user, now);
    ActiveAfterLogin(rows, gone, id, row, now);
    OneMoreFits(|active - gone|, |active|, s.maxPerUser);
  }

  lemma KeptAtLogin(s: Settings, rows: Rows, user: UserId, now: Time)
    requires s.Valid() && DistinctPublicIds(rows)
    ensures |ActiveOf(rows, user, now) - GoneAtLogin(s, rows, user, now)| == Min(s.maxPerUser - 1, |ActiveOf(rows, user, now)|)
  {
    OverflowCount(rows, ActiveOf(rows, user, now), s.maxPerUser - 1, GoneAtLogin(s, rows, user, now));
  }

  lemma OverflowCount(rows: Rows, ids: set<SessionId>, k: nat, gone: set<SessionId>)
    requires ids <= rows.Keys && DistinctPublicIds(rows) && gone == Overflow(rows, ids, k)
    ensures |ids - gone| == Min(k, |ids|)
  {
    KeptCount(rows, ids, k);
  }

  // ---- The code ----------------------------------------------------------------------------------------

  datatype Account = Account(passwordHash: string, active: bool, email: string, emailVerified: bool)

  /** What a login verified before it took the writer lock. */
  datatype Attempt = Attempt(user: UserId, email: string, verifiedHash: string, replacementHash: Option<string>)

  predicate LoginStateUnchanged(accounts: map<UserId, Account>, a: Attempt) {
    && a.user in accounts && accounts[a.user].passwordHash == a.verifiedHash && accounts[a.user].active
    && accounts[a.user].email == a.email && accounts[a.user].emailVerified
  }

  function Upgraded(accounts: map<UserId, Account>, a: Attempt): map<UserId, Account> {
    if a.user in accounts && a.replacementHash.Some?
    then accounts[a.user := accounts[a.user].(passwordHash := a.replacementHash.value)]
    else accounts
  }

  datatype LoginResult = LoggedIn | InvalidCredentials | DuplicateId

  class SessionStore {
    var accounts: map<UserId, Account>
    var rows: Rows
    const settings: Settings

    constructor (settings: Settings, accounts: map<UserId, Account>)
      ensures this.settings == settings && this.accounts == accounts && rows == map[]
    {
      this.settings, this.accounts, this.rows := settings, accounts, map[];
    }

    method LockIfLoginStateUnchanged(a: Attempt) returns (locked: bool)
      modifies `accounts
      ensures locked == LoginStateUnchanged(old(accounts), a)
      ensures accounts == if locked then Upgraded(old(accounts), a) else old(accounts)
      ensures locked <==>
                && a.user in old(accounts) && old(accounts)[a.user].active && old(accounts)[a.user].emailVerified
                && old(accounts)[a.user].passwordHash == a.verifiedHash && old(accounts)[a.user].email == a.email
      ensures locked && a.replacementHash.Some? ==>
                && a.user in accounts && accounts[a.user].passwordHash == a.replacementHash.value
                && accounts == old(accounts)[a.user := Account(accounts[a.user].passwordHash, true, a.email, true)]
      ensures !(locked && a.replacementHash.Some?) ==> accounts == old(accounts)
    {
      locked := LoginStateUnchanged(accounts, a);
      if locked {
        var hash := match a.replacementHash case Some(h) => h case None => accounts[a.user].passwordHash;
        accounts := accounts[a.user := accounts[a.user].(passwordHash := hash)];
        assert a.replacementHash.None? ==> accounts == old(accounts);
      }
    }

    /** The writing half of `login`. A failed insert rolls the hash upgrade back too. */
    method Login(a: Attempt, id: SessionId, publicId: nat, now: Time) returns (result: LoginResult)
      requires settings.Valid()
      modifies this
      ensures result.LoggedIn? <==> LoginStateUnchanged(old(accounts), a) && CanInsert(old(rows), id, publicId)
      ensures result.LoggedIn? ==> rows == LoginLeaves(settings, old(rows), id, NewRow(settings, a.user, publicId, now), now)
      ensures result.LoggedIn? ==> accounts == Upgraded(old(accounts), a)
      ensures !result.LoggedIn? ==> rows == old(rows) && accounts == old(accounts)
      ensures result.LoggedIn? ==>
                && a.user in old(accounts) && old(accounts)[a.user].active && old(accounts)[a.user].emailVerified
                && old(accounts)[a.user].passwordHash == a.verifiedHash && old(accounts)[a.user].email == a.email
      ensures result.LoggedIn? ==> id in rows && rows[id].user == a.user && rows[id].createdAt == now == rows[id].lastSeenAt
      ensures result.InvalidCredentials? <==>
                !(&& a.user in old(accounts) && old(accounts)[a.user].active && old(accounts)[a.user].emailVerified
                  && old(accounts)[a.user].passwordHash == a.verifiedHash && old(accounts)[a.user].email == a.email)
    {
      var before := accounts;
      var locked := LockIfLoginStateUnchanged(a);
      if !locked {
        return InvalidCredentials;
      }
      if !CanInsert(rows, id, publicId) {
        accounts := before;
        return DuplicateId;
      }
      rows := rows[id := NewRow(settings, a.user, publicId, now)];
      rows := rows - Overflow(rows, ActiveOf(rows, a.user, now) - {id}, settings.maxPerUser - 1);
      return LoggedIn;
    }

    /** `load_session`. */
    method LoadSession(id: SessionId, now: Time) returns (found: Option<Row>)
      ensures found == if id in rows && rows[id].Active(now) then Some(rows[id]) else None
      ensures found.Some? ==> found.value.revokedAt.None? && now < found.value.expiresAt && now < found.value.absoluteExpiresAt
    {
      if id !in rows {
        return None;
      }
      var row := rows[id];
      if row.revokedAt.Some? {
        return None;
      }
      if row.expiresAt <= now || row.absoluteExpiresAt <= now {
        return None;
      }
      return Some(row);
    }

    /** `slide_session` on the row loaded earlier in the same transaction. */
    method SlideSession(id: SessionId, session: Row, now: Time) returns (slid: Row, extended: bool)
      requires id in rows && rows[id] == session
      modifies `rows
      ensures slid == Slid(settings, session, now) && extended == (slid.expiresAt > session.expiresAt)
      ensures rows == old(rows)[id := slid]
    {
      var effective := session.expiresAt;
      if session.expiresAt - now <= settings.slideSeconds * SECOND {
        var patch: Time := Min(now + settings.ttlSeconds * SECOND, session.absoluteExpiresAt);
        if patch > effective {
          effective := patch;
        }
      }
      var record := now - session.lastSeenAt >= settings.slideSeconds * SECOND;
      extended := effective > session.expiresAt;
      slid := session;
      if extended || record {
        slid := session.(expiresAt := effective, lastSeenAt := now);
        rows := rows[id := slid];
      }
      assert rows == old(rows)[id := slid];
    }

    /** `logout`. */
    method Logout(id: SessionId, now: Time) returns (revoked: bool)
      modifies `rows
      ensures revoked == (id in old(rows) && old(rows)[id].revokedAt.None?)
      ensures id in rows ==> forall t :: !rows[id].Active(t)
      ensures rows == if revoked then old(rows)[id := old(rows)[id].(revokedAt := Some(now))] else old(rows)
    {
      revoked := id in rows && rows[id].revokedAt.None?;
      if revoked {
        rows := rows[id := rows[id].(revokedAt := Some(now))];
      }
    }

    /** `revoke_user_sessions`. */
    method RevokeUserSessions(user: UserId, excluded: Option<SessionId>, now: Time) returns (count: nat)
      modifies `rows
      ensures count == |RevokedFor(old(rows), user, excluded)|
      ensures rows == Revoked(old(rows), RevokedFor(old(rows), user, excluded), now)
      ensures rows.Keys == old(rows).Keys
      ensures forall id | id in rows ::
                rows[id] == if old(rows)[id].user == user && old(rows)[id].revokedAt == None && Some(id) != excluded
                            then old(rows)[id].(revokedAt := Some(now)) else old(rows)[id]
      ensures forall id, t | id in rows && rows[id].user == user && Some(id) != excluded :: !rows[id].Active(t)
    {
      var ids := RevokedFor(rows, user, excluded);
      count := |ids|;
      rows := Revoked(rows, ids, now);
    }
  }

  function RevokedFor(rows: Rows, user: UserId, excluded: Option<SessionId>): set<SessionId> {
    set id | id in rows && rows[id].user == user && rows[id].revokedAt.None? && Some(id) != excluded
  }

  function Revoked(rows: Rows, ids: set<SessionId>, now: Time): Rows {
    map id | id in rows ::
      if id in ids && rows[id].revokedAt.None? then rows[id].(revokedAt := Some(now)) else rows[id]
  }
}
