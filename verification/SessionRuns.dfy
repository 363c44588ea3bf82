/** Any interleaving of logins, requests, revocations, deletions and cleanup over one session table. */
module SessionRuns {
  import opened Common
  import opened RowOrder
  import opened BrowserSessions

  /** `settled` is the clock when the last writer committed. SQLite refuses to let a transaction
      write after it read a state that has changed since, so a transaction that writes read its
      clock after the last commit. `touched` remembers each session's last accepted request. */
  datatype World = World(clock: Time, settled: Time, rows: Rows, touched: map<SessionId, Time>)

  /** A request loads its session at `seenAt` and slides it at `now`. */
  datatype Action =
    | Tick(elapsed: Time)
    | Login(id: SessionId, user: UserId, publicId: nat, now: Time)
    | Request(id: SessionId, seenAt: Time, now: Time)
    | Revoke(ids: set<SessionId>, now: Time)
    | Delete(ids: set<SessionId>)
    | Cleanup(ids: set<SessionId>, cutoff: Time)

  predicate Accepted(world: World, id: SessionId, seenAt: Time, now: Time) {
    world.settled <= seenAt <= now <= world.clock && id in world.rows && world.rows[id].Active(seenAt)
  }

  function Write(world: World, rows: Rows): World {
    world.(rows := rows, settled := if rows == world.rows then world.settled else world.clock)
  }

  function Touch(world: World, id: SessionId, now: Time): World {
    world.(touched := world.touched[id := if id in world.touched then Max(world.touched[id], now) else now])
  }

  /** A step that is not enabled, or whose transaction aborts, changes nothing. */
  function Step(s: Settings, world: World, a: Action): World
    requires s.Valid()
  {
    match a
    case Tick(d) => world.(clock := world.clock + d)
    case Login(id, user, publicId, now) =>
      if world.settled <= now <= world.clock && CanInsert(world.rows, id, publicId)
      then Write(world, LoginLeaves(s, world.rows, id, NewRow(s, user, publicId, now), now))
             .(touched := world.touched[id := now])
      else world
    case Request(id, seenAt, now) =>
      if Accepted(world, id, seenAt, now)
      then Touch(Write(world, world.rows[id := Slid(s, world.rows[id], now)]), id, now)
      else world
    case Revoke(ids, now) => Write(world, Revoked(world.rows, ids, now))
    case Delete(ids) => Write(world, world.rows - ids)
    case Cleanup(ids, cutoff) =>
      if cutoff <= world.clock && forall id | id in ids && id in world.rows :: !world.rows[id].Active(cutoff)
      then Write(world, world.rows - ids)
      else world
  }

  function Run(s: Settings, world: World, actions: seq<Action>): World
    requires s.Valid()
    decreases |actions|
  {
    if actions == [] then world else Run(s, Step(s, world, actions[0]), actions[1..])
  }

  const START := World(0, 0, map[], map[])

  // ---- The cap ------------------------------------------------------------------------------------------

  ghost predicate Capped(s: Settings, rows: Rows, since: Time) {
    forall user, t | t >= since :: |ActiveOf(rows, user, t)| <= s.maxPerUser
  }

  /** If whatever is active later was active at some earlier settled time, the cap carries over. */
  lemma CapCarriesOver(s: Settings, rows: Rows, since: Time, after: Rows, user: UserId, t: Time, earlier: Time)
    requires Capped(s, rows, since) && since <= earlier
    requires ActiveOf(after, user, t) <= ActiveOf(rows, user, earlier)
    ensures |ActiveOf(after, user, t)| <= s.maxPerUser
  {
    CountSubset(ActiveOf(after, user, t), ActiveOf(rows, user, earlier));
  }

  /** Rows that were deleted or revoked raise nobody's count. */
  lemma RemovalKeepsCap(s: Settings, rows: Rows, after: Rows, since: Time, later: Time)
    requires Capped(s, rows, since) && since <= later
    requires forall id | id in after :: id in rows && (after[id] == rows[id] || after[id].revokedAt.Some?)
    ensures Capped(s, after, later)
  {
    forall user, t | t >= later ensures |ActiveOf(after, user, t)| <= s.maxPerUser {
      CapCarriesOver(s, rows, since, after, user, t, t);
    }
  }

  /** A request can bring back a session that expired while it ran, but only one that was counted
      when the request began. */
  lemma RequestKeepsCap(s: Settings, world: World, id: SessionId, seenAt: Time, now: Time)
    requires s.Valid() && Capped(s, world.rows, world.settled) && Accepted(world, id, seenAt, now)
    ensures Capped(s, world.rows[id := Slid(s, world.rows[id], now)], world.clock)
  {
    var after := world.rows[id := Slid(s, world.rows[id], now)];
    forall user, t | t >= world.clock ensures |ActiveOf(after, user, t)| <= s.maxPerUser {
      CapCarriesOver(s, world.rows, world.settled, after, user, t, seenAt);
    }
  }

  lemma LoginKeepsCap(s: Settings, world: World, id: SessionId, row: Row, now: Time)
    requires s.Valid() && Capped(s, world.rows, world.settled) && DistinctPublicIds(world.rows)
    requires world.settled <= now <= world.clock && CanInsert(world.rows, id, row.publicId) && row.Active(now)
    ensures Capped(s, LoginLeaves(s, world.rows, id, row, now), world.clock)
  {
    var after := LoginLeaves(s, world.rows, id, row, now);
    LoginEvictsTheOldest(s, world.rows, id, row, now);
    LoginFillsTheCap(s, world.rows, id, row, now);
    forall user, t | t >= world.clock ensures |ActiveOf(after, user, t)| <= s.maxPerUser {
      if user == row.user {
        CountSubset(ActiveOf(after, user, t), ActiveOf(after, user, now));
      } else {
        CapCarriesOver(s, world.rows, world.settled, after, user, t, t);
      }
    }
  }

  // ---- The invariant --------------------------------------------------------------------------------------

  /** Expiry never passes the absolute bound, nor `ttl` after the last accepted request. */
  predicate RowOk(s: Settings, clock: Time, touched: map<SessionId, Time>, id: SessionId, row: Row) {
    && id in touched && touched[id] <= clock
    && row.expiresAt <= touched[id] + s.ttlSeconds * SECOND
    && row.expiresAt <= row.absoluteExpiresAt == row.createdAt + s.absoluteTtlSeconds * SECOND
  }

  ghost predicate Inv(s: Settings, world: World) {
    && world.settled <= world.clock
    && DistinctPublicIds(world.rows)
    && Capped(s, world.rows, world.settled)
    && forall id | id in world.rows :: RowOk(s, world.clock, world.touched, id, world.rows[id])
  }

  lemma RemovalKeepsInv(s: Settings, world: World, rows: Rows)
    requires s.Valid() && Inv(s, world)
    requires forall id | id in rows ::
               id in world.rows && (rows[id] == world.rows[id]
                                    || (rows[id].revokedAt.Some? && rows[id].(revokedAt := None) == world.rows[id].(revokedAt := None)))
    ensures Inv(s, Write(world, rows))
  {
    RemovalKeepsCap(s, world.rows, rows, world.settled, Write(world, rows).settled);
    forall id | id in rows ensures RowOk(s, world.clock, world.touched, id, rows[id]) {
      assert RowOk(s, world.clock, world.touched, id, world.rows[id]);
    }
  }

  lemma NewRowIsOk(s: Settings, clock: Time, touched: map<SessionId, Time>, id: SessionId, user: UserId, publicId: nat, now: Time)
    requires s.Valid() && now <= clock
    ensures RowOk(s, clock, touched[id := now], id, NewRow(s, user, publicId, now))
  {
  }

  lemma LoginKeepsInv(s: Settings, world: World, id: SessionId, user: UserId, publicId: nat, now: Time)
    requires s.Valid() && Inv(s, world)
    ensures Inv(s, Step(s, world, Login(id, user, publicId, now)))
  {
    if world.settled <= now <= world.clock && CanInsert(world.rows, id, publicId) {
      var row := NewRow(s, user, publicId, now);
      var rows, touched := LoginLeaves(s, world.rows, id, row, now), world.touched[id := now];
      NewRowIsActive(s, user, publicId, now);
      NewRowIsOk(s, world.clock, world.touched, id, user, publicId, now);
      LoginKeepsCap(s, world, id, row, now);
      LoginEvictsTheOldest(s, world.rows, id, row, now);
      forall other | other in rows && other != id ensures RowOk(s, world.clock, touched, other, rows[other]) {
        assert RowOk(s, world.clock, world.touched, other, world.rows[other]);
      }
    }
  }

  lemma SlidRowIsOk(s: Settings, clock: Time, touched: map<SessionId, Time>, id: SessionId, row: Row, now: Time)
    requires s.Valid() && now <= clock && RowOk(s, clock, touched, id, row)
    ensures RowOk(s, clock, touched[id := Max(touched[id], now)], id, Slid(s, row, now))
  {
    SlideBounds(s, row, now);
  }

  lemma RequestKeepsInv(s: Settings, world: World, id: SessionId, seenAt: Time, now: Time)
    requires s.Valid() && Inv(s, world)
    ensures Inv(s, Step(s, world, Request(id, seenAt, now)))
  {
    if Accepted(world, id, seenAt, now) {
      assert RowOk(s, world.clock, world.touched, id, world.rows[id]);
      SlidRowIsOk(s, world.clock, world.touched, id, world.rows[id], now);
      SlideBounds(s, world.rows[id], now);
      RequestKeepsCap(s, world, id, seenAt, now);
      var after := Step(s, world, Request(id, seenAt, now));
      forall other | other in after.rows && other != id
        ensures RowOk(s, after.clock, after.touched, other, after.rows[other])
      {
        assert RowOk(s, world.clock, world.touched, other, world.rows[other]);
      }
    }
  }

  lemma StepKeepsInv(s: Settings, world: World, a: Action)
    requires s.Valid() && Inv(s, world)
    ensures Inv(s, Step(s, world, a))
  {
    match a
    case Tick(d) =>
      forall id | id in world.rows ensures RowOk(s, world.clock + d, world.touched, id, world.rows[id]) {
        assert RowOk(s, world.clock, world.touched, id, world.rows[id]);
      }
    case Login(id, user, publicId, now) => LoginKeepsInv(s, world, id, user, publicId, now);
    case Request(id, seenAt, now) => RequestKeepsInv(s, world, id, seenAt, now);
    case Revoke(ids, now) => RemovalKeepsInv(s, world, Revoked(world.rows, ids, now));
    case Delete(ids) => RemovalKeepsInv(s, world, world.rows - ids);
    case Cleanup(ids, cutoff) => RemovalKeepsInv(s, world, world.rows - ids);
  }

  lemma {:induction false} RunKeepsInv(s: Settings, world: World, actions: seq<Action>)
    requires s.Valid() && Inv(s, world)
    ensures Inv(s, Run(s, world, actions))
    decreases |actions|
  {
    if actions != [] {
      StepKeepsInv(s, world, actions[0]);
      RunKeepsInv(s, Step(s, world, actions[0]), actions[1..]);
    }
  }

  // ---- What every run guarantees ------------------------------------------------------------------------------

  /** In every reachable state, now and at every later time, a user has at most the configured
      number of active sessions. */
  lemma SessionCapHolds(s: Settings, actions: seq<Action>, user: UserId, t: Time)
    requires s.Valid() && t >= Run(s, START, actions).clock
    ensures |ActiveOf(Run(s, START, actions).rows, user, t)| <= s.maxPerUser
  {
    StartIsOk(s);
    RunKeepsInv(s, START, actions);
  }

  lemma StartIsOk(s: Settings)
    ensures Inv(s, START)
  {
    forall user, t ensures ActiveOf(START.rows, user, t) == {} {
    }
  }

  /** No session outlives its absolute expiry or `ttl` seconds without an accepted request. */
  lemma IdleSessionsEnd(s: Settings, actions: seq<Action>, id: SessionId, t: Time)
    requires s.Valid() && id in Run(s, START, actions).rows
    ensures var world := Run(s, START, actions);
            var row := world.rows[id];
            && id in world.touched
            && row.expiresAt <= row.absoluteExpiresAt == row.createdAt + s.absoluteTtlSeconds * SECOND
            && row.expiresAt <= world.touched[id] + s.ttlSeconds * SECOND
            && (t >= world.touched[id] + s.ttlSeconds * SECOND || t >= row.createdAt + s.absoluteTtlSeconds * SECOND
                ==> !row.Active(t))
  {
    StartIsOk(s);
    RunKeepsInv(s, START, actions);
    var world := Run(s, START, actions);
    assert RowOk(s, world.clock, world.touched, id, world.rows[id]);
  }

  /** No step decreases expires_at, moves a session's other bounds, or lifts a revocation. */
  lemma StepNeverShortens(s: Settings, world: World, a: Action, id: SessionId)
    requires s.Valid() && Inv(s, world) && id in world.rows && id in Step(s, world, a).rows
    ensures var row, after := world.rows[id], Step(s, world, a).rows[id];
            && row.expiresAt <= after.expiresAt
            && after.(expiresAt := row.expiresAt, lastSeenAt := row.lastSeenAt, revokedAt := row.revokedAt) == row
            && (row.revokedAt.Some? ==> after.revokedAt.Some?)
  {
    assert RowOk(s, world.clock, world.touched, id, world.rows[id]);
    if a.Request? && Accepted(world, a.id, a.seenAt, a.now) {
      SlideBounds(s, world.rows[a.id], a.now);
    }
    if a.Login? && world.settled <= a.now <= world.clock && CanInsert(world.rows, a.id, a.publicId) {
      LoginEvictsTheOldest(s, world.rows, a.id, NewRow(s, a.user, a.publicId, a.now), a.now);
    }
  }

  /** An accepted request in the last `slide` seconds makes the session good for the full `ttl`, up
      to its absolute expiry; a login does so for a new one, which is its user's. */
  lemma VisitBuysFullTtl(s: Settings, world: World, id: SessionId, seenAt: Time, now: Time, t: Time)
    requires s.Valid() && Inv(s, world) && Accepted(world, id, seenAt, now)
    requires world.rows[id].expiresAt <= now + s.slideSeconds * SECOND
    requires now <= t < now + s.ttlSeconds * SECOND && t < world.rows[id].absoluteExpiresAt
    ensures Step(s, world, Request(id, seenAt, now)).rows[id].Active(t)
  {
    assert RowOk(s, world.clock, world.touched, id, world.rows[id]);
    SlideRenews(s, world.rows[id], now);
  }

  lemma LoginBuysFullTtl(s: Settings, world: World, id: SessionId, user: UserId, publicId: nat, now: Time)
    requires s.Valid() && Inv(s, world)
    requires world.settled <= now <= world.clock && CanInsert(world.rows, id, publicId)
    ensures var after := Step(s, world, Login(id, user, publicId, now)).rows;
            && id in after && after[id].user == user && after[id].publicId == publicId
            && after[id].createdAt == now == after[id].lastSeenAt
            && forall t: Time | now <= t < now + s.ttlSeconds * SECOND :: after[id].Active(t)
  {
    LoginEvictsTheOldest(s, world.rows, id, NewRow(s, user, publicId, now), now);
    NewRowIsActive(s, user, publicId, now);
  }

  // ---- Keep-alive -----------------------------------------------------------------------------------------------

  predicate IsVisit(world: World, a: Action, id: SessionId) {
    a.Request? && a.id == id && world.settled <= a.seenAt <= a.now <= world.clock
  }

  /** Whether the step takes the session away on purpose: revoked, deleted, or evicted by a login. */
  predicate TakesAway(s: Settings, world: World, a: Action, id: SessionId)
    requires s.Valid()
  {
    match a
    case Revoke(ids, _) => id in ids
    case Delete(ids) => id in ids
    case Login(newId, user, publicId, now) =>
      world.settled <= now <= world.clock && CanInsert(world.rows, newId, publicId)
      && id in GoneAtLogin(s, world.rows, user, now)
    case _ => false
  }

  /** Nothing takes the session away, the absolute expiry lies ahead, and each visit follows the
      previous one, at `last`, within less than `slide` seconds. */
  predicate KeepsVisiting(s: Settings, world: World, actions: seq<Action>, id: SessionId, absolute: Time, last: Time)
    requires s.Valid()
    decreases |actions|
  {
    && world.clock < Min(last + s.slideSeconds * SECOND, absolute)
    && (actions == [] ||
        (&& !TakesAway(s, world, actions[0], id)
         && KeepsVisiting(s, Step(s, world, actions[0]), actions[1..], id, absolute,
                          if IsVisit(world, actions[0], id) then Max(last, actions[0].now) else last)))
  }

  /** The session is good for `slide` seconds after the last visit, or up to its absolute expiry. */
  predicate Fresh(s: Settings, rows: Rows, id: SessionId, absolute: Time, last: Time) {
    && id in rows && rows[id].revokedAt.None? && rows[id].absoluteExpiresAt == absolute
    && Min(last + s.slideSeconds * SECOND, absolute) <= rows[id].expiresAt <= absolute
  }

  lemma StepKeepsFresh(s: Settings, world: World, a: Action, id: SessionId, absolute: Time, last: Time)
    requires s.Valid() && Fresh(s, world.rows, id, absolute, last) && DistinctPublicIds(world.rows)
    requires world.clock < Min(last + s.slideSeconds * SECOND, absolute) && !TakesAway(s, world, a, id)
    ensures Fresh(s, Step(s, world, a).rows, id, absolute, if IsVisit(world, a, id) then Max(last, a.now) else last)
  {
    if IsVisit(world, a, id) {
      VisitRefreshes(s, world.rows[id], a.now, last);
    }
    if a.Login? && world.settled <= a.now <= world.clock && CanInsert(world.rows, a.id, a.publicId) {
      LoginEvictsTheOldest(s, world.rows, a.id, NewRow(s, a.user, a.publicId, a.now), a.now);
    }
  }

  lemma VisitRefreshes(s: Settings, row: Row, now: Time, last: Time)
    requires s.Valid() && Min(last + s.slideSeconds * SECOND, row.absoluteExpiresAt) <= row.expiresAt <= row.absoluteExpiresAt
    ensures Slid(s, row, now).absoluteExpiresAt == row.absoluteExpiresAt
    ensures Slid(s, row, now).revokedAt == row.revokedAt
    ensures Min(Max(last, now) + s.slideSeconds * SECOND, row.absoluteExpiresAt) <= Slid(s, row, now).expiresAt <= row.absoluteExpiresAt
  {
    SlideBounds(s, row, now);
  }

  /** A session visited often enough is active throughout, whatever else happens to the table. */
  lemma {:induction false} VisitsKeepAlive(s: Settings, world: World, actions: seq<Action>, id: SessionId, absolute: Time, last: Time)
    requires s.Valid() && Inv(s, world) && Fresh(s, world.rows, id, absolute, last)
    requires KeepsVisiting(s, world, actions, id, absolute, last)
    ensures id in Run(s, world, actions).rows && Run(s, world, actions).rows[id].Active(Run(s, world, actions).clock)
    decreases |actions|
  {
    if actions != [] {
      var a := actions[0];
      StepKeepsInv(s, world, a);
      StepKeepsFresh(s, world, a, id, absolute, last);
      VisitsKeepAlive(s, Step(s, world, a), actions[1..], id, absolute,
                      if IsVisit(world, a, id) then Max(last, a.now) else last);
    }
  }

  /** And none of its visits is refused. */
  lemma {:induction false} VisitsAreAccepted(s: Settings, world: World, actions: seq<Action>, id: SessionId, absolute: Time, last: Time, k: nat)
    requires s.Valid() && Inv(s, world) && Fresh(s, world.rows, id, absolute, last)
    requires KeepsVisiting(s, world, actions, id, absolute, last)
    requires k < |actions| && IsVisit(Run(s, world, actions[..k]), actions[k], id)
    ensures Accepted(Run(s, world, actions[..k]), id, actions[k].seenAt, actions[k].now)
    decreases k
  {
    if k > 0 {
      var a := actions[0];
      StepKeepsInv(s, world, a);
      StepKeepsFresh(s, world, a, id, absolute, last);
      assert actions[..k][1..] == actions[1..][..k - 1];
      VisitsAreAccepted(s, Step(s, world, a), actions[1..], id, absolute,
                        if IsVisit(world, a, id) then Max(last, a.now) else last, k - 1);
    }
  }

  /** A new session starts out fresh. */
  lemma LoginStartsFresh(s: Settings, world: World, id: SessionId, user: UserId, publicId: nat, now: Time)
    requires s.Valid() && Inv(s, world)
    requires world.settled <= now <= world.clock && CanInsert(world.rows, id, publicId)
    ensures Fresh(s, Step(s, world, Login(id, user, publicId, now)).rows, id, now + s.absoluteTtlSeconds * SECOND, now)
  {
    LoginEvictsTheOldest(s, world.rows, id, NewRow(s, user, publicId, now), now);
  }
}
