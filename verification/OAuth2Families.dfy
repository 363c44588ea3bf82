/** app/oauth2/tokens: the statements that issue, rotate, revoke and end token families. */
module TokenFamilies {
  import opened Common
  import opened TokenFamilyStatus
  import opened OAuth2Cleanup

  /** The expiries `create_issued_tokens` computes: an existing deadline is kept on rotation. */
  function IssuedExpiries(now: Time, accessSeconds: nat, refreshSeconds: nat, withRefresh: bool, deadline: Option<Time>)
    : Option<(Time, Option<Time>)>
  {
    var refresh := if !withRefresh then None
                   else Some(match deadline case Some(d) => d case None => now + refreshSeconds * SECOND);
    var access := if refresh.Some? then Min(now + accessSeconds * SECOND, refresh.value) else now + accessSeconds * SECOND;
    if access - now < SECOND then None else Some((access, refresh))
  }

  predicate AccessWithinRefresh(state: TokenState) {
    state.refreshExpiresAt.Some? ==> state.accessExpiresAt <= state.refreshExpiresAt.value
  }

  /** The access token never outlives the refresh token of its family. */
  lemma IssuedWithinRefresh(now: Time, accessSeconds: nat, refreshSeconds: nat, withRefresh: bool, deadline: Option<Time>,
                            hash: string, jti: string, refreshHash: Option<string>)
    requires IssuedExpiries(now, accessSeconds, refreshSeconds, withRefresh, deadline).Some?
    ensures var (access, refresh) := IssuedExpiries(now, accessSeconds, refreshSeconds, withRefresh, deadline).value;
            AccessWithinRefresh(TokenState(hash, jti, access, refreshHash, refresh)) && access >= now + SECOND
  {
  }

  function WithSession(f: Families, id: nat, client: nat, state: TokenState): Families {
    f.(sessions := f.sessions[id := Session(client, None)], states := f.states[id := state])
  }

  predicate HoldsRefresh(f: Families, id: nat, hash: string) {
    id in f.states && f.states[id].refreshHash == Some(hash)
  }

  /** The update of the token state and the insert into the history, whose key is the hash. */
  predicate CanRotate(f: Families, id: nat, hash: string) {
    HoldsRefresh(f, id, hash) && hash !in f.history
  }

  function Rotated(f: Families, id: nat, hash: string, state: TokenState): Families {
    f.(states := f.states[id := state], history := f.history[hash := id])
  }

  function MarkEnded(s: Session, at: Time): Session {
    if s.endedAt.None? then s.(endedAt := Some(at)) else s
  }

  /** Every way to end sessions ends those that have not ended and deletes the token states of all
      it names. */
  function Ended(f: Families, ids: set<nat>, at: Time): Families {
    f.(sessions := map id | id in f.sessions :: if id in ids then MarkEnded(f.sessions[id], at) else f.sessions[id],
       states := f.states - ids)
  }

  predicate CanReplay(f: Families, hash: string) {
    hash in f.history && f.history[hash] in f.states && f.history[hash] in f.sessions
  }

  predicate CanLapse(f: Families, id: nat, hash: string, at: Time) {
    HoldsRefresh(f, id, hash) && SqlAtMost(f.states[id].refreshExpiresAt, at).Yes?
  }

  function Deleted(f: Families, ids: set<nat>): Families {
    Families(f.states - ids, f.sessions - ids, map h | h in f.history && f.history[h] !in ids :: f.history[h])
  }

  class TokenFamilyStore {
    var states: map<nat, TokenState>
    var sessions: map<nat, Session>
    var history: map<string, nat>

    function Contents(): Families
      reads this
    {
      Families(states, sessions, history)
    }

    /** `issue_new_session`: a session that has not ended, and its token state. The database picks
        the id. */
    method IssueNewSession(id: nat, client: nat, state: TokenState)
      requires id !in sessions
      modifies this
      ensures Contents() == WithSession(old(Contents()), id, client, state)
    {
      sessions := sessions[id := Session(client, None)];
      states := states[id := state];
    }

    /** `rotate_token_state`: one conditional update. */
    method RotateTokenState(id: nat, hash: string, data: TokenState) returns (rotated: bool)
      modifies this`states
      ensures rotated <==> HoldsRefresh(old(Contents()), id, hash)
      ensures states == if rotated then old(states)[id := data] else old(states)
    {
      rotated := id in states && states[id].refreshHash == Some(hash);
      if rotated {
        states := states[id := data];
      }
    }

    /** `_rotate_refresh_family`: the spent hash enters the history in the same transaction, which
        is rolled back if the hash is there already. */
    method RotateRefreshFamily(id: nat, hash: string, data: TokenState) returns (rotated: bool)
      modifies this
      ensures rotated <==> CanRotate(old(Contents()), id, hash)
      ensures Contents() == if rotated then Rotated(old(Contents()), id, hash, data) else old(Contents())
    {
      var before := states;
      rotated := RotateTokenState(id, hash, data);
      if !rotated {
        return;
      }
      if hash in history {
        states := before;
        return false;
      }
      history := history[hash := id];
    }

    method EndSessions(ids: set<nat>, at: Time)
      modifies this
      ensures Contents() == Ended(old(Contents()), ids, at)
      ensures sessions.Keys == old(sessions).Keys && states.Keys == old(states).Keys - ids && history == old(history)
      ensures forall id | id in sessions ::
                && sessions[id].clientId == old(sessions)[id].clientId
                && sessions[id].endedAt == if id in ids && old(sessions)[id].endedAt == None then Some(at) else old(sessions)[id].endedAt
    {
      sessions := map id | id in sessions ::
        if id in ids && sessions[id].endedAt.None? then sessions[id].(endedAt := Some(at)) else sessions[id];
      states := states - ids;
    }

    /** `revoke_reused_refresh_family`. */
    method RevokeReusedRefreshFamily(hash: string, at: Time) returns (revoked: bool)
      modifies this
      ensures revoked <==> CanReplay(old(Contents()), hash)
      ensures Contents() == if revoked then Ended(old(Contents()), {old(history)[hash]}, at) else old(Contents())
      ensures revoked ==> old(history)[hash] !in states && sessions[old(history)[hash]].endedAt.Some?
      ensures forall id | id in old(states) && !(revoked && id == old(history)[hash]) :: id in states && states[id] == old(states)[id]
    {
      if hash in history && history[hash] in states && history[hash] in sessions {
        EndSessions({history[hash]}, at);
        return true;
      }
      return false;
    }

    /** `expire_refresh_family`. */
    method ExpireRefreshFamily(id: nat, hash: string, at: Time) returns (expired: bool)
      modifies this
      ensures expired <==> CanLapse(old(Contents()), id, hash, at)
      ensures expired <==>
                && id in old(states) && old(states)[id].refreshHash == Some(hash)
                && old(states)[id].refreshExpiresAt.Some? && old(states)[id].refreshExpiresAt.value <= at
      ensures Contents() == if expired then Ended(old(Contents()), {id}, at) else old(Contents())
    {
      if id in states && states[id].refreshHash == Some(hash)
         && states[id].refreshExpiresAt.Some? && states[id].refreshExpiresAt.value <= at {
        EndSessions({id}, at);
        return true;
      }
      return false;
    }
  }
}

/** Any interleaving of grants, refreshes, replays, expiries, revocations, deletions and cleanup
    passes over one set of token families. */
module TokenFamilyRuns {
  import opened Common
  import opened TokenFamilyStatus
  import opened OAuth2Cleanup
  import opened TokenFamilies

  datatype Config = Config(accessSeconds: nat, refreshSeconds: nat)

  /** A family is named by the position of its issue in the log, since session ids may be reused. */
  datatype Entry =
    | Issue(id: nat, refresh: Option<string>, deadline: Time)
    | Rotation(id: nat, used: string, replacement: string)
    | Closing(ids: set<nat>)

  type Log = seq<Entry>

  /** What a refresh request loaded before it took the writer lock. */
  datatype Read = Read(id: nat, hash: string, deadline: Time)

  /** `handles` are the refresh hashes handed out so far. */
  datatype World = World(now: Time, f: Families, loaded: set<Read>, handles: set<string>, log: Log)

  datatype Action =
    | Tick(now: Time)
    | Grant(id: nat, client: nat, accessHash: string, jti: string, refreshHash: Option<string>, at: Time)
    | Load(id: nat, hash: string)
    | Refresh(read: Read, accessHash: string, jti: string, replacement: string, at: Time)
    | Replay(hash: string, at: Time)
    | Lapse(id: nat, hash: string, at: Time)
    | End(ids: set<nat>, at: Time)
    | Delete(ids: set<nat>)
    | Clean(cutoff: Time, limit: Limit)

  // ---- What the log says about tokens and families ---------------------------------------------

  /** The family a refresh token belongs to, traced back through its rotations. */
  function FamilyOf(log: Log, hash: string): (family: Option<nat>)
    ensures family.Some? ==> family.value < |log| && log[family.value].Issue?
  {
    if log == [] then None
    else
      var before, e := log[..|log| - 1], log[|log| - 1];
      if e.Issue? && e.refresh == Some(hash) then Some(|before|)
      else if e.Rotation? && e.replacement == hash then FamilyOf(before, e.used)
      else FamilyOf(before, hash)
  }

  function LatestIssue(log: Log, id: nat): (family: Option<nat>)
    ensures family.Some? ==> family.value < |log| && log[family.value].Issue? && log[family.value].id == id
  {
    if log == [] then None
    else
      var before, e := log[..|log| - 1], log[|log| - 1];
      if e.Issue? && e.id == id then Some(|before|) else LatestIssue(before, id)
  }

  predicate IsIssue(log: Log, family: nat) {
    family < |log| && log[family].Issue?
  }

  /** A revocation, a replay or a deletion has named the session since the family was issued. */
  predicate Closed(log: Log, family: nat)
    requires IsIssue(log, family)
  {
    exists j :: family < j < |log| && log[j].Closing? && log[family].id in log[j].ids
  }

  predicate Spent(log: Log, hash: string) {
    exists j :: 0 <= j < |log| && log[j].Rotation? && log[j].used == hash
  }

  lemma AppendFamily(log: Log, e: Entry, hash: string)
    ensures FamilyOf(log + [e], hash)
         == if e.Issue? && e.refresh == Some(hash) then Some(|log|)
            else if e.Rotation? && e.replacement == hash then FamilyOf(log, e.used)
            else FamilyOf(log, hash)
  {
    assert (log + [e])[..|log|] == log;
  }

  lemma AppendIssue(log: Log, e: Entry, id: nat)
    ensures LatestIssue(log + [e], id) == if e.Issue? && e.id == id then Some(|log|) else LatestIssue(log, id)
  {
    assert (log + [e])[..|log|] == log;
  }

  lemma AppendClosed(log: Log, e: Entry, family: nat)
    requires IsIssue(log, family)
    ensures IsIssue(log + [e], family) && (log + [e])[family] == log[family]
    ensures Closed(log + [e], family) <==> Closed(log, family) || (e.Closing? && log[family].id in e.ids)
  {
    var longer := log + [e];
    if j :| family < j < |log| && log[j].Closing? && log[family].id in log[j].ids {
      assert longer[j] == log[j];
    }
    if e.Closing? && log[family].id in e.ids {
      assert longer[|log|] == e;
    }
  }

  lemma AppendSpent(log: Log, e: Entry, hash: string)
    ensures Spent(log + [e], hash) <==> Spent(log, hash) || (e.Rotation? && e.used == hash)
  {
    var longer := log + [e];
    if j :| 0 <= j < |log| && log[j].Rotation? && log[j].used == hash {
      assert longer[j] == log[j];
    }
    if e.Rotation? && e.used == hash {
      assert longer[|log|] == e;
    }
  }

  // ---- One step --------------------------------------------------------------------------------

  function NewHandles(refreshHash: Option<string>): set<string> {
    if refreshHash.Some? then {refreshHash.value} else {}
  }

  predicate Unseen(handles: set<string>, refreshHash: Option<string>) {
    refreshHash.Some? ==> refreshHash.value !in handles
  }

  function GrantStep(c: Config, w: World, a: Action): World
    requires a.Grant?
  {
    var expiries := IssuedExpiries(a.at, c.accessSeconds, c.refreshSeconds, a.refreshHash.Some?, None);
    if a.id in w.f.sessions || a.at > w.now || expiries.None? || !Unseen(w.handles, a.refreshHash) then w
    else
      var (access, refresh) := expiries.value;
      var state := TokenState(a.accessHash, a.jti, access, a.refreshHash, refresh);
      w.(f := WithSession(w.f, a.id, a.client, state), handles := w.handles + NewHandles(a.refreshHash),
         log := w.log + [Issue(a.id, a.refreshHash, EffectiveExpiry(state))])
  }

  function LoadStep(w: World, a: Action): World
    requires a.Load?
  {
    if HoldsRefresh(w.f, a.id, a.hash) && a.id in w.f.sessions && w.f.sessions[a.id].endedAt.None?
       && w.f.states[a.id].refreshExpiresAt.Some?
    then w.(loaded := w.loaded + {Read(a.id, a.hash, w.f.states[a.id].refreshExpiresAt.value)})
    else w
  }

  /** The deadline is the one loaded, the row is tested again by the update. */
  function RefreshStep(c: Config, w: World, a: Action): World
    requires a.Refresh?
  {
    var r := a.read;
    var expiries := IssuedExpiries(a.at, c.accessSeconds, c.refreshSeconds, true, Some(r.deadline));
    if r !in w.loaded || a.at > w.now || expiries.None? || a.replacement in w.handles || !CanRotate(w.f, r.id, r.hash) then w
    else
      var (access, refresh) := expiries.value;
      w.(f := Rotated(w.f, r.id, r.hash, TokenState(a.accessHash, a.jti, access, Some(a.replacement), refresh)),
         handles := w.handles + {a.replacement},
         log := w.log + [Rotation(r.id, r.hash, a.replacement)])
  }

  /** A step that is not enabled changes nothing. */
  function Step(c: Config, w: World, a: Action): World {
    match a
    case Tick(now) => if now < w.now then w else w.(now := now)
    case Grant(_, _, _, _, _, _) => GrantStep(c, w, a)
    case Load(_, _) => LoadStep(w, a)
    case Refresh(_, _, _, _, _) => RefreshStep(c, w, a)
    case Replay(hash, at) =>
      if CanReplay(w.f, hash)
      then w.(f := Ended(w.f, {w.f.history[hash]}, at), log := w.log + [Closing({w.f.history[hash]})])
      else w
    case Lapse(id, hash, at) => if at <= w.now && CanLapse(w.f, id, hash, at) then w.(f := Ended(w.f, {id}, at)) else w
    case End(ids, at) => w.(f := Ended(w.f, ids, at), log := w.log + [Closing(ids)])
    case Delete(ids) => w.(f := Deleted(w.f, ids), log := w.log + [Closing(ids)])
    case Clean(cutoff, limit) => if cutoff <= w.now then w.(f := FamiliesAfter(w.f, cutoff, limit)) else w
  }

  function Run(c: Config, w: World, actions: seq<Action>): World
    decreases |actions|
  {
    if actions == [] then w else Run(c, Step(c, w, actions[0]), actions[1..])
  }

  const START := World(0, Families(map[], map[], map[]), {}, {}, [])

  // ---- The invariant -----------------------------------------------------------------------------

  /** An ended session has no token state: every statement that ends one deletes it too. */
  predicate EndedHoldNoState(f: Families) {
    forall id | id in f.sessions && f.sessions[id].endedAt.Some? :: id !in f.states
  }

  /** Every earlier token of the family is in the history, under the session that is still there. */
  ghost predicate Lineage(log: Log, history: map<string, nat>, id: nat, current: Option<string>) {
    forall hash | FamilyOf(log, hash).Some? && FamilyOf(log, hash) == LatestIssue(log, id) && Some(hash) != current ::
      hash in history && history[hash] == id
  }

  predicate TokenOk(log: Log, family: nat, state: TokenState)
    requires IsIssue(log, family)
  {
    && EffectiveExpiry(state) == log[family].deadline
    && AccessWithinRefresh(state)
    && (state.refreshHash.Some? <==> state.refreshExpiresAt.Some?)
    && (state.refreshHash.Some? ==> FamilyOf(log, state.refreshHash.value) == Some(family) && !Spent(log, state.refreshHash.value))
  }

  predicate RowOk(log: Log, id: nat, state: TokenState) {
    var family := LatestIssue(log, id);
    family.Some? && !Closed(log, family.value) && TokenOk(log, family.value, state)
  }

  predicate HistoryOk(log: Log, hash: string, id: nat) {
    Spent(log, hash) && FamilyOf(log, hash).Some? && FamilyOf(log, hash) == LatestIssue(log, id)
  }

  predicate FamilyLives(w: World, family: nat)
    requires IsIssue(w.log, family)
  {
    w.log[family].id in w.f.states && LatestIssue(w.log, w.log[family].id) == Some(family)
  }

  predicate ReadOk(log: Log, r: Read) {
    var family := FamilyOf(log, r.hash);
    family.Some? && log[family.value].id == r.id && log[family.value].deadline == r.deadline
  }

  predicate RotationOk(log: Log, e: Entry) {
    e.Rotation? ==>
      var family := FamilyOf(log, e.used);
      && family.Some? && log[family.value].id == e.id && !Closed(log, family.value)
      && !Spent(log, e.used)
  }

  predicate LogOk(log: Log) {
    forall j | 0 <= j < |log| :: RotationOk(log[..j], log[j])
  }

  predicate HandleOk(w: World, hash: string) {
    FamilyOf(w.log, hash).Some? || Spent(w.log, hash) ==> hash in w.handles
  }

  ghost predicate Inv(w: World) {
    && w.f.Valid() && EndedHoldNoState(w.f) && LogOk(w.log)
    && (forall id | id in w.f.states :: RowOk(w.log, id, w.f.states[id]))
    && (forall id | id in w.f.states :: Lineage(w.log, w.f.history, id, w.f.states[id].refreshHash))
    && (forall family: nat | IsIssue(w.log, family) && !Closed(w.log, family) && w.log[family].deadline > w.now :: FamilyLives(w, family))
    && (forall hash | hash in w.f.history :: HistoryOk(w.log, hash, w.f.history[hash]))
    && (forall hash :: HandleOk(w, hash))
    && (forall r | r in w.loaded :: ReadOk(w.log, r))
  }

  lemma AppendLogOk(log: Log, e: Entry)
    requires LogOk(log) && RotationOk(log, e)
    ensures LogOk(log + [e])
  {
    var longer := log + [e];
    forall j | 0 <= j < |longer| ensures RotationOk(longer[..j], longer[j]) {
      if j < |log| {
        assert longer[..j] == log[..j] && longer[j] == log[j];
      } else {
        assert longer[..j] == log;
      }
    }
  }

  /** The entry brings only a handle nobody has seen, and a rotation is of an unspent token. */
  predicate Fresh(w: World, e: Entry) {
    && RotationOk(w.log, e)
    && Unseen(w.handles, Introduced(e))
  }

  function Introduced(e: Entry): Option<string> {
    match e
    case Issue(_, refresh, _) => refresh
    case Rotation(_, _, replacement) => Some(replacement)
    case Closing(_) => None
  }

  predicate Touches(e: Entry, id: nat) {
    match e
    case Issue(i, _, _) => i == id
    case Rotation(i, _, _) => i == id
    case Closing(ids) => id in ids
  }

  lemma OthersStayOk(w: World, e: Entry, id: nat)
    requires Inv(w) && Fresh(w, e) && id in w.f.states && !Touches(e, id)
    ensures RowOk(w.log + [e], id, w.f.states[id])
  {
    var state := w.f.states[id];
    assert RowOk(w.log, id, state);
    AppendIssue(w.log, e, id);
    AppendClosed(w.log, e, LatestIssue(w.log, id).value);
    if state.refreshHash.Some? {
      assert HandleOk(w, state.refreshHash.value);
      AppendFamily(w.log, e, state.refreshHash.value);
      AppendSpent(w.log, e, state.refreshHash.value);
    }
  }

  lemma OthersKeepLineage(w: World, e: Entry, id: nat, history: map<string, nat>)
    requires Inv(w) && Fresh(w, e) && id in w.f.states && !Touches(e, id)
    requires forall hash | hash in w.f.history && w.f.history[hash] == id :: hash in history && history[hash] == id
    ensures Lineage(w.log + [e], history, id, w.f.states[id].refreshHash)
  {
    AppendIssue(w.log, e, id);
    assert RowOk(w.log, id, w.f.states[id]) && Lineage(w.log, w.f.history, id, w.f.states[id].refreshHash);
    forall hash | FamilyOf(w.log + [e], hash).Some? && FamilyOf(w.log + [e], hash) == LatestIssue(w.log + [e], id)
                  && Some(hash) != w.f.states[id].refreshHash
      ensures hash in history && history[hash] == id
    {
      AppendFamily(w.log, e, hash);
      assert FamilyOf(w.log, hash) == LatestIssue(w.log, id);
    }
  }

  lemma HandlesStayOk(w: World, e: Entry, after: World)
    requires Inv(w) && Fresh(w, e) && after.log == w.log + [e] && after.handles == w.handles + NewHandles(Introduced(e))
    ensures forall hash :: HandleOk(after, hash)
  {
    forall hash ensures HandleOk(after, hash) {
      assert HandleOk(w, hash);
      AppendFamily(w.log, e, hash);
      AppendSpent(w.log, e, hash);
      if e.Rotation? {
        assert HandleOk(w, e.used);
      }
    }
  }

  lemma ReadsStayOk(w: World, e: Entry)
    requires Inv(w) && Fresh(w, e)
    ensures forall r | r in w.loaded :: ReadOk(w.log + [e], r)
  {
    forall r | r in w.loaded ensures ReadOk(w.log + [e], r) {
      assert ReadOk(w.log, r) && HandleOk(w, r.hash);
      AppendFamily(w.log, e, r.hash);
    }
  }

  lemma LivesStay(w: World, e: Entry, after: World, family: nat)
    requires Inv(w) && after.log == w.log + [e] && after.now == w.now
    requires e.Issue? ==> e.id !in w.f.states && e.id in after.f.states
    requires e.Rotation? ==> e.id in after.f.states
    requires forall id | id in w.f.states && !Touches(e, id) :: id in after.f.states
    requires IsIssue(after.log, family) && !Closed(after.log, family) && after.log[family].deadline > after.now
    ensures FamilyLives(after, family)
  {
    AppendIssue(w.log, e, after.log[family].id);
    if family < |w.log| {
      AppendClosed(w.log, e, family);
      assert FamilyLives(w, family);
    }
  }

  /** What one recorded statement has to do to the tables for everything else to follow. */
  ghost predicate Records(w: World, e: Entry, after: World) {
    && after.log == w.log + [e] && after.now == w.now && after.loaded == w.loaded
    && after.handles == w.handles + NewHandles(Introduced(e))
    && after.f.Valid() && EndedHoldNoState(after.f)
    && (e.Issue? ==> e.id !in w.f.states && e.id in after.f.states)
    && (e.Rotation? ==> e.id in after.f.states)
    && (forall id | !Touches(e, id) :: id in w.f.states <==> id in after.f.states)
    && (forall id | id in w.f.states && !Touches(e, id) :: after.f.states[id] == w.f.states[id])
    && (forall id | id in after.f.states && Touches(e, id) ::
          RowOk(after.log, id, after.f.states[id]) && Lineage(after.log, after.f.history, id, after.f.states[id].refreshHash))
    && (forall hash | hash in w.f.history && w.f.history[hash] in after.f.states ::
          hash in after.f.history && after.f.history[hash] == w.f.history[hash])
    && (forall hash | hash in after.f.history ::
          || (hash in w.f.history && after.f.history[hash] == w.f.history[hash])
          || (e.Rotation? && e.used == hash && after.f.history[hash] == e.id))
  }

  lemma HistoryStaysOk(w: World, e: Entry, after: World, hash: string)
    requires Inv(w) && Fresh(w, e) && Records(w, e, after) && hash in after.f.history
    requires e.Issue? ==> e.id !in w.f.sessions
    requires e.Rotation? ==> FamilyOf(w.log, e.used) == LatestIssue(w.log, e.id)
    ensures HistoryOk(after.log, hash, after.f.history[hash])
  {
    AppendSpent(w.log, e, hash);
    AppendFamily(w.log, e, hash);
    AppendIssue(w.log, e, after.f.history[hash]);
    assert HandleOk(w, hash);
  }

  lemma RecordKeepsInv(w: World, e: Entry, after: World)
    requires Inv(w) && Fresh(w, e) && Records(w, e, after)
    requires e.Issue? ==> e.id !in w.f.sessions
    requires e.Rotation? ==> FamilyOf(w.log, e.used) == LatestIssue(w.log, e.id)
    ensures Inv(after)
  {
    AppendLogOk(w.log, e);
    HandlesStayOk(w, e, after);
    ReadsStayOk(w, e);
    forall id | id in after.f.states
      ensures RowOk(after.log, id, after.f.states[id]) && Lineage(after.log, after.f.history, id, after.f.states[id].refreshHash)
    {
      if !Touches(e, id) {
        OthersStayOk(w, e, id);
        OthersKeepLineage(w, e, id, after.f.history);
      }
    }
    forall family: nat | IsIssue(after.log, family) && !Closed(after.log, family) && after.log[family].deadline > after.now
      ensures FamilyLives(after, family)
    {
      LivesStay(w, e, after, family);
    }
    forall hash | hash in after.f.history ensures HistoryOk(after.log, hash, after.f.history[hash]) {
      HistoryStaysOk(w, e, after, hash);
    }
  }

  // ---- Steps with an entry -----------------------------------------------------------------------

  lemma NewFamilyIsOk(w: World, id: nat, state: TokenState, history: map<string, nat>)
    requires Inv(w) && Unseen(w.handles, state.refreshHash)
    requires AccessWithinRefresh(state) && (state.refreshHash.Some? <==> state.refreshExpiresAt.Some?)
    ensures var log := w.log + [Issue(id, state.refreshHash, EffectiveExpiry(state))];
            RowOk(log, id, state) && Lineage(log, history, id, state.refreshHash)
  {
    var e := Issue(id, state.refreshHash, EffectiveExpiry(state));
    AppendIssue(w.log, e, id);
    if state.refreshHash.Some? {
      AppendFamily(w.log, e, state.refreshHash.value);
      AppendSpent(w.log, e, state.refreshHash.value);
      assert HandleOk(w, state.refreshHash.value);
    }
    forall hash | FamilyOf(w.log + [e], hash) == Some(|w.log|) ensures Some(hash) == state.refreshHash {
      AppendFamily(w.log, e, hash);
    }
  }

  lemma NewFamilyKeepsInv(w: World, id: nat, client: nat, state: TokenState)
    requires Inv(w) && id !in w.f.sessions && Unseen(w.handles, state.refreshHash)
    requires AccessWithinRefresh(state) && (state.refreshHash.Some? <==> state.refreshExpiresAt.Some?)
    ensures Inv(w.(f := WithSession(w.f, id, client, state), handles := w.handles + NewHandles(state.refreshHash),
                   log := w.log + [Issue(id, state.refreshHash, EffectiveExpiry(state))]))
  {
    var e := Issue(id, state.refreshHash, EffectiveExpiry(state));
    NewFamilyIsOk(w, id, state, w.f.history);
    RecordKeepsInv(w, e, w.(f := WithSession(w.f, id, client, state), handles := w.handles + NewHandles(state.refreshHash),
                            log := w.log + [e]));
  }

  lemma GrantKeepsInv(c: Config, w: World, a: Action)
    requires Inv(w) && a.Grant?
    ensures Inv(GrantStep(c, w, a))
  {
    var after := GrantStep(c, w, a);
    if after.log != w.log {
      NewFamilyKeepsInv(w, a.id, a.client, after.f.states[a.id]);
    }
  }

  /** The replacement continues the family; the token it replaces joins the history. */
  lemma RotatedRowIsOk(w: World, e: Entry, state: TokenState)
    requires Inv(w) && e.Rotation? && Fresh(w, e) && HoldsRefresh(w.f, e.id, e.used)
    requires state.refreshHash == Some(e.replacement) && state.refreshExpiresAt == w.f.states[e.id].refreshExpiresAt
    requires AccessWithinRefresh(state)
    ensures RowOk(w.log + [e], e.id, state)
  {
    assert RowOk(w.log, e.id, w.f.states[e.id]);
    AppendIssue(w.log, e, e.id);
    AppendClosed(w.log, e, LatestIssue(w.log, e.id).value);
    AppendFamily(w.log, e, e.replacement);
    AppendSpent(w.log, e, e.replacement);
    assert HandleOk(w, e.replacement) && HandleOk(w, e.used);
  }

  lemma RotatedLineage(w: World, e: Entry)
    requires Inv(w) && e.Rotation? && Fresh(w, e) && HoldsRefresh(w.f, e.id, e.used)
    ensures Lineage(w.log + [e], w.f.history[e.used := e.id], e.id, Some(e.replacement))
  {
    assert RowOk(w.log, e.id, w.f.states[e.id]) && Lineage(w.log, w.f.history, e.id, w.f.states[e.id].refreshHash);
    AppendIssue(w.log, e, e.id);
    forall hash | FamilyOf(w.log + [e], hash).Some? && FamilyOf(w.log + [e], hash) == LatestIssue(w.log + [e], e.id)
                  && hash != e.replacement && hash != e.used
      ensures hash in w.f.history && w.f.history[hash] == e.id
    {
      AppendFamily(w.log, e, hash);
      assert FamilyOf(w.log, hash) == LatestIssue(w.log, e.id);
    }
  }

  lemma RefreshKeepsInv(c: Config, w: World, a: Action)
    requires Inv(w) && a.Refresh?
    ensures Inv(RefreshStep(c, w, a))
  {
    var after := RefreshStep(c, w, a);
    if after.log != w.log {
      var r := a.read;
      var e := after.log[|w.log|];
      assert ReadOk(w.log, r) && RowOk(w.log, r.id, w.f.states[r.id]);
      RotatedRowIsOk(w, e, after.f.states[r.id]);
      RotatedLineage(w, e);
      RecordKeepsInv(w, e, after);
    }
  }

  lemma EndKeepsInv(w: World, ids: set<nat>, at: Time)
    requires Inv(w)
    ensures Inv(w.(f := Ended(w.f, ids, at), log := w.log + [Closing(ids)]))
  {
    RecordKeepsInv(w, Closing(ids), w.(f := Ended(w.f, ids, at), log := w.log + [Closing(ids)]));
  }

  lemma DeleteKeepsInv(w: World, ids: set<nat>)
    requires Inv(w)
    ensures Inv(w.(f := Deleted(w.f, ids), log := w.log + [Closing(ids)]))
  {
    RecordKeepsInv(w, Closing(ids), w.(f := Deleted(w.f, ids), log := w.log + [Closing(ids)]));
  }

  // ---- Steps without an entry --------------------------------------------------------------------

  /** Families may leave unrecorded once they have expired, and time may pass. */
  ghost predicate OnlyExpiredLeave(w: World, after: World) {
    && after == w.(now := after.now, f := after.f) && after.now >= w.now
    && after.f.Valid() && EndedHoldNoState(after.f)
    && after.f.states.Keys <= w.f.states.Keys
    && (forall id | id in after.f.states :: after.f.states[id] == w.f.states[id])
    && (forall id | id in w.f.states && EffectiveExpiry(w.f.states[id]) > after.now :: id in after.f.states)
    && (forall hash | hash in after.f.history :: hash in w.f.history && after.f.history[hash] == w.f.history[hash])
    && (forall hash | hash in w.f.history && w.f.history[hash] in after.f.states ::
          hash in after.f.history && after.f.history[hash] == w.f.history[hash])
  }

  lemma LeavingKeepsInv(w: World, after: World)
    requires Inv(w) && OnlyExpiredLeave(w, after)
    ensures Inv(after)
  {
    forall id | id in after.f.states ensures Lineage(after.log, after.f.history, id, after.f.states[id].refreshHash) {
      assert Lineage(w.log, w.f.history, id, w.f.states[id].refreshHash);
    }
    forall family: nat | IsIssue(after.log, family) && !Closed(after.log, family) && after.log[family].deadline > after.now
      ensures FamilyLives(after, family)
    {
      assert FamilyLives(w, family);
      assert RowOk(w.log, w.log[family].id, w.f.states[w.log[family].id]);
    }
    forall hash ensures HandleOk(after, hash) {
      assert HandleOk(w, hash);
    }
  }

  lemma CleanLeavesOnlyExpired(w: World, cutoff: Time, limit: Limit)
    requires Inv(w) && cutoff <= w.now
    ensures OnlyExpiredLeave(w, w.(f := FamiliesAfter(w.f, cutoff, limit)))
  {
    var f := FamiliesAfter(w.f, cutoff, limit);
    forall id | id in w.f.states && EffectiveExpiry(w.f.states[id]) > w.now ensures id in f.states {
      StatusRulesAgree(w.f.states[id], w.f.sessions[id], cutoff);
    }
  }

  lemma LapseLeavesOnlyExpired(w: World, id: nat, hash: string, at: Time)
    requires Inv(w) && at <= w.now && CanLapse(w.f, id, hash, at)
    ensures OnlyExpiredLeave(w, w.(f := Ended(w.f, {id}, at)))
  {
  }

  lemma LoadKeepsInv(w: World, a: Action)
    requires Inv(w) && a.Load?
    ensures Inv(LoadStep(w, a))
  {
    var after := LoadStep(w, a);
    if after != w {
      assert RowOk(w.log, a.id, w.f.states[a.id]);
      forall hash ensures HandleOk(after, hash) {
        assert HandleOk(w, hash);
      }
      forall family: nat | IsIssue(after.log, family) && !Closed(after.log, family) && after.log[family].deadline > after.now
        ensures FamilyLives(after, family)
      {
        assert FamilyLives(w, family);
      }
    }
  }

  lemma StepKeepsInv(c: Config, w: World, a: Action)
    requires Inv(w)
    ensures Inv(Step(c, w, a))
  {
    match a
    case Tick(now) => LeavingKeepsInv(w, Step(c, w, a));
    case Grant(_, _, _, _, _, _) => GrantKeepsInv(c, w, a);
    case Load(_, _) => LoadKeepsInv(w, a);
    case Refresh(_, _, _, _, _) => RefreshKeepsInv(c, w, a);
    case Replay(hash, at) =>
      if CanReplay(w.f, hash) {
        EndKeepsInv(w, {w.f.history[hash]}, at);
      }
    case Lapse(id, hash, at) =>
      if at <= w.now && CanLapse(w.f, id, hash, at) {
        LapseLeavesOnlyExpired(w, id, hash, at);
        LeavingKeepsInv(w, Step(c, w, a));
      }
    case End(ids, at) => EndKeepsInv(w, ids, at);
    case Delete(ids) => DeleteKeepsInv(w, ids);
    case Clean(cutoff, limit) =>
      if cutoff <= w.now {
        CleanLeavesOnlyExpired(w, cutoff, limit);
        LeavingKeepsInv(w, Step(c, w, a));
      }
  }

  lemma {:induction false} RunKeepsInv(c: Config, w: World, actions: seq<Action>)
    requires Inv(w)
    ensures Inv(Run(c, w, actions))
    decreases |actions|
  {
    if actions != [] {
      StepKeepsInv(c, w, actions[0]);
      RunKeepsInv(c, Step(c, w, actions[0]), actions[1..]);
    }
  }

  lemma StartIsOk()
    ensures Inv(START)
  {
  }

  // ---- What holds over every run -----------------------------------------------------------------

  lemma Reached(c: Config, actions: seq<Action>)
    ensures Inv(Run(c, START, actions))
  {
    StartIsOk();
    RunKeepsInv(c, START, actions);
  }

  lemma NothingCascades(f: Families, cutoff: Time, limit: Limit)
    requires EndedHoldNoState(f)
    ensures Cascaded(f, cutoff, limit) == {}
  {
    CascadedHaveEnded(f, cutoff, limit);
    assert forall id | id in Cascaded(f, cutoff, limit) :: id in f.states;
  }

  lemma OnlyTheBatchLeaves(f: Families, cutoff: Time, limit: Limit)
    requires Cascaded(f, cutoff, limit) == {}
    ensures StatesLeaving(f, cutoff, limit) == StateBatch(f, cutoff, limit)
  {
    var gone := SessionBatch(f, cutoff, limit);
    forall id | id in WithoutStateBatch(f, cutoff, limit) ensures id !in gone {
      assert id in gone ==> id in Cascaded(f, cutoff, limit);
    }
    assert FamiliesAfter(f, cutoff, limit).states.Keys == f.states.Keys - StateBatch(f, cutoff, limit);
  }

  lemma BatchIsExpired(f: Families, cutoff: Time, limit: Limit)
    ensures forall id | id in StateBatch(f, cutoff, limit) :: id in f.states && EffectiveExpiry(f.states[id]) <= cutoff
  {
  }

  /** In every reachable state one cleanup transaction removes at most one batch of token states,
      all of them expired and reported: an ended session has none left to take along. */
  lemma OneBatchPerTransaction(c: Config, actions: seq<Action>, cutoff: Time, batch: nat)
    ensures var f := Run(c, START, actions).f;
            && EndedHoldNoState(f)
            && StatesLeaving(f, cutoff, AtMost(batch)) == StateBatch(f, cutoff, AtMost(batch))
            && |StatesLeaving(f, cutoff, AtMost(batch))| <= batch
            && (forall id | id in StatesLeaving(f, cutoff, AtMost(batch)) :: EffectiveExpiry(f.states[id]) <= cutoff)
  {
    Reached(c, actions);
    var f := Run(c, START, actions).f;
    NothingCascades(f, cutoff, AtMost(batch));
    OnlyTheBatchLeaves(f, cutoff, AtMost(batch));
    BatchesFit(f, cutoff, batch);
    BatchIsExpired(f, cutoff, AtMost(batch));
  }

  /** No statement meets the foreign keys or the check on the refresh columns, no state belongs to
      an ended session, and no access token outlives the refresh token beside it. */
  lemma TokenStatesAreWellFormed(c: Config, actions: seq<Action>, id: nat)
    requires id in Run(c, START, actions).f.states
    ensures var f := Run(c, START, actions).f;
            && id in f.sessions && f.sessions[id].endedAt.None?
            && (f.states[id].refreshHash.Some? <==> f.states[id].refreshExpiresAt.Some?)
            && AccessWithinRefresh(f.states[id])
  {
    Reached(c, actions);
    var w := Run(c, START, actions);
    assert RowOk(w.log, id, w.f.states[id]);
  }

  predicate IsCurrent(w: World, family: nat)
    requires IsIssue(w.log, family)
  {
    var id := w.log[family].id;
    FamilyLives(w, family) && id in w.f.sessions && FamilyIsCurrent(w.f.states[id], w.f.sessions[id], w.now)
  }

  /** Whatever is rotated, replayed, expired and cleaned up: a family is current exactly from its
      issue until its deadline, or until a revocation, a replay or a deletion names its session. */
  lemma CurrentExactlyWhen(c: Config, actions: seq<Action>, family: nat)
    requires IsIssue(Run(c, START, actions).log, family)
    ensures var w := Run(c, START, actions);
            IsCurrent(w, family) <==> !Closed(w.log, family) && w.log[family].deadline > w.now
  {
    Reached(c, actions);
    var w := Run(c, START, actions);
    if FamilyLives(w, family) {
      assert RowOk(w.log, w.log[family].id, w.f.states[w.log[family].id]);
    }
  }

  /** Each refresh token is exchanged at most once. */
  lemma RotatedAtMostOnce(c: Config, actions: seq<Action>, i: nat, j: nat)
    requires i < j < |Run(c, START, actions).log|
    requires Run(c, START, actions).log[i].Rotation? && Run(c, START, actions).log[j].Rotation?
    ensures Run(c, START, actions).log[i].used != Run(c, START, actions).log[j].used
  {
    Reached(c, actions);
    var log := Run(c, START, actions).log;
    assert RotationOk(log[..j], log[j]);
    assert log[..j][i] == log[i];
  }

  /** Of the requests that loaded a token, the first to rotate wins and the others lose, unless the
      family was closed before: the update alone decides. */
  lemma RotationWinsExactlyWhen(c: Config, actions: seq<Action>, r: Read)
    requires r in Run(c, START, actions).loaded && Run(c, START, actions).now < r.deadline
    ensures var w := Run(c, START, actions);
            var family := FamilyOf(w.log, r.hash);
            && family.Some?
            && (CanRotate(w.f, r.id, r.hash) <==> !Closed(w.log, family.value) && !Spent(w.log, r.hash))
  {
    Reached(c, actions);
    var w := Run(c, START, actions);
    assert ReadOk(w.log, r);
    if r.id in w.f.states {
      assert RowOk(w.log, r.id, w.f.states[r.id]) && Lineage(w.log, w.f.history, r.id, w.f.states[r.id].refreshHash);
    }
    assert r.hash in w.f.history ==> HistoryOk(w.log, r.hash, w.f.history[r.hash]);
    if !Closed(w.log, FamilyOf(w.log, r.hash).value) {
      assert FamilyLives(w, FamilyOf(w.log, r.hash).value);
    }
  }

  /** The unique rules on refresh hashes are never met: not by a token state, not by the history. */
  lemma RefreshHashesAreUnique(c: Config, actions: seq<Action>, id: nat, hash: string)
    requires HoldsRefresh(Run(c, START, actions).f, id, hash)
    ensures var f := Run(c, START, actions).f;
            hash !in f.history && forall other | HoldsRefresh(f, other, hash) :: other == id
  {
    Reached(c, actions);
    var w := Run(c, START, actions);
    assert RowOk(w.log, id, w.f.states[id]);
    assert hash in w.f.history ==> HistoryOk(w.log, hash, w.f.history[hash]);
    forall other | HoldsRefresh(w.f, other, hash) ensures other == id {
      assert RowOk(w.log, other, w.f.states[other]);
    }
  }

  /** Presenting a spent token revokes exactly its own family, however many rotations ago it was
      spent, and only while that family has tokens. */
  lemma ReplayRevokesExactlyWhen(c: Config, actions: seq<Action>, hash: string)
    ensures var w := Run(c, START, actions);
            var family := FamilyOf(w.log, hash);
            && (CanReplay(w.f, hash) <==> family.Some? && FamilyLives(w, family.value) && Spent(w.log, hash))
            && (CanReplay(w.f, hash) ==> w.f.history[hash] == w.log[family.value].id)
  {
    Reached(c, actions);
    var w := Run(c, START, actions);
    var family := FamilyOf(w.log, hash);
    assert hash in w.f.history ==> HistoryOk(w.log, hash, w.f.history[hash]);
    if family.Some? && FamilyLives(w, family.value) {
      var id := w.log[family.value].id;
      assert RowOk(w.log, id, w.f.states[id]) && Lineage(w.log, w.f.history, id, w.f.states[id].refreshHash);
    }
  }

  lemma {:induction false} RunExtendsLog(c: Config, w: World, actions: seq<Action>)
    ensures w.log <= Run(c, w, actions).log
    decreases |actions|
  {
    if actions != [] {
      RunExtendsLog(c, Step(c, w, actions[0]), actions[1..]);
    }
  }

  lemma ClosedStays(log: Log, longer: Log, family: nat)
    requires IsIssue(log, family) && log <= longer && Closed(log, family)
    ensures IsIssue(longer, family) && Closed(longer, family)
  {
    var j :| family < j < |log| && log[j].Closing? && log[family].id in log[j].ids;
    assert longer[j] == log[j] && longer[family] == log[family];
  }

  /** A closed family stays closed: whatever happens next, it holds no token state and none of its
      tokens is ever exchanged, not even by a request that loaded it before. */
  lemma NothingRevivesAFamily(c: Config, w: World, actions: seq<Action>, family: nat)
    requires Inv(w) && IsIssue(w.log, family) && Closed(w.log, family)
    ensures var later := Run(c, w, actions);
            && w.log <= later.log && IsIssue(later.log, family) && !FamilyLives(later, family)
            && forall j | |w.log| <= j < |later.log| && later.log[j].Rotation? ::
                 FamilyOf(later.log[..j], later.log[j].used) != Some(family)
  {
    var later := Run(c, w, actions);
    RunKeepsInv(c, w, actions);
    RunExtendsLog(c, w, actions);
    ClosedStays(w.log, later.log, family);
    var id := later.log[family].id;
    assert id in later.f.states ==> RowOk(later.log, id, later.f.states[id]);
    forall j | |w.log| <= j < |later.log| && later.log[j].Rotation?
      ensures FamilyOf(later.log[..j], later.log[j].used) != Some(family)
    {
      assert RotationOk(later.log[..j], later.log[j]);
      ClosedStays(w.log, later.log[..j], family);
    }
  }

  lemma ReplayCloses(c: Config, w: World, hash: string, at: Time)
    requires Inv(w) && CanReplay(w.f, hash)
    ensures var after, family := Step(c, w, Replay(hash, at)), FamilyOf(w.log, hash);
            && family.Some? && FamilyOf(after.log, hash) == family && IsIssue(after.log, family.value) && Closed(after.log, family.value)
  {
    var e := Closing({w.f.history[hash]});
    assert HistoryOk(w.log, hash, w.f.history[hash]);
    AppendFamily(w.log, e, hash);
    AppendClosed(w.log, e, FamilyOf(w.log, hash).value);
  }

  /** Once a spent token has been presented, its family is over for good. */
  lemma ReplayEndsTheFamily(c: Config, actions: seq<Action>, hash: string, at: Time, more: seq<Action>)
    requires CanReplay(Run(c, START, actions).f, hash)
    ensures var w := Step(c, Run(c, START, actions), Replay(hash, at));
            var family, later := FamilyOf(w.log, hash), Run(c, w, more);
            && family.Some? && w.log <= later.log && IsIssue(later.log, family.value) && !FamilyLives(later, family.value)
            && forall j | |w.log| <= j < |later.log| && later.log[j].Rotation? ::
                 FamilyOf(later.log[..j], later.log[j].used) != family
  {
    Reached(c, actions);
    var before := Run(c, START, actions);
    ReplayCloses(c, before, hash, at);
    StepKeepsInv(c, before, Replay(hash, at));
    NothingRevivesAFamily(c, Step(c, before, Replay(hash, at)), more, FamilyOf(before.log, hash).value);
  }

  /** What a grant writes: a session of the client that has not ended, the handles that were made, a
      refresh deadline `refreshSeconds` from the clock reading if there is a refresh token, and an access
      token that lasts `accessSeconds` or until that deadline. */
  lemma GrantedAsComputed(c: Config, w: World, a: Action)
    requires a.Grant?
    ensures var after := Step(c, w, a);
            var deadline := a.at + c.refreshSeconds * SECOND;
            var usual := a.at + c.accessSeconds * SECOND;
            var access := if a.refreshHash == None || usual <= deadline then usual else deadline;
            if && a.id !in w.f.sessions && a.at <= w.now && access >= a.at + SECOND
               && (a.refreshHash.Some? ==> a.refreshHash.value !in w.handles)
            then && a.id in after.f.sessions && after.f.sessions[a.id] == Session(a.client, None)
                 && a.id in after.f.states
                 && after.f.states[a.id] == TokenState(a.accessHash, a.jti, access, a.refreshHash,
                                                       if a.refreshHash == None then None else Some(deadline))
                 && after.log == w.log + [Issue(a.id, a.refreshHash, if a.refreshHash == None then access else deadline)]
            else after == w
  {
  }

  /** What a rotation writes: the new handles under the same deadline, with the access token cut off
      there, and the old refresh hash into the history. */
  lemma RefreshedAsComputed(c: Config, w: World, a: Action)
    requires a.Refresh?
    ensures var after, r := Step(c, w, a), a.read;
            var usual := a.at + c.accessSeconds * SECOND;
            var access := if usual <= r.deadline then usual else r.deadline;
            if && r in w.loaded && a.at <= w.now && a.replacement !in w.handles && access >= a.at + SECOND
               && r.id in w.f.states && w.f.states[r.id].refreshHash == Some(r.hash) && r.hash !in w.f.history
            then && after.f.sessions == w.f.sessions
                 && after.f.states == w.f.states[r.id := TokenState(a.accessHash, a.jti, access, Some(a.replacement), Some(r.deadline))]
                 && after.f.history == w.f.history[r.hash := r.id]
                 && after.log == w.log + [Rotation(r.id, r.hash, a.replacement)]
            else after == w
  {
  }

  /** Rotation never moves a family's deadline, and no access token outlives it. */
  lemma DeadlineNeverMoves(c: Config, w: World, actions: seq<Action>, family: nat)
    requires Inv(w) && IsIssue(w.log, family) && FamilyLives(w, family)
    requires IsIssue(Run(c, w, actions).log, family) && FamilyLives(Run(c, w, actions), family)
    ensures var first, last := w.f.states[w.log[family].id], Run(c, w, actions).f.states[Run(c, w, actions).log[family].id];
            EffectiveExpiry(last) == EffectiveExpiry(first) && last.accessExpiresAt <= EffectiveExpiry(first)
  {
    var later := Run(c, w, actions);
    RunKeepsInv(c, w, actions);
    RunExtendsLog(c, w, actions);
    assert RowOk(w.log, w.log[family].id, w.f.states[w.log[family].id]);
    assert RowOk(later.log, later.log[family].id, later.f.states[later.log[family].id]);
    assert later.log[family] == w.log[family];
  }
}
