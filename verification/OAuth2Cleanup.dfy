/** app/oauth2/sessions/status.py: when a stored token family still counts. */
module TokenFamilyStatus {
  import opened Common

  datatype Session = Session(clientId: nat, endedAt: Option<Time>)

  datatype TokenState = TokenState(
    accessHash: string, jti: string, accessExpiresAt: Time, refreshHash: Option<string>, refreshExpiresAt: Option<Time>)

  /** SQL's three-valued logic: a comparison with NULL is neither true nor false. */
  datatype Truth = Yes | No | Unknown

  function Holds(b: bool): Truth {
    if b then Yes else No
  }

  function Or(a: Truth, b: Truth): Truth {
    if a.Yes? || b.Yes? then Yes else if a.No? && b.No? then No else Unknown
  }

  function And(a: Truth, b: Truth): Truth {
    if a.No? || b.No? then No else if a.Yes? && b.Yes? then Yes else Unknown
  }

  function SqlGreater(x: Option<Time>, bound: Time): Truth {
    match x case None => Unknown case Some(t) => Holds(t > bound)
  }

  function SqlAtMost(x: Option<Time>, bound: Time): Truth {
    match x case None => Unknown case Some(t) => Holds(t <= bound)
  }

  function EffectiveExpiry(state: TokenState): Time {
    match state.refreshExpiresAt case Some(t) => t case None => state.accessExpiresAt
  }

  predicate FamilyIsCurrent(state: TokenState, session: Session, now: Time) {
    session.endedAt.None? && EffectiveExpiry(state) > now
  }

  function FamilyIsCurrentSql(state: TokenState, session: Session, now: Time): Truth {
    And(Holds(session.endedAt.None?),
        Or(SqlGreater(state.refreshExpiresAt, now),
           And(Holds(state.refreshExpiresAt.None?), SqlGreater(Some(state.accessExpiresAt), now))))
  }

  /** The `WHERE` clause with which the cleanup finds expired token states. */
  function StateExpiredSql(state: TokenState, cutoff: Time): Truth {
    Or(SqlAtMost(state.refreshExpiresAt, cutoff),
       And(Holds(state.refreshExpiresAt.None?), SqlAtMost(Some(state.accessExpiresAt), cutoff)))
  }

  /** The three writings of the rule, two in SQL and one in code, never disagree. */
  lemma StatusRulesAgree(state: TokenState, session: Session, now: Time)
    ensures FamilyIsCurrentSql(state, session, now).Yes? <==> FamilyIsCurrent(state, session, now)
    ensures session.endedAt.None? ==>
              (StateExpiredSql(state, now).Yes? <==> !FamilyIsCurrent(state, session, now))
    ensures StateExpiredSql(state, now).Yes? ==> !FamilyIsCurrentSql(state, session, now).Yes?
  {
  }
}

/** app/oauth2/maintenance.py: bounded cleanup passes and the drain that repeats them. */
module OAuth2Cleanup {
  import opened Common
  import opened RowOrder
  import opened TokenFamilyStatus

  datatype Artifact = Artifact(expiresAt: Time, usedAt: Option<Time>)

  datatype DeviceAuthorization = DeviceAuthorization(expiresAt: Time, usedAt: Option<Time>, deniedAt: Option<Time>)

  /** `oauth2_session` with the two tables that reference it. Token states are keyed by session. */
  datatype Families = Families(states: map<nat, TokenState>, sessions: map<nat, Session>, history: map<string, nat>)
  {
    /** The two foreign keys into `oauth2_session`. */
    predicate Valid() {
      && states.Keys <= sessions.Keys
      && forall h | h in history :: history[h] in sessions
    }
  }

  /** The tables a pass touches. */
  datatype Database = Database(
    codes: map<nat, Artifact>,
    transactions: map<nat, Artifact>,
    devices: map<nat, DeviceAuthorization>,
    families: Families)

  datatype CleanupResult = CleanupResult(codes: nat, transactions: nat, devices: nat, states: nat, sessions: nat)
  {
    function Plus(other: CleanupResult): CleanupResult {
      CleanupResult(codes + other.codes, transactions + other.transactions, devices + other.devices,
                    states + other.states, sessions + other.sessions)
    }

    predicate MayHaveMore(batch: nat) {
      codes == batch || transactions == batch || devices == batch || states == batch || sessions == batch
    }

    function Sum(): nat {
      codes + transactions + devices + states + sessions
    }
  }

  const NOTHING := CleanupResult(0, 0, 0, 0, 0)

  // ---- Which rows a pass may take --------------------------------------------------------

  function TerminalArtifacts(t: map<nat, Artifact>, cutoff: Time): set<nat> {
    set id | id in t && (t[id].expiresAt <= cutoff || t[id].usedAt.Some?)
  }

  function TerminalDevices(t: map<nat, DeviceAuthorization>, cutoff: Time): set<nat> {
    set id | id in t && (t[id].expiresAt <= cutoff || t[id].usedAt.Some? || t[id].deniedAt.Some?)
  }

  function ExpiredStates(t: map<nat, TokenState>, cutoff: Time): set<nat> {
    set id | id in t && StateExpiredSql(t[id], cutoff).Yes?
  }

  function TerminalSessions(sessions: map<nat, Session>, states: map<nat, TokenState>): set<nat> {
    set id | id in sessions && (sessions[id].endedAt.Some? || id !in states)
  }

  // ---- One pass ---------------------------------------------------------------------------

  datatype Limit = Unlimited | AtMost(rows: nat)

  function Select(ids: set<nat>, limit: Limit): (chosen: set<nat>)
    ensures chosen <= ids
    ensures limit.AtMost? ==> |chosen| == Min(limit.rows, |ids|)
  {
    match limit case Unlimited => ids case AtMost(k) => LowestIds(ids, k)
  }

  function StateBatch(f: Families, cutoff: Time, limit: Limit): set<nat> {
    Select(ExpiredStates(f.states, cutoff), limit)
  }

  function WithoutStateBatch(f: Families, cutoff: Time, limit: Limit): map<nat, TokenState> {
    f.states - StateBatch(f, cutoff, limit)
  }

  /** Chosen once the state batch is gone, so it sees the sessions that batch orphaned. */
  function SessionBatch(f: Families, cutoff: Time, limit: Limit): set<nat> {
    Select(TerminalSessions(f.sessions, WithoutStateBatch(f, cutoff, limit)), limit)
  }

  /** Deleting sessions cascades to what is left of their token states and to their history. */
  function FamiliesAfter(f: Families, cutoff: Time, limit: Limit): Families {
    var gone := SessionBatch(f, cutoff, limit);
    Families(WithoutStateBatch(f, cutoff, limit) - gone,
             f.sessions - gone,
             map h | h in f.history && f.history[h] !in gone :: f.history[h])
  }

  /** What one `run_oauth2_cleanup` leaves. `Unlimited` is the pass without its LIMIT clauses. */
  function PassLeaves(db: Database, cutoff: Time, limit: Limit): Database {
    Database(db.codes - Select(TerminalArtifacts(db.codes, cutoff), limit),
             db.transactions - Select(TerminalArtifacts(db.transactions, cutoff), limit),
             db.devices - Select(TerminalDevices(db.devices, cutoff), limit),
             FamiliesAfter(db.families, cutoff, limit))
  }

  function PassReports(db: Database, cutoff: Time, limit: Limit): CleanupResult {
    CleanupResult(|Select(TerminalArtifacts(db.codes, cutoff), limit)|,
                  |Select(TerminalArtifacts(db.transactions, cutoff), limit)|,
                  |Select(TerminalDevices(db.devices, cutoff), limit)|,
                  |StateBatch(db.families, cutoff, limit)|,
                  |SessionBatch(db.families, cutoff, limit)|)
  }

  // ---- What a complete cleanup means, without any pass -------------------------------------

  predicate Kept(f: Families, cutoff: Time, session: nat) {
    && session in f.sessions
    && session in f.states
    && FamilyIsCurrent(f.states[session], f.sessions[session], cutoff)
  }

  function DeadSessions(f: Families, cutoff: Time): set<nat> {
    set id | id in f.sessions && !Kept(f, cutoff, id)
  }

  /** Every session whose family is current, with all that belongs to it. */
  function PurgedFamilies(f: Families, cutoff: Time): Families {
    Families(map id | id in f.states && Kept(f, cutoff, id) :: f.states[id],
             map id | id in f.sessions && Kept(f, cutoff, id) :: f.sessions[id],
             map h | h in f.history && Kept(f, cutoff, f.history[h]) :: f.history[h])
  }

  function LiveArtifacts(t: map<nat, Artifact>, cutoff: Time): map<nat, Artifact> {
    map id | id in t && t[id].expiresAt > cutoff && t[id].usedAt.None? :: t[id]
  }

  function LiveDevices(t: map<nat, DeviceAuthorization>, cutoff: Time): map<nat, DeviceAuthorization> {
    map id | id in t && t[id].expiresAt > cutoff && t[id].usedAt.None? && t[id].deniedAt.None? :: t[id]
  }

  function Purged(db: Database, cutoff: Time): Database {
    Database(LiveArtifacts(db.codes, cutoff), LiveArtifacts(db.transactions, cutoff),
             LiveDevices(db.devices, cutoff), PurgedFamilies(db.families, cutoff))
  }

  /** The rows still to be removed and counted. */
  function Backlog(db: Database, cutoff: Time): CleanupResult {
    CleanupResult(|TerminalArtifacts(db.codes, cutoff)|, |TerminalArtifacts(db.transactions, cutoff)|,
                  |TerminalDevices(db.devices, cutoff)|, |ExpiredStates(db.families.states, cutoff)|,
                  |DeadSessions(db.families, cutoff)|)
  }

  // ---- The batched pass against the complete cleanup ----------------------------------------

  /** If an expired id is still waiting, its batch was full of lower ids; those are visible to
      the second selection too and fill it first. */
  lemma LowerIdsFillTheBatch(expired: set<nat>, visible: set<nat>, batch: nat)
    requires LowestIds(expired, batch) <= visible
    ensures LowestIds(visible, batch) !! expired - LowestIds(expired, batch)
  {
    var taken, chosen := LowestIds(expired, batch), LowestIds(visible, batch);
    forall x | x in chosen && x in expired - taken ensures false {
      assert forall y | y in taken :: y < x;
      assert taken <= chosen;
      assert |taken| < |expired| by {
        CountSubset(taken + {x}, expired);
      }
      CountSubset(taken + {x}, chosen);
    }
  }

  /** No expired token state leaves by cascade before its own batch has counted it. */
  lemma CascadeNeverOvertakes(f: Families, cutoff: Time, limit: Limit)
    requires f.Valid()
    ensures SessionBatch(f, cutoff, limit) !! ExpiredStates(f.states, cutoff) - StateBatch(f, cutoff, limit)
  {
    if limit.AtMost? {
      LowerIdsFillTheBatch(ExpiredStates(f.states, cutoff),
                           TerminalSessions(f.sessions, WithoutStateBatch(f, cutoff, limit)), limit.rows);
    }
  }

  /** A session the pass takes was dead before it; the verdict on every other is unchanged. */
  lemma VerdictsAreStable(f: Families, cutoff: Time, limit: Limit)
    requires f.Valid()
    ensures SessionBatch(f, cutoff, limit) <= DeadSessions(f, cutoff)
    ensures forall id :: Kept(FamiliesAfter(f, cutoff, limit), cutoff, id) <==> Kept(f, cutoff, id)
  {
    forall id | id in f.sessions && id in f.states {
      StatusRulesAgree(f.states[id], f.sessions[id], cutoff);
    }
  }

  /** One pass never changes what a complete cleanup would keep. */
  lemma PassKeepsGoal(db: Database, cutoff: Time, limit: Limit)
    requires db.families.Valid()
    ensures PassLeaves(db, cutoff, limit).families.Valid()
    ensures Purged(PassLeaves(db, cutoff, limit), cutoff) == Purged(db, cutoff)
  {
    ArtifactBatch(db.codes, cutoff, limit);
    ArtifactBatch(db.transactions, cutoff, limit);
    DeviceBatch(db.devices, cutoff, limit);
    FamiliesKeepGoal(db.families, cutoff, limit);
  }

  lemma FamiliesKeepGoal(f: Families, cutoff: Time, limit: Limit)
    requires f.Valid()
    ensures FamiliesAfter(f, cutoff, limit).Valid()
    ensures PurgedFamilies(FamiliesAfter(f, cutoff, limit), cutoff) == PurgedFamilies(f, cutoff)
  {
    VerdictsAreStable(f, cutoff, limit);
    var rest, goal := PurgedFamilies(FamiliesAfter(f, cutoff, limit), cutoff), PurgedFamilies(f, cutoff);
    assert rest.states == goal.states && rest.sessions == goal.sessions && rest.history == goal.history;
  }

  /** Every row a pass reports leaves the backlog, and no other row does. */
  lemma PassPaysBacklog(db: Database, cutoff: Time, limit: Limit)
    requires db.families.Valid()
    ensures PassReports(db, cutoff, limit).Plus(Backlog(PassLeaves(db, cutoff, limit), cutoff)) == Backlog(db, cutoff)
  {
    ArtifactBatch(db.codes, cutoff, limit);
    ArtifactBatch(db.transactions, cutoff, limit);
    DeviceBatch(db.devices, cutoff, limit);
    FamiliesPaid(db.families, cutoff, limit);
  }

  lemma ArtifactBatch(t: map<nat, Artifact>, cutoff: Time, limit: Limit)
    ensures var batch := Select(TerminalArtifacts(t, cutoff), limit);
            && LiveArtifacts(t - batch, cutoff) == LiveArtifacts(t, cutoff)
            && |batch| + |TerminalArtifacts(t - batch, cutoff)| == |TerminalArtifacts(t, cutoff)|
  {
    var batch := Select(TerminalArtifacts(t, cutoff), limit);
    assert TerminalArtifacts(t - batch, cutoff) == TerminalArtifacts(t, cutoff) - batch;
  }

  lemma DeviceBatch(t: map<nat, DeviceAuthorization>, cutoff: Time, limit: Limit)
    ensures var batch := Select(TerminalDevices(t, cutoff), limit);
            && LiveDevices(t - batch, cutoff) == LiveDevices(t, cutoff)
            && |batch| + |TerminalDevices(t - batch, cutoff)| == |TerminalDevices(t, cutoff)|
  {
    var batch := Select(TerminalDevices(t, cutoff), limit);
    assert TerminalDevices(t - batch, cutoff) == TerminalDevices(t, cutoff) - batch;
  }

  /** The token tables' share: what stays expired, and what stays dead. */
  lemma FamiliesPaid(f: Families, cutoff: Time, limit: Limit)
    requires f.Valid()
    ensures |StateBatch(f, cutoff, limit)| + |ExpiredStates(FamiliesAfter(f, cutoff, limit).states, cutoff)|
         == |ExpiredStates(f.states, cutoff)|
    ensures |SessionBatch(f, cutoff, limit)| + |DeadSessions(FamiliesAfter(f, cutoff, limit), cutoff)|
         == |DeadSessions(f, cutoff)|
  {
    CascadeNeverOvertakes(f, cutoff, limit);
    VerdictsAreStable(f, cutoff, limit);
    var after := FamiliesAfter(f, cutoff, limit);
    assert ExpiredStates(after.states, cutoff) == ExpiredStates(f.states, cutoff) - StateBatch(f, cutoff, limit);
    assert DeadSessions(after, cutoff) == DeadSessions(f, cutoff) - SessionBatch(f, cutoff, limit);
  }

  /** A pass that filled no batch has left nothing behind. */
  lemma ShortPassFinishes(db: Database, cutoff: Time, batch: nat)
    requires db.families.Valid()
    requires !PassReports(db, cutoff, AtMost(batch)).MayHaveMore(batch)
    ensures Backlog(PassLeaves(db, cutoff, AtMost(batch)), cutoff) == NOTHING
  {
    PassPaysBacklog(db, cutoff, AtMost(batch));
    var f := db.families;
    UnfilledSelectionIsAll(ExpiredStates(f.states, cutoff), batch);
    AllStatesTakenShowsDead(f, cutoff, AtMost(batch));
  }

  lemma UnfilledSelectionIsAll(ids: set<nat>, batch: nat)
    requires |LowestIds(ids, batch)| != batch
    ensures LowestIds(ids, batch) == ids
  {
    assert |ids - LowestIds(ids, batch)| == 0;
  }

  lemma AllStatesTakenShowsDead(f: Families, cutoff: Time, limit: Limit)
    requires f.Valid() && StateBatch(f, cutoff, limit) == ExpiredStates(f.states, cutoff)
    ensures |DeadSessions(f, cutoff)| <= |TerminalSessions(f.sessions, WithoutStateBatch(f, cutoff, limit))|
  {
    forall id | id in f.sessions && id in f.states {
      StatusRulesAgree(f.states[id], f.sessions[id], cutoff);
    }
    CountSubset(DeadSessions(f, cutoff), TerminalSessions(f.sessions, WithoutStateBatch(f, cutoff, limit)));
  }

  lemma NoTerminalArtifacts(t: map<nat, Artifact>, cutoff: Time)
    requires |TerminalArtifacts(t, cutoff)| == 0
    ensures LiveArtifacts(t, cutoff) == t
  {
    assert forall id | id in t :: id !in TerminalArtifacts(t, cutoff);
  }

  lemma NoTerminalDevices(t: map<nat, DeviceAuthorization>, cutoff: Time)
    requires |TerminalDevices(t, cutoff)| == 0
    ensures LiveDevices(t, cutoff) == t
  {
    assert forall id | id in t :: id !in TerminalDevices(t, cutoff);
  }

  lemma NoDeadSessions(f: Families, cutoff: Time)
    requires f.Valid() && |DeadSessions(f, cutoff)| == 0
    ensures PurgedFamilies(f, cutoff) == f
  {
    assert forall id | id in f.sessions :: id !in DeadSessions(f, cutoff);
    var goal := PurgedFamilies(f, cutoff);
    assert goal.states == f.states && goal.sessions == f.sessions && goal.history == f.history;
  }

  lemma NoBacklogIsPurged(db: Database, cutoff: Time)
    requires db.families.Valid() && Backlog(db, cutoff) == NOTHING
    ensures Purged(db, cutoff) == db
  {
    NoTerminalArtifacts(db.codes, cutoff);
    NoTerminalArtifacts(db.transactions, cutoff);
    NoTerminalDevices(db.devices, cutoff);
    NoDeadSessions(db.families, cutoff);
  }

  /** The pass without limits is the complete cleanup, and reports the whole backlog. */
  lemma UnlimitedPassIsComplete(db: Database, cutoff: Time)
    requires db.families.Valid()
    ensures PassLeaves(db, cutoff, Unlimited) == Purged(db, cutoff)
    ensures PassReports(db, cutoff, Unlimited) == Backlog(db, cutoff)
  {
    PassKeepsGoal(db, cutoff, Unlimited);
    PassPaysBacklog(db, cutoff, Unlimited);
    AllStatesTakenShowsDead(db.families, cutoff, Unlimited);
    NoBacklogIsPurged(PassLeaves(db, cutoff, Unlimited), cutoff);
  }

  /** After a complete cleanup a session exists exactly when its family was current at the
      cutoff; what belongs to it is untouched and nothing is orphaned. */
  lemma CompleteCleanupMeaning(f: Families, cutoff: Time)
    requires f.Valid()
    ensures var clean := PurgedFamilies(f, cutoff);
            && clean.Valid()
            && clean.states.Keys == clean.sessions.Keys
            && (forall id | id in f.sessions ::
                  (id in clean.sessions <==> id in f.states && FamilyIsCurrent(f.states[id], f.sessions[id], cutoff)))
            && (forall id | id in clean.sessions ::
                  id in f.sessions && clean.sessions[id] == f.sessions[id] && clean.states[id] == f.states[id])
            && (forall h | h in f.history :: h in clean.history <==> f.history[h] in clean.sessions)
            && (forall h | h in clean.history :: h in f.history && clean.history[h] == f.history[h])
            && PurgedFamilies(clean, cutoff) == clean
  {
    var clean := PurgedFamilies(f, cutoff);
    var again := PurgedFamilies(clean, cutoff);
    assert again.states == clean.states && again.sessions == clean.sessions && again.history == clean.history;
  }

  /** After a complete cleanup an authorization code and an interaction are left exactly if they are
      unused and unexpired, a device code exactly if it is undenied as well; what is left is untouched. */
  lemma CompleteCleanupOfArtifacts(db: Database, cutoff: Time)
    ensures var clean := Purged(db, cutoff);
            && (forall id :: id in clean.codes <==> id in db.codes && cutoff < db.codes[id].expiresAt && db.codes[id].usedAt == None)
            && (forall id :: id in clean.transactions <==>
                  id in db.transactions && cutoff < db.transactions[id].expiresAt && db.transactions[id].usedAt == None)
            && (forall id :: id in clean.devices <==>
                  && id in db.devices && cutoff < db.devices[id].expiresAt
                  && db.devices[id].usedAt == None && db.devices[id].deniedAt == None)
            && (forall id | id in clean.codes :: clean.codes[id] == db.codes[id])
            && (forall id | id in clean.transactions :: clean.transactions[id] == db.transactions[id])
            && (forall id | id in clean.devices :: clean.devices[id] == db.devices[id])
  {
  }

  // ---- How large one transaction is ----------------------------------------------------------

  lemma RemovedInTwoSteps(all: set<nat>, first: set<nat>, second: set<nat>)
    requires first <= all
    ensures |all - (all - first - second)| == |first| + |second * (all - first)|
    ensures |second * (all - first)| <= |second|
  {
    assert all - (all - first - second) == first + second * (all - first);
    CountSubset(second * (all - first), second);
  }

  /** The token states that leave in one transaction, and those of them that leave by cascade. */
  function StatesLeaving(f: Families, cutoff: Time, limit: Limit): set<nat> {
    f.states.Keys - FamiliesAfter(f, cutoff, limit).states.Keys
  }

  function Cascaded(f: Families, cutoff: Time, limit: Limit): set<nat> {
    SessionBatch(f, cutoff, limit) * WithoutStateBatch(f, cutoff, limit).Keys
  }

  lemma StatesRemoved(f: Families, cutoff: Time, limit: Limit)
    ensures |StatesLeaving(f, cutoff, limit)| == |StateBatch(f, cutoff, limit)| + |Cascaded(f, cutoff, limit)|
    ensures |Cascaded(f, cutoff, limit)| <= |SessionBatch(f, cutoff, limit)|
  {
    var all, taken, gone := f.states.Keys, StateBatch(f, cutoff, limit), SessionBatch(f, cutoff, limit);
    RemovedInTwoSteps(all, taken, gone);
    assert WithoutStateBatch(f, cutoff, limit).Keys == all - taken;
    assert FamiliesAfter(f, cutoff, limit).states.Keys == all - taken - gone;
  }

  lemma BatchesFit(f: Families, cutoff: Time, batch: nat)
    ensures |StateBatch(f, cutoff, AtMost(batch))| <= batch
    ensures |SessionBatch(f, cutoff, AtMost(batch))| <= batch
  {
  }

  lemma CascadedHaveEnded(f: Families, cutoff: Time, limit: Limit)
    ensures forall id | id in Cascaded(f, cutoff, limit) :: id in f.sessions && f.sessions[id].endedAt.Some?
  {
  }

  /** Reported counts respect the batch size. Token states that ended sessions hold would leave as
      well, by cascade and unreported: up to two batches in all. */
  lemma TransactionSize(f: Families, cutoff: Time, batch: nat)
    ensures |StatesLeaving(f, cutoff, AtMost(batch))|
         == |StateBatch(f, cutoff, AtMost(batch))| + |Cascaded(f, cutoff, AtMost(batch))| <= 2 * batch
    ensures forall id | id in Cascaded(f, cutoff, AtMost(batch)) :: id in f.sessions && f.sessions[id].endedAt.Some?
  {
    StatesRemoved(f, cutoff, AtMost(batch));
    BatchesFit(f, cutoff, batch);
    CascadedHaveEnded(f, cutoff, AtMost(batch));
  }

  /** Sessions that have ended, hold no token state, or lose it to this pass. */
  function LeavingSessions(f: Families, cutoff: Time, batch: nat): set<nat> {
    set id | id in f.sessions &&
      (f.sessions[id].endedAt.Some? || id !in f.states || id in LowestIds(ExpiredStates(f.states, cutoff), batch))
  }

  function EndedWithLiveState(f: Families, cutoff: Time): set<nat> {
    set id | id in f.sessions && f.sessions[id].endedAt.Some? && id in f.states && !StateExpiredSql(f.states[id], cutoff).Yes?
  }

  /** The bound of one batch per category holds for token states if and only if the expired batch
      and the ended sessions that still hold a live state, as far as they are among the lowest
      leaving ones, together fit it. */
  lemma BatchBoundHoldsExactlyWhen(f: Families, cutoff: Time, batch: nat)
    requires f.Valid()
    ensures |StatesLeaving(f, cutoff, AtMost(batch))| <= batch <==>
              Min(batch, |ExpiredStates(f.states, cutoff)|)
              + |EndedWithLiveState(f, cutoff) * LowestIds(LeavingSessions(f, cutoff, batch), batch)| <= batch
  {
    StatesRemoved(f, cutoff, AtMost(batch));
    StateBatchSize(f, cutoff, batch);
    CascadedAreEndedWithLiveState(f, cutoff, batch);
  }

  lemma CascadedAreEndedWithLiveState(f: Families, cutoff: Time, batch: nat)
    requires f.Valid()
    ensures Cascaded(f, cutoff, AtMost(batch))
         == EndedWithLiveState(f, cutoff) * LowestIds(LeavingSessions(f, cutoff, batch), batch)
  {
    assert LeavingSessions(f, cutoff, batch) == TerminalSessions(f.sessions, WithoutStateBatch(f, cutoff, AtMost(batch)));
    CascadeNeverOvertakes(f, cutoff, AtMost(batch));
    CascadedHaveEnded(f, cutoff, AtMost(batch));
  }

  lemma StateBatchSize(f: Families, cutoff: Time, batch: nat)
    ensures |StateBatch(f, cutoff, AtMost(batch))| == Min(batch, |ExpiredStates(f.states, cutoff)|)
  {
  }

  /** In particular it holds whenever no ended session has kept its token state, as in every state
      the service reaches: see `TokenFamilyRuns`. */
  lemma BatchBoundWithoutEndedStates(f: Families, cutoff: Time, batch: nat)
    requires forall id | id in f.states && id in f.sessions :: f.sessions[id].endedAt.None?
    ensures |StatesLeaving(f, cutoff, AtMost(batch))| <= batch
  {
    StatesRemoved(f, cutoff, AtMost(batch));
    BatchesFit(f, cutoff, batch);
    CascadedHaveEnded(f, cutoff, AtMost(batch));
    assert Cascaded(f, cutoff, AtMost(batch)) == {};
  }

  lemma EndedBeforeExpired(f: Families, cutoff: Time, ended: nat, expired: nat)
    requires ended < expired && f.states.Keys == f.sessions.Keys == {ended, expired}
    requires ExpiredStates(f.states, cutoff) == {expired} && f.sessions[ended].endedAt.Some?
    ensures |StatesLeaving(f, cutoff, AtMost(1))| == 2
  {
    LowestOne({expired}, expired);
    var left := WithoutStateBatch(f, cutoff, AtMost(1));
    assert left.Keys == {ended};
    assert TerminalSessions(f.sessions, left) == {ended, expired};
    LowestOne({ended, expired}, ended);
    assert FamiliesAfter(f, cutoff, AtMost(1)).states.Keys == {};
    assert f.states.Keys - {} == {ended, expired};
  }

  /** The schema alone does not give the bound: it admits an ended session that kept its token
      state, and that state leaves in the same transaction as another session's expired one. */
  lemma CascadeCanExceedTheBatch() returns (f: Families)
    ensures f.Valid()
    ensures |StatesLeaving(f, 10, AtMost(1))| == 2
  {
    var states := map[1 := TokenState("a", "x", 99, None, None), 2 := TokenState("b", "y", 5, None, None)];
    f := Families(states, map[1 := Session(0, Some(3)), 2 := Session(0, None)], map[]);
    assert ExpiredStates(states, 10) == {2};
    EndedBeforeExpired(f, 10, 1, 2);
  }

  // ---- A drain under way -----------------------------------------------------------------------

  /** `db` is reached from `start` with `total` reported: the goal is unchanged, and reported plus
      remaining is the original backlog. */
  predicate OnTheWay(start: Database, db: Database, total: CleanupResult, cutoff: Time) {
    && db.families.Valid()
    && Purged(db, cutoff) == Purged(start, cutoff)
    && total.Plus(Backlog(db, cutoff)) == Backlog(start, cutoff)
  }

  lemma StaysOnTheWay(start: Database, db: Database, after: Database, total: CleanupResult, r: CleanupResult, cutoff: Time)
    requires OnTheWay(start, db, total, cutoff)
    requires after.families.Valid() && Purged(after, cutoff) == Purged(db, cutoff)
    requires r.Plus(Backlog(after, cutoff)) == Backlog(db, cutoff)
    ensures OnTheWay(start, after, total.Plus(r), cutoff)
    ensures Backlog(after, cutoff).Sum() == Backlog(db, cutoff).Sum() - r.Sum()
  {
    Regroup(total, r, Backlog(after, cutoff));
  }

  lemma Regroup(a: CleanupResult, b: CleanupResult, c: CleanupResult)
    ensures a.Plus(b).Plus(c) == a.Plus(b.Plus(c))
    ensures b.Plus(c).Sum() == b.Sum() + c.Sum()
    ensures NOTHING.Plus(a) == a
  {
  }

  lemma FullBatchCounts(r: CleanupResult, batch: nat)
    requires batch >= 1 && r.MayHaveMore(batch)
    ensures r.Sum() > 0
  {
  }

  lemma SetsOut(start: Database, cutoff: Time)
    requires start.families.Valid()
    ensures OnTheWay(start, start, NOTHING, cutoff)
  {
    Regroup(Backlog(start, cutoff), NOTHING, NOTHING);
  }

  lemma RoundMakesProgress(start: Database, db: Database, total: CleanupResult, cutoff: Time, batch: nat)
    requires OnTheWay(start, db, total, cutoff) && batch >= 1
    ensures var r, after := PassReports(db, cutoff, AtMost(batch)), PassLeaves(db, cutoff, AtMost(batch));
            && OnTheWay(start, after, total.Plus(r), cutoff)
            && (if r.MayHaveMore(batch)
                then Backlog(after, cutoff).Sum() < Backlog(db, cutoff).Sum()
                else Backlog(after, cutoff) == NOTHING)
  {
    var r, after := PassReports(db, cutoff, AtMost(batch)), PassLeaves(db, cutoff, AtMost(batch));
    PassKeepsGoal(db, cutoff, AtMost(batch));
    PassPaysBacklog(db, cutoff, AtMost(batch));
    StaysOnTheWay(start, db, after, total, r, cutoff);
    if r.MayHaveMore(batch) {
      FullBatchCounts(r, batch);
    } else {
      ShortPassFinishes(db, cutoff, batch);
    }
  }

  lemma DrainedEqualsOnePass(start: Database, db: Database, total: CleanupResult, cutoff: Time)
    requires start.families.Valid() && OnTheWay(start, db, total, cutoff) && Backlog(db, cutoff) == NOTHING
    ensures db == PassLeaves(start, cutoff, Unlimited)
    ensures total == PassReports(start, cutoff, Unlimited)
  {
    NoBacklogIsPurged(db, cutoff);
    UnlimitedPassIsComplete(start, cutoff);
  }

  // ---- The code: statements on the tables -----------------------------------------------------

  class OAuth2Store {
    var codes: map<nat, Artifact>
    var transactions: map<nat, Artifact>
    var devices: map<nat, DeviceAuthorization>
    var states: map<nat, TokenState>
    var sessions: map<nat, Session>
    var history: map<string, nat>

    function Contents(): Database
      reads this
    {
      Database(codes, transactions, devices, Families(states, sessions, history))
    }

    /** `run_oauth2_cleanup`: five bounded deletes in one transaction. */
    method RunCleanup(cutoff: Time, batch: nat) returns (result: CleanupResult)
      modifies this
      ensures Contents() == PassLeaves(old(Contents()), cutoff, AtMost(batch))
      ensures result == PassReports(old(Contents()), cutoff, AtMost(batch))
    {
      var codeIds := LowestIds(TerminalArtifacts(codes, cutoff), batch);
      codes := codes - codeIds;
      var transactionIds := LowestIds(TerminalArtifacts(transactions, cutoff), batch);
      transactions := transactions - transactionIds;
      var deviceIds := LowestIds(TerminalDevices(devices, cutoff), batch);
      devices := devices - deviceIds;
      var stateIds := LowestIds(ExpiredStates(states, cutoff), batch);
      states := states - stateIds;
      var sessionIds := LowestIds(TerminalSessions(sessions, states), batch);
      sessions := sessions - sessionIds;
      // ON DELETE CASCADE
      states := states - sessionIds;
      history := map h | h in history && history[h] !in sessionIds :: history[h];
      result := CleanupResult(|codeIds|, |transactionIds|, |deviceIds|, |stateIds|, |sessionIds|);
    }

    /** One turn of the drain's loop: a pass, its result added to the total, and the verdict
        whether another turn is needed. */
    method Round(ghost start: Database, sofar: CleanupResult, cutoff: Time, batch: nat)
      returns (total: CleanupResult, more: bool)
      requires OnTheWay(start, Contents(), sofar, cutoff) && batch >= 1
      modifies this
      ensures OnTheWay(start, Contents(), total, cutoff)
      ensures more ==> Backlog(Contents(), cutoff).Sum() < old(Backlog(Contents(), cutoff).Sum())
      ensures !more ==> Backlog(Contents(), cutoff) == NOTHING
    {
      RoundMakesProgress(start, Contents(), sofar, cutoff, batch);
      var result := RunCleanup(cutoff, batch);
      total := sofar.Plus(result);
      more := result.MayHaveMore(batch);
    }

    /** `drain_oauth2_cleanup`. `stops[i]` is what the stop event shows before round `i`; it stays
        clear after the last one listed. However many rounds ran, removed plus remaining is the
        original backlog; with no stop the drain equals one pass without limits. */
    method Drain(cutoff: Time, batch: nat, stops: seq<bool>) returns (total: CleanupResult)
      requires Contents().families.Valid() && batch >= 1
      modifies this
      ensures OnTheWay(old(Contents()), Contents(), total, cutoff)
      ensures true !in stops ==>
                && Contents() == PassLeaves(old(Contents()), cutoff, Unlimited)
                && total == PassReports(old(Contents()), cutoff, Unlimited)
    {
      ghost var start := Contents();
      SetsOut(start, cutoff);
      total := NOTHING;
      var round, more := 0, true;
      while !(round < |stops| && stops[round]) && more
        invariant OnTheWay(start, Contents(), total, cutoff)
        invariant !more ==> Backlog(Contents(), cutoff) == NOTHING
        decreases more, Backlog(Contents(), cutoff).Sum()
      {
        total, more := Round(start, total, cutoff, batch);
        round := round + 1;
      }
      if !more {
        DrainedEqualsOnePass(start, Contents(), total, cutoff);
      }
    }
  }
}
