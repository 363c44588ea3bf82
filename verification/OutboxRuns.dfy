/** app/notifications/dispatcher.py: any number of dispatchers over one outbox. Each database
    transaction is one step; between two transactions of a worker every other worker may run. */
module OutboxRuns {
  import opened Common
  import opened RowOrder
  import opened OutboxLease

  /** Why a worker gave up on delivering an event. */
  datatype Verdict = MailDisabled | TargetUnavailable | Hopeless

  /** What happened, in commit order. `claim` and `cause` point at earlier entries: the claim acted
      under, and the completed send or the verdict that the outcome reports. */
  datatype Entry =
    | Published(event: EventId, at: Time)
    | Claimed(worker: WorkerId, id: nat, event: EventId)
    | SendCompleted(worker: WorkerId, event: EventId)
    | Judged(worker: WorkerId, event: EventId, verdict: Verdict)
    | Finalized(worker: WorkerId, id: nat, event: EventId, outcome: Outcome, at: Time, claim: nat, cause: nat)
    | Rescheduled(worker: WorkerId, id: nat, event: EventId, claim: nat, at: Time)

  type Log = seq<Entry>

  /** Where a sequential dispatcher stands inside `dispatch_pending_once`. */
  datatype Worker =
    | Idle
    | Holding(id: nat, claim: nat)
    | ToSend(id: nat, claim: nat, event: EventId)
    | ToDiscard(id: nat, claim: nat, disabled: bool, cause: nat)
    | Sent(id: nat, claim: nat, send: nat)
    | Broken(id: nat, claim: nat, permanent: Option<nat>)

  /** `workers` holds the busy ones; every other worker id is idle. */
  datatype World = World(clock: Time, rows: Rows, workers: map<WorkerId, Worker>, log: Log)
  {
    function At(w: WorkerId): Worker {
      if w in workers then workers[w] else Idle
    }
  }

  datatype Reading = Render | Discard(disabled: bool) | Fail(permanent: bool)

  /** `now` is a clock reading taken before the statement reached the single writer. */
  datatype Action =
    | Tick(elapsed: Time)
    | Publish(event: EventId, newId: nat, occurredAt: Time)
    | ClaimNext(worker: WorkerId, now: Time)
    | ReadRow(worker: WorkerId, reading: Reading)
    | Send(worker: WorkerId, error: Option<bool>)
    | Heartbeat(worker: WorkerId, now: Time)
    | Finish(worker: WorkerId, now: Time)
    | FinishFails(worker: WorkerId)
    | Abandon(worker: WorkerId)
    | Cleanup(ids: set<nat>)

  // ---- The log ------------------------------------------------------------------------------

  function LastClaim(log: Log, id: nat): (r: Option<nat>)
    ensures r.Some? ==> r.value < |log| && log[r.value].Claimed? && log[r.value].id == id
    ensures forall k | 0 <= k < |log| && log[k].Claimed? && log[k].id == id :: r.Some? && k <= r.value
  {
    if log == [] then None
    else
      var n := |log| - 1;
      if log[n].Claimed? && log[n].id == id then Some(n) else LastClaim(log[..n], id)
  }

  function LastClaimBy(log: Log, w: WorkerId): (r: Option<nat>)
    ensures r.Some? ==> r.value < |log| && log[r.value].Claimed? && log[r.value].worker == w
    ensures forall k | 0 <= k < |log| && log[k].Claimed? && log[k].worker == w :: r.Some? && k <= r.value
  {
    if log == [] then None
    else
      var n := |log| - 1;
      if log[n].Claimed? && log[n].worker == w then Some(n) else LastClaimBy(log[..n], w)
  }

  function PublishedEvents(log: Log): set<EventId> {
    set k | 0 <= k < |log| && log[k].Published? :: log[k].event
  }

  function FinalizedEvents(log: Log): set<EventId> {
    set k | 0 <= k < |log| && log[k].Finalized? :: log[k].event
  }

  /** What an outcome has to go back to. */
  predicate Explains(outcome: Outcome, e: Entry, w: WorkerId, event: EventId) {
    match outcome
    case Delivered => e == SendCompleted(w, event)
    case DiscardedEmailDisabled => e == Judged(w, event, MailDisabled)
    case DiscardedTargetUnavailable => e == Judged(w, event, TargetUnavailable)
    case FailedPermanent => e == Judged(w, event, Hopeless)
  }

  /** What may be written after `log`: a row is finalized or rescheduled only under the newest
      claim on it, only while its event is unfinished, and with the outcome its worker arrived at
      under that claim. */
  predicate EntryOk(log: Log, e: Entry) {
    match e
    case Published(event, _) => event !in PublishedEvents(log)
    case Finalized(w, id, event, outcome, _, claim, cause) =>
      && event !in FinalizedEvents(log)
      && LastClaim(log, id) == Some(claim) && log[claim] == Claimed(w, id, event)
      && claim < cause < |log| && Explains(outcome, log[cause], w, event)
    case Rescheduled(w, id, event, claim, _) =>
      && event !in FinalizedEvents(log)
      && LastClaim(log, id) == Some(claim) && log[claim] == Claimed(w, id, event)
    case _ => true
  }

  predicate LogOk(log: Log) {
    forall k | 0 <= k < |log| :: EntryOk(log[..k], log[k])
  }

  lemma AppendClaims(log: Log, e: Entry)
    ensures forall id :: LastClaim(log + [e], id) == if e.Claimed? && e.id == id then Some(|log|) else LastClaim(log, id)
    ensures forall w :: LastClaimBy(log + [e], w) == if e.Claimed? && e.worker == w then Some(|log|) else LastClaimBy(log, w)
  {
    assert (log + [e])[..|log|] == log;
  }

  lemma AppendPublished(log: Log, e: Entry)
    ensures PublishedEvents(log + [e]) == PublishedEvents(log) + if e.Published? then {e.event} else {}
  {
    var longer := log + [e];
    assert longer[|log|] == e;
    forall event | event in PublishedEvents(log) ensures event in PublishedEvents(longer) {
      var k :| 0 <= k < |log| && log[k].Published? && log[k].event == event;
      assert longer[k] == log[k];
    }
  }

  lemma AppendFinalized(log: Log, e: Entry)
    ensures FinalizedEvents(log + [e]) == FinalizedEvents(log) + if e.Finalized? then {e.event} else {}
  {
    var longer := log + [e];
    assert longer[|log|] == e;
    forall event | event in FinalizedEvents(log) ensures event in FinalizedEvents(longer) {
      var k :| 0 <= k < |log| && log[k].Finalized? && log[k].event == event;
      assert longer[k] == log[k];
    }
  }

  lemma AppendOk(log: Log, e: Entry)
    requires LogOk(log) && EntryOk(log, e)
    ensures LogOk(log + [e])
  {
    var longer := log + [e];
    forall k | 0 <= k < |longer| ensures EntryOk(longer[..k], longer[k]) {
      if k < |log| {
        assert longer[..k] == log[..k] && longer[k] == log[k];
      } else {
        assert longer[..k] == log;
      }
    }
  }

  lemma Append(log: Log, e: Entry)
    ensures forall id :: LastClaim(log + [e], id) == if e.Claimed? && e.id == id then Some(|log|) else LastClaim(log, id)
    ensures forall w :: LastClaimBy(log + [e], w) == if e.Claimed? && e.worker == w then Some(|log|) else LastClaimBy(log, w)
    ensures PublishedEvents(log + [e]) == PublishedEvents(log) + if e.Published? then {e.event} else {}
    ensures FinalizedEvents(log + [e]) == FinalizedEvents(log) + if e.Finalized? then {e.event} else {}
    ensures LogOk(log) && EntryOk(log, e) ==> LogOk(log + [e])
  {
    AppendClaims(log, e);
    AppendPublished(log, e);
    AppendFinalized(log, e);
    if LogOk(log) && EntryOk(log, e) {
      AppendOk(log, e);
    }
  }

  // ---- One step -----------------------------------------------------------------------------------

  function Enter(world: World, w: WorkerId, state: Worker): World {
    world.(workers := world.workers[w := state])
  }

  function Free(world: World, w: WorkerId): World {
    world.(workers := world.workers - {w})
  }

  function Record(world: World, e: Entry): World {
    world.(log := world.log + [e])
  }

  /** The dispatcher caught an error; a permanent one is a verdict. */
  function Break(world: World, w: WorkerId, id: nat, claim: nat, event: EventId, permanent: bool): World {
    if permanent then Enter(Record(world, Judged(w, event, Hopeless)), w, Broken(id, claim, Some(|world.log|)))
    else Enter(world, w, Broken(id, claim, None))
  }

  /** `_finalize_claim` run by the worker that claimed at `claim`; a lost lease changes no row. */
  function Finalize(world: World, w: WorkerId, now: Time, outcome: Outcome, cause: nat): World
    requires !world.At(w).Idle?
  {
    var id, claim := world.At(w).id, world.At(w).claim;
    var rows := FinalizeRows(world.rows, id, w, now, outcome, if outcome.FailedPermanent? then Some("") else None);
    if OwnsUnprocessed(world.rows, id, w)
    then Free(Record(world.(rows := rows), Finalized(w, id, world.rows[id].event, outcome, now, claim, cause)), w)
    else Free(world, w)
  }

  function Release(s: Settings, world: World, w: WorkerId, now: Time): World
    requires !world.At(w).Idle?
  {
    var id, claim := world.At(w).id, world.At(w).claim;
    var rows := RescheduleRows(world.rows, id, w, now, s, "");
    if Owns(world.rows, id, w)
    then Free(Record(world.(rows := rows), Rescheduled(w, id, world.rows[id].event, claim, now)), w)
    else Free(world, w)
  }

  /** An action that is not enabled, or whose transaction aborts, changes nothing. */
  function Step(s: Settings, world: World, a: Action): World {
    match a
    case Tick(d) => world.(clock := world.clock + d)
    case Publish(event, id, occurredAt) =>
      if id in world.rows || event in PublishedEvents(world.log) || occurredAt > world.clock then world
      else Record(world.(rows := world.rows[id := Row(event, occurredAt, 0, None, None, None)]), Published(event, occurredAt))
    case ClaimNext(w, now) =>
      var candidates := Candidates(world.rows, now, s.lease);
      if !world.At(w).Idle? || now > world.clock || candidates == {} then world
      else
        var id := Least(candidates);
        var claimed := world.(rows := world.rows[id := world.rows[id].(claim := Some(Claim(now, w)))]);
        Enter(Record(claimed, Claimed(w, id, world.rows[id].event)), w, Holding(id, |world.log|))
    case ReadRow(w, reading) =>
      if !world.At(w).Holding? then world
      else
        var Holding(id, claim) := world.At(w);
        if !OwnsUnprocessed(world.rows, id, w) then Free(world, w)
        else (match reading
          case Render => Enter(world, w, ToSend(id, claim, world.rows[id].event))
          case Discard(disabled) =>
            var e := Judged(w, world.rows[id].event, if disabled then MailDisabled else TargetUnavailable);
            Enter(Record(world, e), w, ToDiscard(id, claim, disabled, |world.log|))
          case Fail(permanent) => Break(world, w, id, claim, world.rows[id].event, permanent))
    case Send(w, error) =>
      if !world.At(w).ToSend? then world
      else
        var ToSend(id, claim, event) := world.At(w);
        (match error
          case None => Enter(Record(world, SendCompleted(w, event)), w, Sent(id, claim, |world.log|))
          case Some(permanent) => Break(world, w, id, claim, event, permanent))
    case Heartbeat(w, now) =>
      // Runs beside the worker; a renewal under way when the delivery attempt ends is awaited, so it
      // may land after a failure but not after the claim is given up. One process's clock never
      // falls behind its own earlier readings.
      var st := world.At(w);
      if st.Idle? || now > world.clock || !OwnsUnprocessed(world.rows, st.id, w)
         || now < world.rows[st.id].claim.value.at
      then world
      else world.(rows := RenewRows(world.rows, st.id, w, now))
    case Finish(w, now) =>
      if now > world.clock then world
      else (match world.At(w)
        case Sent(id, claim, send) => Finalize(world, w, now, Delivered, send)
        case ToDiscard(id, claim, disabled, cause) =>
          Finalize(world, w, now, if disabled then DiscardedEmailDisabled else DiscardedTargetUnavailable, cause)
        case Broken(id, claim, permanent) =>
          if permanent.Some? then Finalize(world, w, now, FailedPermanent, permanent.value) else Release(s, world, w, now)
        case _ => world)
    case FinishFails(w) =>
      // The finalizing transaction raised: the dispatcher handles it as a delivery error.
      (match world.At(w)
        case Sent(id, claim, _) => Enter(world, w, Broken(id, claim, None))
        case ToDiscard(id, claim, _, _) => Enter(world, w, Broken(id, claim, None))
        case _ => world)
    case Abandon(w) => Free(world, w)
    case Cleanup(ids) =>
      if forall id | id in ids && id in world.rows :: world.rows[id].processed.Some?
      then world.(rows := world.rows - ids)
      else world
  }

  function Run(s: Settings, world: World, actions: seq<Action>): World
    decreases |actions|
  {
    if actions == [] then world else Run(s, Step(s, world, actions[0]), actions[1..])
  }

  const START := World(0, map[], map[], [])

  // ---- The invariant --------------------------------------------------------------------------------

  predicate RowOk(s: Settings, clock: Time, log: Log, id: nat, row: Row) {
    && row.event in PublishedEvents(log)
    && (row.processed.Some? <==> row.event in FinalizedEvents(log))
    && (row.processed.Some? ==> row.claim.None?)
    && row.availableAt <= clock + s.retryMax * SECOND
    && (row.claim.Some? ==>
          var c := row.claim.value;
          && row.availableAt <= c.at <= clock
          && LastClaim(log, id).Some? && log[LastClaim(log, id).value] == Claimed(c.owner, id, row.event))
  }

  predicate WorkerOk(log: Log, w: WorkerId, st: Worker) {
    st.Idle? ||
    (&& LastClaimBy(log, w) == Some(st.claim) && log[st.claim].id == st.id
     && (st.ToSend? ==> st.event == log[st.claim].event)
     && (st.Sent? ==> st.claim < st.send < |log| && log[st.send] == SendCompleted(w, log[st.claim].event))
     && (st.ToDiscard? ==>
           st.claim < st.cause < |log|
           && log[st.cause] == Judged(w, log[st.claim].event, if st.disabled then MailDisabled else TargetUnavailable))
     && (st.Broken? && st.permanent.Some? ==>
           st.claim < st.permanent.value < |log| && log[st.permanent.value] == Judged(w, log[st.claim].event, Hopeless)))
  }

  predicate HasRow(rows: Rows, event: EventId) {
    exists id :: id in rows && rows[id].event == event
  }

  predicate DistinctEvents(rows: Rows) {
    forall i, j | i in rows && j in rows && rows[i].event == rows[j].event :: i == j
  }

  predicate Inv(s: Settings, world: World) {
    && LogOk(world.log)
    && FinalizedEvents(world.log) <= PublishedEvents(world.log)
    && (forall id | id in world.rows :: RowOk(s, world.clock, world.log, id, world.rows[id]))
    && DistinctEvents(world.rows)
    && (forall w | w in world.workers :: WorkerOk(world.log, w, world.workers[w]))
    && (forall event | event in PublishedEvents(world.log) - FinalizedEvents(world.log) :: HasRow(world.rows, event))
  }

  /** Owning a row means owning it through the claim the worker is acting under: nobody claimed
      it since, and it still carries the event that was claimed. */
  lemma OwnershipIsCurrent(s: Settings, world: World, w: WorkerId)
    requires Inv(s, world) && !world.At(w).Idle? && Owns(world.rows, world.At(w).id, w)
    ensures var st := world.At(w);
            && LastClaim(world.log, st.id) == Some(st.claim)
            && world.log[st.claim] == Claimed(w, st.id, world.rows[st.id].event)
            && world.rows[st.id].processed.None?
  {
    var st := world.At(w);
    assert WorkerOk(world.log, w, st);
    assert RowOk(s, world.clock, world.log, st.id, world.rows[st.id]);
  }

  // ---- Every step keeps the invariant ------------------------------------------------------------

  lemma RowOkAfter(s: Settings, clock: Time, log: Log, e: Entry, id: nat, row: Row)
    requires RowOk(s, clock, log, id, row)
    requires e.Claimed? ==> e.id != id
    requires e.Finalized? ==> e.event != row.event
    ensures RowOk(s, clock, log + [e], id, row)
  {
    Append(log, e);
  }

  lemma WorkerOkAfter(log: Log, e: Entry, w: WorkerId, st: Worker)
    requires WorkerOk(log, w, st)
    requires e.Claimed? ==> e.worker != w
    ensures WorkerOk(log + [e], w, st)
  {
    Append(log, e);
  }

  /** A step that rewrites one row and records one entry about it. */
  lemma RowStepKeepsInv(s: Settings, world: World, id: nat, row: Row, e: Entry, workers: map<WorkerId, Worker>)
    requires Inv(s, world) && id in world.rows && row.event == world.rows[id].event
    requires EntryOk(world.log, e) && !e.Published?
    requires e.Claimed? ==> e.id == id
    requires e.Finalized? ==> e.event == row.event
    requires RowOk(s, world.clock, world.log + [e], id, row)
    requires forall w | w in workers :: WorkerOk(world.log + [e], w, workers[w])
    ensures Inv(s, World(world.clock, world.rows[id := row], workers, world.log + [e]))
  {
    Append(world.log, e);
    RewrittenRowsOk(s, world, id, row, e, world.rows[id := row]);
    RewrittenStays(world.rows, id, row);
    UnfinishedKeepRows(world, e, world.rows[id := row]);
  }

  lemma RewrittenRowsOk(s: Settings, world: World, id: nat, row: Row, e: Entry, rows: Rows)
    requires Inv(s, world) && id in world.rows && row.event == world.rows[id].event
    requires e.Claimed? ==> e.id == id
    requires e.Finalized? ==> e.event == row.event
    requires RowOk(s, world.clock, world.log + [e], id, row)
    requires rows == world.rows[id := row]
    ensures forall other | other in rows :: RowOk(s, world.clock, world.log + [e], other, rows[other])
  {
    forall other | other in world.rows && other != id
      ensures RowOk(s, world.clock, world.log + [e], other, world.rows[other])
    {
      RowOkAfter(s, world.clock, world.log, e, other, world.rows[other]);
    }
  }

  lemma UnfinishedKeepRows(world: World, e: Entry, rows: Rows)
    requires forall event | event in PublishedEvents(world.log) - FinalizedEvents(world.log) :: HasRow(world.rows, event)
    requires forall event | HasRow(world.rows, event) :: HasRow(rows, event)
    requires !e.Published?
    ensures forall event | event in PublishedEvents(world.log + [e]) - FinalizedEvents(world.log + [e]) :: HasRow(rows, event)
  {
    AppendPublished(world.log, e);
    AppendFinalized(world.log, e);
  }

  lemma RewrittenStays(rows: Rows, id: nat, row: Row)
    requires id in rows && row.event == rows[id].event
    ensures forall event | HasRow(rows, event) :: HasRow(rows[id := row], event)
    ensures DistinctEvents(rows) ==> DistinctEvents(rows[id := row])
  {
    forall event | HasRow(rows, event) ensures HasRow(rows[id := row], event) {
      var k :| k in rows && rows[k].event == event;
      assert k in rows[id := row] && rows[id := row][k].event == event;
    }
  }

  lemma OthersOkAfter(s: Settings, world: World, w: WorkerId, e: Entry)
    requires Inv(s, world) && (e.Claimed? ==> e.worker == w)
    ensures forall v | v in world.workers && v != w :: WorkerOk(world.log + [e], v, world.workers[v])
  {
    forall v | v in world.workers && v != w ensures WorkerOk(world.log + [e], v, world.workers[v]) {
      WorkerOkAfter(world.log, e, v, world.workers[v]);
    }
  }

  lemma FinalizeKeepsInv(s: Settings, world: World, w: WorkerId, now: Time, outcome: Outcome, cause: nat)
    requires Inv(s, world) && !world.At(w).Idle?
    requires world.At(w).claim < cause < |world.log|
    requires Explains(outcome, world.log[cause], w, world.log[world.At(w).claim].event)
    ensures Inv(s, Finalize(world, w, now, outcome, cause))
  {
    var id, claim := world.At(w).id, world.At(w).claim;
    if OwnsUnprocessed(world.rows, id, w) {
      OwnershipIsCurrent(s, world, w);
      var e := Finalized(w, id, world.rows[id].event, outcome, now, claim, cause);
      assert RowOk(s, world.clock, world.log, id, world.rows[id]);
      assert WorkerOk(world.log, w, world.At(w));
      Append(world.log, e);
      OthersOkAfter(s, world, w, e);
      RowStepKeepsInv(s, world, id, Finalize(world, w, now, outcome, cause).rows[id], e, world.workers - {w});
    }
  }

  lemma ReleaseKeepsInv(s: Settings, world: World, w: WorkerId, now: Time)
    requires Inv(s, world) && !world.At(w).Idle? && now <= world.clock
    ensures Inv(s, Release(s, world, w, now))
  {
    var id, claim := world.At(w).id, world.At(w).claim;
    if Owns(world.rows, id, w) {
      OwnershipIsCurrent(s, world, w);
      var e := Rescheduled(w, id, world.rows[id].event, claim, now);
      assert RowOk(s, world.clock, world.log, id, world.rows[id]);
      Append(world.log, e);
      OthersOkAfter(s, world, w, e);
      RetryDelayIsCappedDoubling(world.rows[id].attempts + 1, s.retryMax);
      RowStepKeepsInv(s, world, id, Release(s, world, w, now).rows[id], e, world.workers - {w});
    }
  }

  lemma ClaimIsOk(s: Settings, world: World, w: WorkerId, now: Time, id: nat)
    requires id in world.rows && Claimable(world.rows[id], now, s.lease) && now <= world.clock
    requires RowOk(s, world.clock, world.log, id, world.rows[id])
    ensures var row := world.rows[id];
            var log := world.log + [Claimed(w, id, row.event)];
            && RowOk(s, world.clock, log, id, row.(claim := Some(Claim(now, w))))
            && WorkerOk(log, w, Holding(id, |world.log|))
  {
    var e := Claimed(w, id, world.rows[id].event);
    Append(world.log, e);
    assert (world.log + [e])[|world.log|] == e;
  }

  lemma ClaimKeepsInv(s: Settings, world: World, w: WorkerId, now: Time)
    requires Inv(s, world)
    ensures Inv(s, Step(s, world, ClaimNext(w, now)))
  {
    var candidates := Candidates(world.rows, now, s.lease);
    if world.At(w).Idle? && now <= world.clock && candidates != {} {
      var id := Least(candidates);
      var e := Claimed(w, id, world.rows[id].event);
      ClaimIsOk(s, world, w, now, id);
      OthersOkAfter(s, world, w, e);
      var row := world.rows[id].(claim := Some(Claim(now, w)));
      RowStepKeepsInv(s, world, id, row, e, world.workers[w := Holding(id, |world.log|)]);
    }
  }

  lemma RowsOkAfter(s: Settings, world: World, e: Entry)
    requires Inv(s, world) && !e.Claimed? && !e.Finalized?
    ensures forall id | id in world.rows :: RowOk(s, world.clock, world.log + [e], id, world.rows[id])
    ensures forall w | w in world.workers :: WorkerOk(world.log + [e], w, world.workers[w])
  {
    forall id | id in world.rows ensures RowOk(s, world.clock, world.log + [e], id, world.rows[id]) {
      RowOkAfter(s, world.clock, world.log, e, id, world.rows[id]);
    }
    forall w | w in world.workers ensures WorkerOk(world.log + [e], w, world.workers[w]) {
      WorkerOkAfter(world.log, e, w, world.workers[w]);
    }
  }

  lemma PublishedRowIsOk(s: Settings, world: World, row: Row)
    requires FinalizedEvents(world.log) <= PublishedEvents(world.log) && row.event !in PublishedEvents(world.log)
    requires row.processed.None? && row.claim.None? && row.availableAt <= world.clock
    ensures forall id :: RowOk(s, world.clock, world.log + [Published(row.event, row.availableAt)], id, row)
  {
    AppendPublished(world.log, Published(row.event, row.availableAt));
    AppendFinalized(world.log, Published(row.event, row.availableAt));
  }

  lemma PublishKeepsInv(s: Settings, world: World, event: EventId, newId: nat, occurredAt: Time)
    requires Inv(s, world)
    ensures Inv(s, Step(s, world, Publish(event, newId, occurredAt)))
  {
    if !(newId in world.rows || event in PublishedEvents(world.log) || occurredAt > world.clock) {
      var e, row := Published(event, occurredAt), Row(event, occurredAt, 0, None, None, None);
      RowsOkAfter(s, world, e);
      PublishedRowIsOk(s, world, row);
      forall id | id in world.rows ensures world.rows[id].event != event {
        assert RowOk(s, world.clock, world.log, id, world.rows[id]);
      }
      var rows := world.rows[newId := row];
      assert HasRow(rows, event) by {
        assert newId in rows && rows[newId].event == event;
      }
      forall ev | HasRow(world.rows, ev) ensures HasRow(rows, ev) {
        var id :| id in world.rows && world.rows[id].event == ev;
        assert id in rows && rows[id].event == ev;
      }
      Append(world.log, e);
    }
  }

  lemma SentIsOk(log: Log, w: WorkerId, st: Worker)
    requires st.ToSend? && WorkerOk(log, w, st)
    ensures WorkerOk(log + [SendCompleted(w, st.event)], w, Sent(st.id, st.claim, |log|))
  {
    AppendClaims(log, SendCompleted(w, st.event));
  }

  /** A step that changes no row and records a completed send or a verdict. */
  lemma EntryKeepsInv(s: Settings, world: World, e: Entry, workers: map<WorkerId, Worker>)
    requires Inv(s, world) && (e.SendCompleted? || e.Judged?)
    requires forall w | w in workers ::
               (w in world.workers && workers[w] == world.workers[w]) || WorkerOk(world.log + [e], w, workers[w])
    ensures Inv(s, World(world.clock, world.rows, workers, world.log + [e]))
  {
    RowsOkAfter(s, world, e);
    Append(world.log, e);
  }

  lemma SendKeepsInv(s: Settings, world: World, w: WorkerId, error: Option<bool>)
    requires Inv(s, world)
    ensures Inv(s, Step(s, world, Send(w, error)))
  {
    if world.At(w).ToSend? {
      assert WorkerOk(world.log, w, world.At(w));
      if error.None? {
        SentIsOk(world.log, w, world.At(w));
        var sent := Sent(world.At(w).id, world.At(w).claim, |world.log|);
        EntryKeepsInv(s, world, SendCompleted(w, world.At(w).event), world.workers[w := sent]);
      } else {
        BreakKeepsInv(s, world, w, world.At(w).event, error.value);
      }
    }
  }

  lemma JudgedIsOk(log: Log, w: WorkerId, st: Worker, event: EventId, verdict: Verdict, next: Worker)
    requires !st.Idle? && WorkerOk(log, w, st) && event == log[st.claim].event
    requires (next == ToDiscard(st.id, st.claim, verdict.MailDisabled?, |log|) && !verdict.Hopeless?)
          || (next == Broken(st.id, st.claim, Some(|log|)) && verdict.Hopeless?)
    ensures WorkerOk(log + [Judged(w, event, verdict)], w, next)
  {
    AppendClaims(log, Judged(w, event, verdict));
  }

  lemma BreakKeepsInv(s: Settings, world: World, w: WorkerId, event: EventId, permanent: bool)
    requires Inv(s, world) && w in world.workers && !world.At(w).Idle? && world.At(w).claim < |world.log|
    requires world.log[world.At(w).claim].Claimed? && event == world.log[world.At(w).claim].event
    ensures Inv(s, Break(world, w, world.At(w).id, world.At(w).claim, event, permanent))
  {
    var st := world.At(w);
    assert WorkerOk(world.log, w, st);
    if permanent {
      var broken := Broken(st.id, st.claim, Some(|world.log|));
      JudgedIsOk(world.log, w, st, event, Hopeless, broken);
      EntryKeepsInv(s, world, Judged(w, event, Hopeless), world.workers[w := broken]);
    }
  }

  lemma ReadKeepsInv(s: Settings, world: World, w: WorkerId, reading: Reading)
    requires Inv(s, world)
    ensures Inv(s, Step(s, world, ReadRow(w, reading)))
  {
    if world.At(w).Holding? && OwnsUnprocessed(world.rows, world.At(w).id, w) {
      var st := world.At(w);
      OwnershipIsCurrent(s, world, w);
      assert WorkerOk(world.log, w, st);
      var event := world.rows[st.id].event;
      match reading
      case Render =>
      case Discard(disabled) =>
        var verdict := if disabled then MailDisabled else TargetUnavailable;
        JudgedIsOk(world.log, w, st, event, verdict, ToDiscard(st.id, st.claim, disabled, |world.log|));
        EntryKeepsInv(s, world, Judged(w, event, verdict), world.workers[w := ToDiscard(st.id, st.claim, disabled, |world.log|)]);
      case Fail(permanent) => BreakKeepsInv(s, world, w, event, permanent);
    }
  }

  lemma HeartbeatKeepsInv(s: Settings, world: World, w: WorkerId, now: Time)
    requires Inv(s, world)
    ensures Inv(s, Step(s, world, Heartbeat(w, now)))
  {
    var after := Step(s, world, Heartbeat(w, now));
    forall id | id in after.rows ensures RowOk(s, after.clock, after.log, id, after.rows[id]) {
      assert RowOk(s, world.clock, world.log, id, world.rows[id]);
    }
    forall ev | HasRow(world.rows, ev) ensures HasRow(after.rows, ev) {
      var id :| id in world.rows && world.rows[id].event == ev;
      assert id in after.rows && after.rows[id].event == ev;
    }
  }

  lemma CleanupKeepsInv(s: Settings, world: World, ids: set<nat>)
    requires Inv(s, world)
    ensures Inv(s, Step(s, world, Cleanup(ids)))
  {
    var after := Step(s, world, Cleanup(ids));
    forall ev | ev in PublishedEvents(after.log) - FinalizedEvents(after.log) ensures HasRow(after.rows, ev) {
      var id :| id in world.rows && world.rows[id].event == ev;
      assert RowOk(s, world.clock, world.log, id, world.rows[id]);
      assert id in after.rows && after.rows[id].event == ev;
    }
  }

  lemma StepKeepsInv(s: Settings, world: World, a: Action)
    requires Inv(s, world)
    ensures Inv(s, Step(s, world, a))
  {
    match a
    case Tick(d) =>
      forall id | id in world.rows
        ensures RowOk(s, Step(s, world, a).clock, world.log, id, world.rows[id])
      {
        assert RowOk(s, world.clock, world.log, id, world.rows[id]);
      }
    case Publish(event, id, occurredAt) => PublishKeepsInv(s, world, event, id, occurredAt);
    case ClaimNext(w, now) => ClaimKeepsInv(s, world, w, now);
    case ReadRow(w, reading) => ReadKeepsInv(s, world, w, reading);
    case Send(w, error) => SendKeepsInv(s, world, w, error);
    case Heartbeat(w, now) => HeartbeatKeepsInv(s, world, w, now);
    case Finish(w, now) => FinishKeepsInv(s, world, w, now);
    case FinishFails(w) => assert w in world.workers ==> WorkerOk(world.log, w, world.workers[w]);
    case Abandon(w) =>
    case Cleanup(ids) => CleanupKeepsInv(s, world, ids);
  }

  lemma FinishKeepsInv(s: Settings, world: World, w: WorkerId, now: Time)
    requires Inv(s, world)
    ensures Inv(s, Step(s, world, Finish(w, now)))
  {
    if now <= world.clock {
      assert w in world.workers ==> WorkerOk(world.log, w, world.workers[w]);
      match world.At(w)
      case Sent(id, claim, send) => FinalizeKeepsInv(s, world, w, now, Delivered, send);
      case ToDiscard(id, claim, disabled, cause) =>
        FinalizeKeepsInv(s, world, w, now, if disabled then DiscardedEmailDisabled else DiscardedTargetUnavailable, cause);
      case Broken(id, claim, permanent) =>
        if permanent.Some? {
          FinalizeKeepsInv(s, world, w, now, FailedPermanent, permanent.value);
        } else {
          ReleaseKeepsInv(s, world, w, now);
        }
      case _ =>
    }
  }

  lemma {:induction false} RunKeepsInv(s: Settings, world: World, actions: seq<Action>)
    requires Inv(s, world)
    ensures Inv(s, Run(s, world, actions))
    decreases |actions|
  {
    if actions != [] {
      StepKeepsInv(s, world, actions[0]);
      RunKeepsInv(s, Step(s, world, actions[0]), actions[1..]);
    }
  }

  // ---- What every run guarantees -----------------------------------------------------------------------

  function LogOf(s: Settings, actions: seq<Action>): Log {
    Run(s, START, actions).log
  }

  lemma ReachableInv(s: Settings, actions: seq<Action>)
    ensures Inv(s, Run(s, START, actions))
  {
    RunKeepsInv(s, START, actions);
  }

  /** An event is finalized at most once, whatever happens to its row id afterwards. */
  lemma FinalizedAtMostOnce(s: Settings, actions: seq<Action>, i: nat, j: nat)
    requires i < j < |LogOf(s, actions)| && LogOf(s, actions)[i].Finalized? && LogOf(s, actions)[j].Finalized?
    ensures LogOf(s, actions)[i].event != LogOf(s, actions)[j].event
  {
    ReachableInv(s, actions);
    var log := LogOf(s, actions);
    assert EntryOk(log[..j], log[j]);
    assert log[..j][i] == log[i];
  }

  /** A finalization that succeeds acts under its worker's own claim: nobody, not even that
      worker, claimed the row in between. Its outcome is what the worker arrived at under that
      claim: a completed send, a reading that found mail disabled or no target, or a permanent error. */
  lemma FinalizeIsExclusive(s: Settings, actions: seq<Action>, f: nat)
    requires f < |LogOf(s, actions)| && LogOf(s, actions)[f].Finalized?
    ensures var log := LogOf(s, actions);
            var Finalized(w, id, event, outcome, _, claim, cause) := log[f];
            && claim < f && log[claim] == Claimed(w, id, event)
            && (forall k | claim < k < f :: !(log[k].Claimed? && log[k].id == id))
            && claim < cause < f
            && (outcome.Delivered? <==> log[cause] == SendCompleted(w, event))
            && (outcome.DiscardedEmailDisabled? <==> log[cause] == Judged(w, event, MailDisabled))
            && (outcome.DiscardedTargetUnavailable? <==> log[cause] == Judged(w, event, TargetUnavailable))
            && (outcome.FailedPermanent? <==> log[cause] == Judged(w, event, Hopeless))
  {
    ReachableInv(s, actions);
    var log := LogOf(s, actions);
    assert EntryOk(log[..f], log[f]);
    forall k | log[f].claim < k < f ensures !(log[k].Claimed? && log[k].id == log[f].id) {
      assert log[..f][k] == log[k];
    }
  }

  // ---- What a processed row says ----------------------------------------------------------------------

  /** The finalization of the row's event that the row reports. */
  predicate Reports(row: Row, e: Entry) {
    e.Finalized? && e.event == row.event && row.processed == Some(Completion(e.at, e.outcome))
  }

  predicate Reported(log: Log, row: Row) {
    exists k :: 0 <= k < |log| && Reports(row, log[k])
  }

  predicate Told(world: World) {
    forall id | id in world.rows && world.rows[id].processed.Some? :: Reported(world.log, world.rows[id])
  }

  lemma ReportedStays(log: Log, longer: Log, row: Row, early: Row)
    requires log <= longer && Reported(log, early) && row.event == early.event && row.processed == early.processed
    ensures Reported(longer, row)
  {
    var k :| 0 <= k < |log| && Reports(early, log[k]);
    assert Reports(row, longer[k]);
  }

  /** A row that is processed after a step was so before, or the step has just finalized it. */
  lemma ProcessedByFinalize(s: Settings, world: World, a: Action, id: nat)
    requires id in Step(s, world, a).rows && Step(s, world, a).rows[id].processed.Some?
    ensures var after := Step(s, world, a);
            && world.log <= after.log
            && ((id in world.rows && world.rows[id].event == after.rows[id].event && world.rows[id].processed == after.rows[id].processed)
                || (|after.log| > |world.log| && Reports(after.rows[id], after.log[|world.log|])))
  {
  }

  lemma StepKeepsTold(s: Settings, world: World, a: Action)
    requires Told(world)
    ensures Told(Step(s, world, a))
  {
    var after := Step(s, world, a);
    forall id | id in after.rows && after.rows[id].processed.Some? ensures Reported(after.log, after.rows[id]) {
      ProcessedByFinalize(s, world, a, id);
      if id in world.rows && world.rows[id].event == after.rows[id].event && world.rows[id].processed == after.rows[id].processed {
        ReportedStays(world.log, after.log, after.rows[id], world.rows[id]);
      }
    }
  }

  lemma {:induction false} RunKeepsTold(s: Settings, world: World, actions: seq<Action>)
    requires Told(world)
    ensures Told(Run(s, world, actions))
    decreases |actions|
  {
    if actions != [] {
      StepKeepsTold(s, world, actions[0]);
      RunKeepsTold(s, Step(s, world, actions[0]), actions[1..]);
    }
  }

  /** Over every run a processed row tells the truth: instant and outcome are those of the one
      finalization of its event, and each outcome has its cause under the finalizer's claim. A row
      that says Delivered has a completed send in the history. */
  lemma ProcessedRowsTellTheTruth(s: Settings, actions: seq<Action>, id: nat) returns (f: nat)
    requires id in Run(s, START, actions).rows && Run(s, START, actions).rows[id].processed.Some?
    ensures f < |LogOf(s, actions)| && LogOf(s, actions)[f].Finalized? && LogOf(s, actions)[f].cause < f
    ensures var row, log := Run(s, START, actions).rows[id], LogOf(s, actions);
            var Finalized(w, _, event, outcome, at, claim, cause) := log[f];
            && event == row.event && row.processed == Some(Completion(at, outcome)) && row.claim.None?
            && claim < cause && log[claim] == Claimed(w, log[f].id, event)
            && (row.processed.value.outcome.Delivered? <==> log[cause] == SendCompleted(w, event))
            && (row.processed.value.outcome.DiscardedEmailDisabled? <==> log[cause] == Judged(w, event, MailDisabled))
            && (row.processed.value.outcome.DiscardedTargetUnavailable? <==> log[cause] == Judged(w, event, TargetUnavailable))
            && (row.processed.value.outcome.FailedPermanent? <==> log[cause] == Judged(w, event, Hopeless))
    ensures forall g | 0 <= g < |LogOf(s, actions)| && LogOf(s, actions)[g].Finalized?
                       && LogOf(s, actions)[g].event == LogOf(s, actions)[f].event :: g == f
  {
    ReachableInv(s, actions);
    RunKeepsTold(s, START, actions);
    var world := Run(s, START, actions);
    assert RowOk(s, world.clock, world.log, id, world.rows[id]);
    f :| 0 <= f < |world.log| && Reports(world.rows[id], world.log[f]);
    FinalizeIsExclusive(s, actions, f);
    forall g | 0 <= g < |world.log| && world.log[g].Finalized? && world.log[g].event == world.log[f].event ensures g == f {
      if g < f {
        FinalizedAtMostOnce(s, actions, g, f);
      } else if f < g {
        FinalizedAtMostOnce(s, actions, f, g);
      }
    }
  }

  /** `_reschedule` does not test `processed_at`, and need not: a processed row has no owner. */
  lemma RescheduleNeverRevives(s: Settings, actions: seq<Action>)
    ensures forall f, r | 0 <= f < r < |LogOf(s, actions)| && LogOf(s, actions)[f].Finalized? && LogOf(s, actions)[r].Rescheduled? ::
              LogOf(s, actions)[f].event != LogOf(s, actions)[r].event
    ensures forall id, w, now, error | id in Run(s, START, actions).rows && Run(s, START, actions).rows[id].processed.Some? ::
              RescheduleRows(Run(s, START, actions).rows, id, w, now, s, error) == Run(s, START, actions).rows
  {
    ReachableInv(s, actions);
    var log, world := LogOf(s, actions), Run(s, START, actions);
    forall f, r | 0 <= f < r < |log| && log[f].Finalized? && log[r].Rescheduled? ensures log[f].event != log[r].event {
      assert EntryOk(log[..r], log[r]);
      assert log[..r][f] == log[f];
    }
    forall id | id in world.rows && world.rows[id].processed.Some? ensures world.rows[id].claim.None? {
      assert RowOk(s, world.clock, log, id, world.rows[id]);
    }
  }

  function Patience(s: Settings): Time {
    Max(s.lease, s.retryMax * SECOND)
  }

  /** No event is lost: in every reachable state each published event is finalized or has a row
      that becomes claimable, and stays so until somebody acts, after at most one lease or one
      maximal back-off. */
  lemma NothingIsLost(s: Settings, actions: seq<Action>, event: EventId)
    requires event in PublishedEvents(LogOf(s, actions))
    ensures var world := Run(s, START, actions);
            || event in FinalizedEvents(world.log)
            || exists id :: id in world.rows && world.rows[id].event == event
                 && forall t | t >= world.clock + Patience(s) :: Claimable(world.rows[id], t, s.lease)
  {
    ReachableInv(s, actions);
    var world := Run(s, START, actions);
    if event !in FinalizedEvents(world.log) {
      assert HasRow(world.rows, event);
      var id :| id in world.rows && world.rows[id].event == event;
      assert RowOk(s, world.clock, world.log, id, world.rows[id]);
      assert forall t | t >= world.clock + Patience(s) :: Claimable(world.rows[id], t, s.lease);
    }
  }

  /** Left alone, an owned row is claimable again from exactly one lease after its last renewal. */
  lemma LeaseBoundary(s: Settings, actions: seq<Action>, id: nat, t: Time)
    requires id in Run(s, START, actions).rows && Run(s, START, actions).rows[id].claim.Some?
    ensures var row := Run(s, START, actions).rows[id];
            Claimable(row, t, s.lease) <==> t >= row.claim.value.at + s.lease
  {
    ReachableInv(s, actions);
    var world := Run(s, START, actions);
    assert RowOk(s, world.clock, world.log, id, world.rows[id]);
  }

  // ---- Back-off over a run ---------------------------------------------------------------------------------

  /** When the event's delivery was put off, oldest first. */
  function Postponements(log: Log, event: EventId): seq<Time> {
    if log == [] then []
    else
      var n := |log| - 1;
      Postponements(log[..n], event) + if log[n].Rescheduled? && log[n].event == event then [log[n].at] else []
  }

  /** The attempt count is the number of postponements, and the last one set the delay. */
  predicate BackedOff(s: Settings, row: Row, times: seq<Time>) {
    && row.attempts == |times|
    && (times != [] ==> row.availableAt == times[|times| - 1] + Min(s.retryMax, Pow2(|times|)) * SECOND)
  }

  ghost predicate BackOffInv(s: Settings, world: World) {
    && (forall id | id in world.rows :: BackedOff(s, world.rows[id], Postponements(world.log, world.rows[id].event)))
    && (forall event | event !in PublishedEvents(world.log) :: Postponements(world.log, event) == [])
  }

  lemma PostponementsAfter(log: Log, e: Entry, event: EventId)
    ensures Postponements(log + [e], event)
         == Postponements(log, event) + if e.Rescheduled? && e.event == event then [e.at] else []
  {
    assert (log + [e])[..|log|] == log;
  }

  /** Whether the step is a reschedule that takes effect. */
  predicate Releases(world: World, a: Action) {
    && a.Finish? && a.now <= world.clock
    && world.At(a.worker).Broken? && world.At(a.worker).permanent.None?
    && Owns(world.rows, world.At(a.worker).id, a.worker)
  }

  lemma StepAppends(s: Settings, world: World, a: Action)
    ensures var log := Step(s, world, a).log;
            log == world.log || (|log| > |world.log| && log == world.log + [log[|world.log|]])
  {
  }

  lemma ReleasesAreRecorded(s: Settings, world: World, a: Action)
    ensures var log := Step(s, world, a).log;
            if Releases(world, a)
            then |log| > |world.log| && log[|world.log|].Rescheduled? && log[|world.log|].at == a.now
                 && log[|world.log|].event == world.rows[world.At(a.worker).id].event
            else |log| > |world.log| ==> !log[|world.log|].Rescheduled?
  {
  }

  lemma StepPostpones(s: Settings, world: World, a: Action, event: EventId)
    ensures Postponements(Step(s, world, a).log, event) == Postponements(world.log, event)
              + if Releases(world, a) && world.rows[world.At(a.worker).id].event == event then [a.now] else []
  {
    var log := Step(s, world, a).log;
    StepAppends(s, world, a);
    ReleasesAreRecorded(s, world, a);
    if log != world.log {
      PostponementsAfter(world.log, log[|world.log|], event);
    }
  }

  lemma StepPublishes(s: Settings, world: World, a: Action)
    ensures PublishedEvents(world.log) <= PublishedEvents(Step(s, world, a).log)
  {
    var after := Step(s, world, a);
    forall event | event in PublishedEvents(world.log) ensures event in PublishedEvents(after.log) {
      var k :| 0 <= k < |world.log| && world.log[k].Published? && world.log[k].event == event;
      assert after.log[k] == world.log[k];
    }
  }

  /** How a step changes one row's attempt count and availability. */
  lemma RowBackOff(s: Settings, world: World, a: Action, id: nat)
    requires DistinctEvents(world.rows) && BackOffInv(s, world) && id in Step(s, world, a).rows
    ensures var row, earlier := Step(s, world, a).rows[id], Postponements(world.log, Step(s, world, a).rows[id].event);
            if Releases(world, a) && world.rows[world.At(a.worker).id].event == row.event
            then row.attempts == |earlier| + 1
                 && row.availableAt == a.now + Min(s.retryMax, Pow2(|earlier| + 1)) * SECOND
            else BackedOff(s, row, earlier)
  {
    if Releases(world, a) {
      RetryDelayIsCappedDoubling(world.rows[world.At(a.worker).id].attempts + 1, s.retryMax);
    } else {
      RowUntouched(s, world, a, id);
    }
  }

  lemma RowUntouched(s: Settings, world: World, a: Action, id: nat)
    requires !Releases(world, a) && id in Step(s, world, a).rows
    ensures var row := Step(s, world, a).rows[id];
            if id in world.rows
            then row.(claim := None, processed := None, lastError := None)
              == world.rows[id].(claim := None, processed := None, lastError := None)
            else row.attempts == 0 && row.event !in PublishedEvents(world.log)
  {
  }

  lemma StepKeepsBackOff(s: Settings, world: World, a: Action)
    requires DistinctEvents(world.rows) && BackOffInv(s, world)
    requires forall id | id in world.rows :: world.rows[id].event in PublishedEvents(world.log)
    ensures BackOffInv(s, Step(s, world, a))
  {
    var after := Step(s, world, a);
    forall id | id in after.rows
      ensures BackedOff(s, after.rows[id], Postponements(after.log, after.rows[id].event))
    {
      StepPostpones(s, world, a, after.rows[id].event);
      RowBackOff(s, world, a, id);
    }
    StepPublishes(s, world, a);
    forall event | event !in PublishedEvents(after.log) ensures Postponements(after.log, event) == [] {
      StepPostpones(s, world, a, event);
    }
  }

  lemma {:induction false} RunKeepsBackOff(s: Settings, world: World, actions: seq<Action>)
    requires Inv(s, world) && BackOffInv(s, world)
    ensures BackOffInv(s, Run(s, world, actions))
    decreases |actions|
  {
    if actions != [] {
      forall id | id in world.rows ensures world.rows[id].event in PublishedEvents(world.log) {
        assert RowOk(s, world.clock, world.log, id, world.rows[id]);
      }
      StepKeepsInv(s, world, actions[0]);
      StepKeepsBackOff(s, world, actions[0]);
      RunKeepsBackOff(s, Step(s, world, actions[0]), actions[1..]);
    }
  }

  predicate DueSincePublished(log: Log, row: Row) {
    exists k :: 0 <= k < |log| && log[k] == Published(row.event, row.availableAt)
  }

  predicate FreshRowsDue(world: World) {
    forall id | id in world.rows && world.rows[id].attempts == 0 :: DueSincePublished(world.log, world.rows[id])
  }

  lemma DueStays(log: Log, longer: Log, early: Row, row: Row)
    requires log <= longer && DueSincePublished(log, early) && row.event == early.event && row.availableAt == early.availableAt
    ensures DueSincePublished(longer, row)
  {
    var k :| 0 <= k < |log| && log[k] == Published(early.event, early.availableAt);
    assert longer[k] == Published(row.event, row.availableAt);
  }

  /** A row without postponements was so before the step, or the step has just published it. */
  lemma FreshByPublish(s: Settings, world: World, a: Action, id: nat)
    requires id in Step(s, world, a).rows && Step(s, world, a).rows[id].attempts == 0
    ensures var after := Step(s, world, a);
            && world.log <= after.log
            && (if id in world.rows
                then world.rows[id].attempts == 0 && world.rows[id].event == after.rows[id].event
                     && world.rows[id].availableAt == after.rows[id].availableAt
                else |after.log| > |world.log| && after.log[|world.log|] == Published(after.rows[id].event, after.rows[id].availableAt))
  {
  }

  lemma StepKeepsFreshRowsDue(s: Settings, world: World, a: Action)
    requires FreshRowsDue(world)
    ensures FreshRowsDue(Step(s, world, a))
  {
    var after := Step(s, world, a);
    forall id | id in after.rows && after.rows[id].attempts == 0 ensures DueSincePublished(after.log, after.rows[id]) {
      FreshByPublish(s, world, a, id);
      if id in world.rows {
        DueStays(world.log, after.log, world.rows[id], after.rows[id]);
      }
    }
  }

  lemma {:induction false} RunKeepsFreshRowsDue(s: Settings, world: World, actions: seq<Action>)
    requires FreshRowsDue(world)
    ensures FreshRowsDue(Run(s, world, actions))
    decreases |actions|
  {
    if actions != [] {
      StepKeepsFreshRowsDue(s, world, actions[0]);
      RunKeepsFreshRowsDue(s, Step(s, world, actions[0]), actions[1..]);
    }
  }

  /** In every reachable state the attempt count of a row is the number of times its event was put
      off, and its next delivery is the last of those times plus the capped power of two, or the
      event's own time if it never was. */
  lemma RowsFollowBackOff(s: Settings, actions: seq<Action>, id: nat)
    requires id in Run(s, START, actions).rows
    ensures var row := Run(s, START, actions).rows[id];
            var times := Postponements(LogOf(s, actions), row.event);
            && row.attempts == |times|
            && (times != [] ==> row.availableAt == times[|times| - 1] + Min(s.retryMax, Pow2(|times|)) * SECOND)
            && (times == [] ==>
                  exists k :: 0 <= k < |LogOf(s, actions)| && LogOf(s, actions)[k] == Published(row.event, row.availableAt))
  {
    RunKeepsBackOff(s, START, actions);
    RunKeepsFreshRowsDue(s, START, actions);
    if Run(s, START, actions).rows[id].attempts == 0 {
      assert DueSincePublished(LogOf(s, actions), Run(s, START, actions).rows[id]);
    }
  }

  // ---- Exclusion while heartbeats arrive -----------------------------------------------------------------

  /** `max(1.0, lease_seconds / 3)`, to the microsecond. */
  function HeartbeatInterval(s: Settings): Time {
    Max(SECOND, s.lease / 3)
  }

  /** Three beats fit into a lease: a beat may be late by two thirds of it. */
  lemma ThreeBeatsPerLease(s: Settings)
    requires s.Valid()
    ensures 3 * HeartbeatInterval(s) <= s.lease < 3 * HeartbeatInterval(s) + 3
  {
  }

  predicate IsHeartbeat(world: World, a: Action, w: WorkerId, id: nat) {
    && a.Heartbeat? && a.worker == w && a.now <= world.clock
    && !world.At(w).Idle? && world.At(w).id == id
    && OwnsUnprocessed(world.rows, id, w) && world.rows[id].claim.value.at <= a.now
  }

  predicate Ends(a: Action, w: WorkerId) {
    (a.Finish? || a.Abandon?) && a.worker == w
  }

  /** Along the run the worker neither finishes nor dies, and each renewal follows the previous
      one, at `last`, within the heartbeat interval plus `late`. */
  predicate KeepsBeating(s: Settings, world: World, actions: seq<Action>, w: WorkerId, id: nat, last: Time, late: Time)
    decreases |actions|
  {
    && world.clock <= last + HeartbeatInterval(s) + late
    && (actions == [] ||
        (&& !Ends(actions[0], w)
         && KeepsBeating(s, Step(s, world, actions[0]), actions[1..], w, id,
                         if IsHeartbeat(world, actions[0], w, id) then actions[0].now else last, late)))
  }

  /** While heartbeats are each late by less than what remains of the lease, the row stays with
      its worker and unprocessed, and no worker claims it, through a delivery of any length. */
  lemma {:induction false} HeartbeatsExclude(s: Settings, world: World, actions: seq<Action>, w: WorkerId, id: nat, last: Time, late: Time)
    requires s.Valid() && late < s.lease - HeartbeatInterval(s)
    requires OwnsUnprocessed(world.rows, id, w) && world.rows[id].claim.value.at == last
    requires !world.At(w).Idle? && world.At(w).id == id
    requires KeepsBeating(s, world, actions, w, id, last, late)
    ensures OwnsUnprocessed(Run(s, world, actions).rows, id, w)
    ensures LastClaim(Run(s, world, actions).log, id) == LastClaim(world.log, id)
    decreases |actions|
  {
    if actions != [] {
      var a := actions[0];
      OneStepExcludes(s, world, a, w, id, last);
      HeartbeatsExclude(s, Step(s, world, a), actions[1..], w, id,
                        if IsHeartbeat(world, a, w, id) then a.now else last, late);
    }
  }

  lemma OneStepExcludes(s: Settings, world: World, a: Action, w: WorkerId, id: nat, last: Time)
    requires world.clock < last + s.lease
    requires OwnsUnprocessed(world.rows, id, w) && world.rows[id].claim.value.at == last
    requires !world.At(w).Idle? && world.At(w).id == id && !Ends(a, w)
    ensures var after := Step(s, world, a);
            && OwnsUnprocessed(after.rows, id, w)
            && after.rows[id].claim.value.at == (if IsHeartbeat(world, a, w, id) then a.now else last)
            && !after.At(w).Idle? && after.At(w).id == id
            && LastClaim(after.log, id) == LastClaim(world.log, id)
  {
    if a.ClaimNext? && a.now <= world.clock {
      assert id !in Candidates(world.rows, a.now, s.lease);
    }
    StepLogsElsewhere(s, world, a, id);
    StepSparesRow(s, world, a, w, id);
    StepKeepsWorker(s, world, a, w);
  }

  lemma StepKeepsWorker(s: Settings, world: World, a: Action, w: WorkerId)
    requires !world.At(w).Idle? && OwnsUnprocessed(world.rows, world.At(w).id, w) && !Ends(a, w)
    ensures var after := Step(s, world, a); !after.At(w).Idle? && after.At(w).id == world.At(w).id
  {
  }

  lemma StepSparesRow(s: Settings, world: World, a: Action, w: WorkerId, id: nat)
    requires OwnsUnprocessed(world.rows, id, w) && !Ends(a, w)
    requires a.ClaimNext? && a.now <= world.clock ==> id !in Candidates(world.rows, a.now, s.lease)
    ensures var after := Step(s, world, a);
            && OwnsUnprocessed(after.rows, id, w)
            && after.rows[id].claim.value.at == (if IsHeartbeat(world, a, w, id) then a.now else world.rows[id].claim.value.at)
  {
  }

  /** A claim is recorded only of a row that was claimable. */
  lemma ClaimsAreCandidates(s: Settings, world: World, a: Action)
    ensures var log := Step(s, world, a).log;
            |log| > |world.log| && log[|world.log|].Claimed? ==>
              a.ClaimNext? && a.now <= world.clock && log[|world.log|].id in Candidates(world.rows, a.now, s.lease)
  {
  }

  lemma StepLogsElsewhere(s: Settings, world: World, a: Action, id: nat)
    requires a.ClaimNext? && a.now <= world.clock ==> id !in Candidates(world.rows, a.now, s.lease)
    ensures LastClaim(Step(s, world, a).log, id) == LastClaim(world.log, id)
  {
    var log := Step(s, world, a).log;
    StepAppends(s, world, a);
    ClaimsAreCandidates(s, world, a);
    if log != world.log {
      AppendClaims(world.log, log[|world.log|]);
    }
  }

  /** A dispatcher claims with `limit=1`: its claim is the step's claim. */
  lemma ClaimNextIsClaimPending(s: Settings, world: World, w: WorkerId, now: Time)
    requires world.At(w).Idle? && now <= world.clock && Candidates(world.rows, now, s.lease) != {}
    ensures var chosen := Chosen(world.rows, now, Some(1), s);
            && chosen == {Least(Candidates(world.rows, now, s.lease))}
            && Step(s, world, ClaimNext(w, now)).rows == ClaimRows(world.rows, chosen, w, now)
  {
    var candidates := Candidates(world.rows, now, s.lease);
    var chosen := Chosen(world.rows, now, Some(1), s);
    var x :| x in chosen;
    assert chosen - {x} == {} by {
      assert |chosen - {x}| == 0;
    }
    var least := Least(candidates);
    assert x == least;
    assert chosen == {least};
    assert Step(s, world, ClaimNext(w, now)).rows == ClaimRows(world.rows, chosen, w, now);
  }

  // ---- The code: one batch of one dispatcher -----------------------------------------------------------------

  /** What a worker cannot choose in one iteration: the stop event, the outcome of each step, what the
      other workers and the clock do at each await, and how much older than the commit the clock
      readings of its writes are. */
  datatype Iteration = Iteration(
    stop: bool, reading: Reading, sendError: Option<bool>, finishFails: bool,
    beforeClaim: seq<Action>, beforeRead: seq<Action>, beforeSend: seq<Action>, beforeFinish: seq<Action>,
    beforeRecovery: seq<Action>, claimLag: Time, finishLag: Time, recoveryLag: Time)
  {
    predicate Allows(w: WorkerId) {
      && Beside(beforeClaim, w) && Beside(beforeRead, w) && Beside(beforeSend, w)
      && Beside(beforeFinish, w) && Beside(beforeRecovery, w)
    }
  }

  function ReadEarlier(clock: Time, lag: Time): Time {
    if lag <= clock then clock - lag else 0
  }

  /** Steps that run beside worker `w`: those of others, time, and its own heartbeat task. */
  predicate Beside(actions: seq<Action>, w: WorkerId) {
    forall a | a in actions :: a.Heartbeat? || a.Tick? || a.Publish? || a.Cleanup? || a.worker != w
  }

  function FinalizedBy(log: Log, w: WorkerId): nat {
    if log == [] then 0
    else
      var n := |log| - 1;
      FinalizedBy(log[..n], w) + if log[n].Finalized? && log[n].worker == w then 1 else 0
  }

  /** Whether finishing now would finalize the row. */
  predicate WillFinalize(world: World, w: WorkerId) {
    var st := world.At(w);
    (st.Sent? || st.ToDiscard? || (st.Broken? && st.permanent.Some?)) && OwnsUnprocessed(world.rows, st.id, w)
  }

  lemma StepCount(s: Settings, world: World, a: Action, w: WorkerId)
    ensures FinalizedBy(Step(s, world, a).log, w) == FinalizedBy(world.log, w)
         + if a.Finish? && a.worker == w && a.now <= world.clock && WillFinalize(world, w) then 1 else 0
  {
    var after := Step(s, world, a);
    if after.log != world.log {
      assert after.log[..|world.log|] == world.log;
    }
  }

  lemma {:induction false} BesideCount(s: Settings, world: World, actions: seq<Action>, w: WorkerId)
    requires Beside(actions, w)
    ensures FinalizedBy(Run(s, world, actions).log, w) == FinalizedBy(world.log, w)
    ensures Run(s, world, actions).At(w) == world.At(w)
    decreases |actions|
  {
    if actions != [] {
      assert actions[0] in actions;
      BesideStep(s, world, actions[0], w);
      BesideCount(s, Step(s, world, actions[0]), actions[1..], w);
    }
  }

  lemma BesideSparesWorker(s: Settings, world: World, a: Action, w: WorkerId)
    requires a.Heartbeat? || a.Tick? || a.Publish? || a.Cleanup? || a.worker != w
    ensures Step(s, world, a).At(w) == world.At(w)
  {
  }

  lemma BesideStep(s: Settings, world: World, a: Action, w: WorkerId)
    requires a.Heartbeat? || a.Tick? || a.Publish? || a.Cleanup? || a.worker != w
    ensures FinalizedBy(Step(s, world, a).log, w) == FinalizedBy(world.log, w)
    ensures Step(s, world, a).At(w) == world.At(w)
  {
    StepCount(s, world, a, w);
    BesideSparesWorker(s, world, a, w);
  }

  lemma {:induction false} RunAppend(s: Settings, world: World, first: seq<Action>, second: seq<Action>)
    ensures Run(s, world, first + second) == Run(s, Run(s, world, first), second)
    decreases |first|
  {
    if first == [] {
      assert first + second == second;
    } else {
      assert (first + second)[1..] == first[1..] + second;
      RunAppend(s, Step(s, world, first[0]), first[1..], second);
    }
  }

  /** The world as an iteration finds it when it reads, and when it finishes after a send. */
  function AtRead(s: Settings, world: World, it: Iteration): World {
    Run(s, world, it.beforeRead)
  }

  function AtFinish(s: Settings, world: World, w: WorkerId, it: Iteration): World {
    var sending := Run(s, Step(s, AtRead(s, world, it), ReadRow(w, it.reading)), it.beforeSend);
    Run(s, Step(s, sending, Send(w, it.sendError)), it.beforeFinish)
  }

  /** The message renders, the send completes, the last transaction commits, and the worker still
      owns the row when it reads and when it finishes. */
  predicate GoesWell(s: Settings, world: World, w: WorkerId, it: Iteration) {
    && world.At(w).Holding? && it.reading.Render? && it.sendError.None? && !it.finishFails
    && OwnsUnprocessed(AtRead(s, world, it).rows, world.At(w).id, w)
    && OwnsUnprocessed(AtFinish(s, world, w, it).rows, world.At(w).id, w)
  }

  /** The log ends with the delivery of the row by the worker, after a send of its own. */
  predicate EndsDelivered(log: Log, w: WorkerId, id: nat) {
    && log != [] && log[|log| - 1].Finalized? && log[|log| - 1].worker == w && log[|log| - 1].id == id
    && log[|log| - 1].outcome.Delivered?
    && log[|log| - 1].cause < |log| - 1 && log[log[|log| - 1].cause].SendCompleted? && log[log[|log| - 1].cause].worker == w
  }

  lemma RenderedIsToSend(s: Settings, world: World, w: WorkerId)
    requires world.At(w).Holding? && OwnsUnprocessed(world.rows, world.At(w).id, w)
    ensures var st := Step(s, world, ReadRow(w, Render)).At(w);
            st.ToSend? && st.id == world.At(w).id
  {
  }

  lemma SentIsSent(s: Settings, world: World, w: WorkerId)
    requires world.At(w).ToSend?
    ensures var after := Step(s, world, Send(w, None));
            && after.At(w).Sent? && after.At(w).id == world.At(w).id
            && after.At(w).send < |after.log| && after.log[after.At(w).send].SendCompleted? && after.log[after.At(w).send].worker == w
  {
  }

  lemma FinishedIsDelivered(s: Settings, world: World, w: WorkerId, now: Time)
    requires world.At(w).Sent? && OwnsUnprocessed(world.rows, world.At(w).id, w) && now <= world.clock
    requires world.At(w).send < |world.log|
    requires world.log[world.At(w).send].SendCompleted? && world.log[world.At(w).send].worker == w
    ensures EndsDelivered(Step(s, world, Finish(w, now)).log, w, world.At(w).id)
  {
  }

  lemma {:induction false} RunKeepsEntries(s: Settings, world: World, actions: seq<Action>)
    ensures world.log <= Run(s, world, actions).log
    decreases |actions|
  {
    if actions != [] {
      StepAppends(s, world, actions[0]);
      RunKeepsEntries(s, Step(s, world, actions[0]), actions[1..]);
    }
  }

  function Last(log: Log): Option<Entry> {
    if log == [] then None else Some(log[|log| - 1])
  }

  /** How a reading that finds nothing to send ends when the worker still owns the row. */
  lemma EveryDiscardHasItsEnd(s: Settings, world: World, w: WorkerId, disabled: bool, now: Time)
    requires world.At(w).Holding? && OwnsUnprocessed(world.rows, world.At(w).id, w) && now <= world.clock
    ensures var id, claim := world.At(w).id, world.At(w).claim;
            Last(Step(s, Step(s, world, ReadRow(w, Discard(disabled))), Finish(w, now)).log) == Some(
              Finalized(w, id, world.rows[id].event, if disabled then DiscardedEmailDisabled else DiscardedTargetUnavailable,
                        now, claim, |world.log|))
  {
  }

  /** A permanent error, on reading or on sending, fails the event for good; any other puts it off. */
  lemma EveryFailedReadingHasItsEnd(s: Settings, world: World, w: WorkerId, permanent: bool, now: Time)
    requires world.At(w).Holding? && OwnsUnprocessed(world.rows, world.At(w).id, w) && now <= world.clock
    ensures var id, claim := world.At(w).id, world.At(w).claim;
            Last(Step(s, Step(s, world, ReadRow(w, Fail(permanent))), Finish(w, now)).log) == Some(
              if permanent then Finalized(w, id, world.rows[id].event, FailedPermanent, now, claim, |world.log|)
              else Rescheduled(w, id, world.rows[id].event, claim, now))
  {
  }

  lemma EveryFailedSendHasItsEnd(s: Settings, world: World, w: WorkerId, permanent: bool, now: Time)
    requires world.At(w).ToSend? && OwnsUnprocessed(world.rows, world.At(w).id, w) && now <= world.clock
    ensures var id, claim := world.At(w).id, world.At(w).claim;
            Last(Step(s, Step(s, world, Send(w, Some(permanent))), Finish(w, now)).log) == Some(
              if permanent then Finalized(w, id, world.rows[id].event, FailedPermanent, now, claim, |world.log|)
              else Rescheduled(w, id, world.rows[id].event, claim, now))
  {
  }

  class Dispatcher {
    var world: World
    const settings: Settings
    const me: WorkerId
    ghost var begun: World
    ghost var run: seq<Action>

    ghost predicate Valid()
      reads this
    {
      world == Run(settings, begun, run)
    }

    constructor (world: World, settings: Settings, me: WorkerId)
      ensures this.world == world && this.settings == settings && this.me == me
      ensures Valid() && begun == world && run == []
    {
      this.world, this.settings, this.me := world, settings, me;
      begun, run := world, [];
    }

    method Do(a: Action)
      requires Valid()
      modifies `world, `run
      ensures Valid() && world == Step(settings, old(world), a)
    {
      RunAppend(settings, begun, run, [a]);
      world := Step(settings, world, a);
      run := run + [a];
    }

    method Await(actions: seq<Action>)
      requires Valid() && Beside(actions, me)
      modifies `world, `run
      ensures Valid() && world == Run(settings, old(world), actions)
      ensures world.At(me) == old(world).At(me) && old(world).log <= world.log
      ensures FinalizedBy(world.log, me) == FinalizedBy(old(world).log, me)
    {
      RunAppend(settings, begun, run, actions);
      BesideCount(settings, world, actions, me);
      RunKeepsEntries(settings, world, actions);
      world := Run(settings, world, actions);
      run := run + actions;
    }

    /** The first transaction of `_process_claimed`. */
    method ReadClaimed(reading: Reading)
      requires Valid() && world.At(me).Holding?
      modifies `world, `run
      ensures Valid() && world == Step(settings, old(world), ReadRow(me, reading))
      ensures !world.At(me).Holding? && !world.At(me).Sent?
      ensures FinalizedBy(world.log, me) == FinalizedBy(old(world).log, me)
    {
      StepCount(settings, world, ReadRow(me, reading), me);
      Do(ReadRow(me, reading));
    }

    method SendMessage(error: Option<bool>)
      requires Valid() && world.At(me).ToSend?
      modifies `world, `run
      ensures Valid() && world == Step(settings, old(world), Send(me, error))
      ensures world.At(me).Sent? || world.At(me).Broken?
      ensures FinalizedBy(world.log, me) == FinalizedBy(old(world).log, me)
    {
      StepCount(settings, world, Send(me, error), me);
      Do(Send(me, error));
    }

    /** Run `_finalize_claim`, or `_reschedule` after a transient error. */
    method FinishClaim(lag: Time) returns (finalized: bool)
      requires Valid() && (world.At(me).Sent? || world.At(me).ToDiscard? || world.At(me).Broken?)
      modifies `world, `run
      ensures Valid() && world.At(me).Idle?
      ensures world == Step(settings, old(world), Finish(me, ReadEarlier(old(world).clock, lag)))
      ensures finalized == WillFinalize(old(world), me)
      ensures FinalizedBy(world.log, me) == FinalizedBy(old(world).log, me) + if finalized then 1 else 0
    {
      finalized := WillFinalize(world, me);
      var now := ReadEarlier(world.clock, lag);
      StepCount(settings, world, Finish(me, now), me);
      Do(Finish(me, now));
    }

    /** A finalizing transaction that raises becomes a delivery error. */
    method LoseFinish()
      requires Valid() && (world.At(me).Sent? || world.At(me).ToDiscard?)
      modifies `world, `run
      ensures Valid() && world.At(me).Broken?
      ensures FinalizedBy(world.log, me) == FinalizedBy(old(world).log, me)
    {
      StepCount(settings, world, FinishFails(me), me);
      Do(FinishFails(me));
    }

    /** `_process_claimed` and the error handling around it, for the row just claimed. Unless the
        row is lost or an error occurs, it is delivered. */
    method ProcessClaimed(it: Iteration) returns (finalized: bool)
      requires Valid() && world.At(me).Holding? && it.Allows(me)
      modifies `world, `run
      ensures Valid() && world.At(me).Idle?
      ensures GoesWell(settings, old(world), me, it) ==> finalized && EndsDelivered(world.log, me, old(world).At(me).id)
      ensures FinalizedBy(world.log, me) == FinalizedBy(old(world).log, me) + if finalized then 1 else 0
    {
      finalized := false;
      ghost var begin := world;
      ghost var well := GoesWell(settings, world, me, it);
      Await(it.beforeRead);
      if well {
        RenderedIsToSend(settings, world, me);
      }
      ReadClaimed(it.reading);
      if world.At(me).ToSend? {
        Await(it.beforeSend);
        if well {
          SentIsSent(settings, world, me);
        }
        SendMessage(it.sendError);
      }
      if world.At(me).Sent? || world.At(me).ToDiscard? {
        Await(it.beforeFinish);
        if it.finishFails {
          LoseFinish();
        } else {
          if well {
            assert world == AtFinish(settings, begin, me, it);
            FinishedIsDelivered(settings, world, me, ReadEarlier(world.clock, it.finishLag));
          }
          finalized := FinishClaim(it.finishLag);
        }
      }
      if world.At(me).Broken? {
        Await(it.beforeRecovery);
        finalized := FinishClaim(it.recoveryLag);
      }
    }

    /** `dispatch_pending_once`: the number returned is exactly the number of events this worker
        finalized during the call, whatever the other workers did meanwhile. */
    method DispatchPendingOnce(script: seq<Iteration>) returns (processed: nat)
      requires Valid() && world.At(me).Idle?
      requires forall it | it in script :: it.Allows(me)
      modifies `world, `run
      ensures Valid() && world.At(me).Idle?
      ensures processed <= settings.batch
      ensures FinalizedBy(world.log, me) == FinalizedBy(old(world).log, me) + processed
    {
      processed := 0;
      for i := 0 to settings.batch
        invariant Valid() && world.At(me).Idle? && processed <= i
        invariant FinalizedBy(world.log, me) == FinalizedBy(old(world).log, me) + processed
      {
        if i >= |script| || script[i].stop {
          break;
        }
        assert script[i] in script;
        Await(script[i].beforeClaim);
        var now := ReadEarlier(world.clock, script[i].claimLag);
        StepCount(settings, world, ClaimNext(me, now), me);
        Do(ClaimNext(me, now));
        if world.At(me).Idle? {
          break;
        }
        var finalized := ProcessClaimed(script[i]);
        if finalized {
          processed := processed + 1;
        }
      }
    }
  }
}
