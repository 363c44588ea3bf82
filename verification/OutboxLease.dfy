/** app/notifications/lease.py: the notification outbox and the statements that lease its rows. */
module OutboxLease {
  import opened Common
  import opened RowOrder

  type WorkerId = nat
  type EventId = nat

  datatype Outcome = Delivered | DiscardedEmailDisabled | DiscardedTargetUnavailable | FailedPermanent

  datatype Claim = Claim(at: Time, owner: WorkerId)

  datatype Completion = Completion(at: Time, outcome: Outcome)

  datatype Row = Row(
    event: EventId,
    availableAt: Time,
    attempts: nat,
    claim: Option<Claim>,
    processed: Option<Completion>,
    lastError: Option<string>)

  type Rows = map<nat, Row>

  /** `lease` is in microseconds, `retryMax` in seconds, within the bounds the settings enforce. */
  datatype Settings = Settings(batch: nat, lease: Time, retryMax: nat)
  {
    predicate Valid() {
      1 <= batch && lease >= 10 * SECOND && retryMax >= 1
    }
  }

  // ---- Back-off -----------------------------------------------------------------------------

  function BitLength(n: nat): nat {
    if n == 0 then 0 else 1 + BitLength(n / 2)
  }

  function Pow2(n: nat): (p: nat)
    ensures p >= 1
  {
    if n == 0 then 1 else 2 * Pow2(n - 1)
  }

  function RetryDelaySeconds(attempt: nat, maximum: nat): nat {
    if attempt >= BitLength(maximum) then maximum else Min(maximum, Pow2(attempt))
  }

  lemma {:induction false} BelowPow2BitLength(n: nat)
    ensures n < Pow2(BitLength(n))
  {
    if n > 0 {
      BelowPow2BitLength(n / 2);
    }
  }

  lemma {:induction false} Pow2Grows(a: nat, b: nat)
    requires a <= b
    ensures Pow2(a) <= Pow2(b)
  {
    if a < b {
      Pow2Grows(a, b - 1);
    }
  }

  /** The shortcut for large attempt counts changes nothing: the delay is the capped power of two
      for every attempt, and never shrinks from one attempt to the next. */
  lemma RetryDelayIsCappedDoubling(attempt: nat, maximum: nat)
    ensures RetryDelaySeconds(attempt, maximum) == Min(maximum, Pow2(attempt))
    ensures RetryDelaySeconds(attempt, maximum) <= RetryDelaySeconds(attempt + 1, maximum)
  {
    BelowPow2BitLength(maximum);
    if attempt >= BitLength(maximum) {
      Pow2Grows(BitLength(maximum), attempt);
    }
  }

  // ---- What each statement does to the rows ----------------------------------------------------

  predicate LeaseFree(row: Row, now: Time, lease: Time) {
    row.claim.None? || row.claim.value.at + lease <= now
  }

  predicate Claimable(row: Row, now: Time, lease: Time) {
    row.processed.None? && row.availableAt <= now && LeaseFree(row, now, lease)
  }

  function Candidates(rows: Rows, now: Time, lease: Time): set<nat> {
    set id | id in rows && Claimable(rows[id], now, lease)
  }

  /** `limit or settings.batch_size`: an absent limit and a zero limit both mean the batch size. */
  function EffectiveLimit(limit: Option<nat>, s: Settings): nat {
    match limit case Some(n) => (if n == 0 then s.batch else n) case None => s.batch
  }

  function Chosen(rows: Rows, now: Time, limit: Option<nat>, s: Settings): set<nat> {
    LowestIds(Candidates(rows, now, s.lease), EffectiveLimit(limit, s))
  }

  /** A claim takes the lowest of the rows that are unprocessed, due, and unclaimed or claimed at
      least one lease ago: as many as an explicit positive limit or the batch size allows. */
  lemma ClaimTakesTheLowestDue(rows: Rows, now: Time, limit: Option<nat>, s: Settings)
    ensures var due := set id | id in rows && rows[id].processed.None? && rows[id].availableAt <= now
                         && (rows[id].claim.Some? ==> rows[id].claim.value.at + s.lease <= now);
            var most := if limit.Some? && limit.value > 0 then limit.value else s.batch;
            && Chosen(rows, now, limit, s) <= due && |Chosen(rows, now, limit, s)| == Min(most, |due|)
            && forall taken, left | taken in Chosen(rows, now, limit, s) && left in due - Chosen(rows, now, limit, s) :: taken < left
  {
    var due := set id | id in rows && rows[id].processed.None? && rows[id].availableAt <= now
                 && (rows[id].claim.Some? ==> rows[id].claim.value.at + s.lease <= now);
    assert due == Candidates(rows, now, s.lease);
    var most := if limit.Some? && limit.value > 0 then limit.value else s.batch;
    assert AreLowest(Chosen(rows, now, limit, s), due, most);
  }

  function ClaimRows(rows: Rows, ids: set<nat>, w: WorkerId, now: Time): Rows {
    map id | id in rows :: if id in ids then rows[id].(claim := Some(Claim(now, w))) else rows[id]
  }

  lemma ClaimOneMore(rows: Rows, done: set<nat>, id: nat, w: WorkerId, now: Time)
    requires id in rows && id !in done
    ensures id in ClaimRows(rows, done, w, now) && ClaimRows(rows, done, w, now)[id] == rows[id]
    ensures ClaimRows(rows, done + {id}, w, now)
         == ClaimRows(rows, done, w, now)[id := rows[id].(claim := Some(Claim(now, w)))]
  {
  }

  predicate Owns(rows: Rows, id: nat, w: WorkerId) {
    id in rows && rows[id].claim.Some? && rows[id].claim.value.owner == w
  }

  predicate OwnsUnprocessed(rows: Rows, id: nat, w: WorkerId) {
    Owns(rows, id, w) && rows[id].processed.None?
  }

  function RenewRows(rows: Rows, id: nat, w: WorkerId, now: Time): Rows {
    if OwnsUnprocessed(rows, id, w) then rows[id := rows[id].(claim := Some(Claim(now, w)))] else rows
  }

  function FinalizeRows(rows: Rows, id: nat, w: WorkerId, now: Time, outcome: Outcome, error: Option<string>): Rows {
    if OwnsUnprocessed(rows, id, w)
    then rows[id := rows[id].(processed := Some(Completion(now, outcome)), claim := None, lastError := error)]
    else rows
  }

  /** Guarded by ownership alone: whether the row is already processed is not tested. */
  function RescheduleRows(rows: Rows, id: nat, w: WorkerId, now: Time, s: Settings, error: string): Rows {
    if Owns(rows, id, w)
    then
      var attempts := rows[id].attempts + 1;
      rows[id := rows[id].(attempts := attempts,
                           availableAt := now + RetryDelaySeconds(attempts, s.retryMax) * SECOND,
                           claim := None,
                           lastError := Some(error))]
    else rows
  }

  // ---- The code ---------------------------------------------------------------------------------

  class OutboxTable {
    var rows: Rows
    const settings: Settings

    constructor (rows: Rows, settings: Settings)
      ensures this.rows == rows && this.settings == settings
    {
      this.rows := rows;
      this.settings := settings;
    }

    /** `_claim_pending`: select the candidates, then claim them one by one. */
    method ClaimPending(w: WorkerId, now: Time, limit: Option<nat>) returns (claimed: seq<nat>)
      modifies this
      ensures claimed == Ascending(Chosen(old(rows), now, limit, settings))
      ensures rows == ClaimRows(old(rows), Chosen(old(rows), now, limit, settings), w, now)
    {
      var chosen := Chosen(rows, now, limit, settings);
      var candidates := Ascending(chosen);
      AscendingListsAll(chosen);
      AscendingHasDistinct(chosen);
      assert chosen <= Candidates(rows, now, settings.lease);
      claimed := ClaimEach(candidates, w, now);
    }

    /** The loop of guarded updates: each candidate is still free when its turn comes. */
    method ClaimEach(candidates: seq<nat>, w: WorkerId, now: Time) returns (claimed: seq<nat>)
      requires forall id | id in candidates :: id in rows && Claimable(rows[id], now, settings.lease)
      requires forall i, j | 0 <= i < j < |candidates| :: candidates[i] < candidates[j]
      modifies this
      ensures claimed == candidates
      ensures rows == ClaimRows(old(rows), (set id | id in candidates), w, now)
    {
      ghost var before, done: set<nat> := rows, {};
      claimed := [];
      for i := 0 to |candidates|
        invariant claimed == candidates[..i]
        invariant forall id :: id in done <==> id in candidates[..i]
        invariant rows == ClaimRows(before, done, w, now)
      {
        var id := candidates[i];
        assert id !in done;
        ClaimOneMore(before, done, id, w, now);
        if id in rows && rows[id].processed.None? && LeaseFree(rows[id], now, settings.lease) {
          rows := rows[id := rows[id].(claim := Some(Claim(now, w)))];
          claimed := claimed + [id];
        }
        done := done + {id};
      }
      assert done == (set id | id in candidates);
    }

    /** One round of `_renew_lease`. */
    method RenewLease(id: nat, w: WorkerId, now: Time)
      modifies this
      ensures rows == RenewRows(old(rows), id, w, now)
      ensures OwnsUnprocessed(old(rows), id, w) ==>
                id in rows && rows[id].claim == Some(Claim(now, w)) && rows[id] == old(rows)[id].(claim := rows[id].claim)
      ensures !OwnsUnprocessed(old(rows), id, w) ==> rows == old(rows)
    {
      if OwnsUnprocessed(rows, id, w) {
        rows := rows[id := rows[id].(claim := Some(Claim(now, w)))];
      }
    }

    /** `_finalize_claim`; `_record_permanent_failure` calls it with FailedPermanent. */
    method FinalizeClaim(id: nat, w: WorkerId, now: Time, outcome: Outcome, error: Option<string>)
      returns (finalized: bool)
      modifies this
      ensures finalized == OwnsUnprocessed(old(rows), id, w)
      ensures rows == FinalizeRows(old(rows), id, w, now, outcome, error)
      ensures finalized ==>
                && id in rows && rows[id].processed == Some(Completion(now, outcome)) && rows[id].claim.None?
                && rows[id].lastError == error && rows[id].event == old(rows)[id].event
                && rows[id].attempts == old(rows)[id].attempts && rows[id].availableAt == old(rows)[id].availableAt
      ensures !finalized ==> rows == old(rows)
      ensures rows.Keys == old(rows).Keys && forall other | other in rows && other != id :: rows[other] == old(rows)[other]
    {
      finalized := OwnsUnprocessed(rows, id, w);
      if finalized {
        rows := rows[id := rows[id].(processed := Some(Completion(now, outcome)), claim := None, lastError := error)];
      }
    }

    /** `_reschedule`. */
    method Reschedule(id: nat, w: WorkerId, now: Time, error: string)
      modifies this
      ensures rows == RescheduleRows(old(rows), id, w, now, settings, error)
      ensures Owns(old(rows), id, w) ==>
                && id in rows && rows[id].claim.None? && rows[id].lastError == Some(error)
                && rows[id].attempts == old(rows)[id].attempts + 1
                && rows[id].availableAt == now + Min(settings.retryMax, Pow2(rows[id].attempts)) * SECOND
                && rows[id].event == old(rows)[id].event && rows[id].processed == old(rows)[id].processed
      ensures !Owns(old(rows), id, w) ==> rows == old(rows)
      ensures rows.Keys == old(rows).Keys && forall other | other in rows && other != id :: rows[other] == old(rows)[other]
    {
      if !Owns(rows, id, w) {
        return;
      }
      var attempts := rows[id].attempts + 1;
      RetryDelayIsCappedDoubling(attempts, settings.retryMax);
      var delay := RetryDelaySeconds(attempts, settings.retryMax);
      rows := rows[id := rows[id].(attempts := attempts, availableAt := now + delay * SECOND, claim := None,
                                   lastError := Some(error))];
    }
  }
}
