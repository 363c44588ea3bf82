/** Byte order on strings, as SQL compares the hexadecimal event ids, and the text encodings
    that enter a derivation message. */
module TokenText {
  import opened WorkflowKeyring

  predicate Less(a: string, b: string) {
    if b == [] then false
    else if a == [] then true
    else a[0] < b[0] || (a[0] == b[0] && Less(a[1..], b[1..]))
  }

  lemma {:induction false} LessIsTotal(a: string, b: string)
    ensures a == b || Less(a, b) || Less(b, a)
    ensures !(Less(a, b) && Less(b, a)) && (a == b ==> !Less(a, b))
  {
    if a != [] && b != [] {
      LessIsTotal(a[1..], b[1..]);
      assert a == [a[0]] + a[1..] && b == [b[0]] + b[1..];
    }
  }

  lemma {:induction false} LessIsTransitive(a: string, b: string, c: string)
    requires Less(a, b) && Less(b, c)
    ensures Less(a, c)
  {
    if a != [] && a[0] == b[0] == c[0] {
      LessIsTransitive(a[1..], b[1..], c[1..]);
    }
  }

  function Decimal(n: nat): (digits: string)
    ensures digits != [] && ':' !in digits
  {
    var last := '0' + (n % 10) as char;
    if n < 10 then [last] else Decimal(n / 10) + [last]
  }

  lemma {:induction false} DecimalIsInjective(m: nat, n: nat)
    requires Decimal(m) == Decimal(n)
    ensures m == n
  {
    var a, b := Decimal(m), Decimal(n);
    assert a[|a| - 1] == '0' + (m % 10) as char;
    assert b[|b| - 1] == '0' + (n % 10) as char;
    assert a[..|a| - 1] == if m < 10 then [] else Decimal(m / 10);
    assert b[..|b| - 1] == if n < 10 then [] else Decimal(n / 10);
    if m >= 10 && n >= 10 {
      DecimalIsInjective(m / 10, n / 10);
    }
  }

  function PurposeName(p: Purpose): (name: string)
    ensures ':' !in name
  {
    match p
    case VerifyEmail => "verify_email"
    case EmailChange => "email_change"
    case Invite => "invite"
    case ResetPassword => "reset_password"
  }

  /** The text that is signed to derive a token. */
  function Message(event: string, email: nat, purpose: Purpose): string {
    event + ":" + Decimal(email) + ":" + PurposeName(purpose)
  }

  lemma SplitAtLastColon(a: string, b: string, c: string, d: string)
    requires ':' !in b && ':' !in d && a + ":" + b == c + ":" + d
    ensures a == c && b == d
  {
    var whole := a + ":" + b;
    assert whole[|a|] == ':' && (c + ":" + d)[|c|] == ':';
    if |a| < |c| {
      assert false;
    } else if |c| < |a| {
      assert false;
    }
    assert a == whole[..|a|] && c == whole[..|c|];
    assert b == whole[|a| + 1..] && d == whole[|c| + 1..];
  }

  lemma PurposeNameIsInjective(p: Purpose, q: Purpose)
    ensures PurposeName(p) == PurposeName(q) ==> p == q
  {
    assert p != q ==> PurposeName(p)[0] != PurposeName(q)[0];
  }

  /** No two (event, address, purpose) triples share a message, whatever the event id contains. */
  lemma MessageIsInjective(event: string, email: nat, purpose: Purpose, event': string, email': nat, purpose': Purpose)
    requires Message(event, email, purpose) == Message(event', email', purpose')
    ensures event == event' && email == email' && purpose == purpose'
  {
    SplitAtLastColon(event + ":" + Decimal(email), PurposeName(purpose),
                     event' + ":" + Decimal(email'), PurposeName(purpose'));
    SplitAtLastColon(event, Decimal(email), event', Decimal(email'));
    DecimalIsInjective(email, email');
    PurposeNameIsInjective(purpose, purpose');
  }
}

/** app/workflow_tokens/service.py: single-use tokens, at most one usable per address and purpose. */
module WorkflowTokens {
  import opened Common
  import opened WorkflowKeyring
  import opened TokenText

  /** A raw token is a MAC or any other text a caller may present. MAC and digest are free
      constructors: equal results come from equal arguments only. */
  datatype Token = Mac(secret: string, message: string) | Other(text: string)

  datatype Digest = Sha256(token: Token)

  /** Rows in insertion order. The only writer always sets the three source-event columns. */
  datatype Row = Row(
    email: nat, purpose: Purpose, hash: Digest, expiresAt: Time, usedAt: Option<Time>,
    event: string, occurredAt: Time, keyId: string)
  {
    predicate Live(now: Time) {
      usedAt.None? && expiresAt > now
    }

    predicate ForPair(email: nat, purpose: Purpose) {
      this.email == email && this.purpose == purpose
    }
  }

  type Rows = seq<Row>

  datatype Error = InvalidToken | KeyUnavailable

  /** The order that decides which request is the newest: time first, then event id. */
  predicate After(t: Time, event: string, t': Time, event': string) {
    t > t' || (t == t' && Less(event', event))
  }

  predicate Newer(a: Row, b: Row) {
    After(a.occurredAt, a.event, b.occurredAt, b.event)
  }

  // ---- What each statement does to the rows --------------------------------------------------

  function FindEvent(rows: Rows, event: string): (found: Option<nat>)
    ensures found.Some? ==> found.value < |rows| && rows[found.value].event == event
    ensures found.None? ==> forall i | 0 <= i < |rows| :: rows[i].event != event
  {
    if rows == [] then None
    else if rows[0].event == event then Some(0)
    else match FindEvent(rows[1..], event) case None => None case Some(i) => Some(i + 1)
  }

  function Use(row: Row, now: Time): Row {
    if row.usedAt.None? then row.(usedAt := Some(now)) else row
  }

  /** `UPDATE ... SET used_at = now` over the unused rows of some addresses and purposes. */
  function UseAll(rows: Rows, emails: set<nat>, purposes: set<Purpose>, now: Time): (r: Rows)
    ensures |r| == |rows|
    ensures forall i | 0 <= i < |rows| ::
              r[i] == if rows[i].email in emails && rows[i].purpose in purposes then Use(rows[i], now) else rows[i]
  {
    seq(|rows|, i requires 0 <= i < |rows| =>
      if rows[i].email in emails && rows[i].purpose in purposes then Use(rows[i], now) else rows[i])
  }

  predicate NewerExists(rows: Rows, t: Time, event: string, email: nat, purpose: Purpose) {
    exists i :: 0 <= i < |rows| && rows[i].ForPair(email, purpose) && After(rows[i].occurredAt, rows[i].event, t, event)
  }

  datatype Issued = Issued(result: Result<Option<Token>, Error>, rows: Rows)

  /** `issue_token_for_event` in one transaction; an error leaves the rows alone. */
  function Issue(s: Settings, rows: Rows, event: string, t: Time, email: nat, purpose: Purpose, now: Time): Issued {
    match FindEvent(rows, event)
    case Some(i) =>
      var row := rows[i];
      if !row.ForPair(email, purpose) then Issued(Err(InvalidToken), rows)
      else if row.usedAt.Some? then Issued(Ok(None), rows)
      else (match s.SecretFor(row.keyId)
        case None => Issued(Err(KeyUnavailable), rows)
        case Some(secret) =>
          var token := Mac(secret, Message(event, email, purpose));
          if Sha256(token) != row.hash then Issued(Err(KeyUnavailable), rows)
          else if row.expiresAt <= now
          then Issued(Ok(Some(token)), rows[i := row.(expiresAt := now + s.TtlFor(purpose))])
          else Issued(Ok(Some(token)), rows))
    case None =>
      if NewerExists(rows, t, event, email, purpose) then Issued(Ok(None), rows)
      else
        var token := Mac(s.secret, Message(event, email, purpose));
        var row := Row(email, purpose, Sha256(token), now + s.TtlFor(purpose), None, event, t, s.keyId);
        Issued(Ok(Some(token)), UseAll(rows, {email}, {purpose}, now) + [row])
  }

  predicate Accepts(row: Row, token: Token, purposes: set<Purpose>, now: Time) {
    row.hash == Sha256(token) && row.purpose in purposes && row.Live(now)
  }

  /** The row a token opens, if any; hashes are unique, see `Inv`. */
  function FindValid(rows: Rows, token: Token, purposes: set<Purpose>, now: Time): (found: Option<nat>)
    ensures found.Some? ==> found.value < |rows| && Accepts(rows[found.value], token, purposes, now)
    ensures found.None? ==> forall i | 0 <= i < |rows| :: !Accepts(rows[i], token, purposes, now)
  {
    if rows == [] then None
    else if Accepts(rows[0], token, purposes, now) then Some(0)
    else match FindValid(rows[1..], token, purposes, now) case None => None case Some(i) => Some(i + 1)
  }

  function Consume(rows: Rows, token: Token, purposes: set<Purpose>, now: Time): Rows {
    match FindValid(rows, token, purposes, now)
    case None => rows
    case Some(i) => rows[i := rows[i].(usedAt := Some(now))]
  }

  // ---- The code --------------------------------------------------------------------------------

  class WorkflowTokenTable {
    var rows: Rows

    method ReplaceActive(row: Row, now: Time)
      modifies this
      ensures rows == UseAll(old(rows), {row.email}, {row.purpose}, now) + [row]
      ensures |rows| == |old(rows)| + 1 && rows[|old(rows)|] == row
      ensures forall i | 0 <= i < |old(rows)| && old(rows)[i].ForPair(row.email, row.purpose) && old(rows)[i].usedAt.None? ::
                rows[i] == old(rows)[i].(usedAt := Some(now))
      ensures forall i | 0 <= i < |old(rows)| && !(old(rows)[i].ForPair(row.email, row.purpose) && old(rows)[i].usedAt.None?) ::
                rows[i] == old(rows)[i]
    {
      rows := UseAll(rows, {row.email}, {row.purpose}, now);
      rows := rows + [row];
    }

    method IssueTokenForEvent(s: Settings, event: string, occurredAt: Time, email: nat, purpose: Purpose, now: Time)
      returns (result: Result<Option<Token>, Error>)
      modifies this
      ensures Issued(result, rows) == Issue(s, old(rows), event, occurredAt, email, purpose, now)
    {
      var existing := FindEvent(rows, event);
      if existing.Some? {
        var i := existing.value;
        var row := rows[i];
        if !row.ForPair(email, purpose) {
          return Err(InvalidToken);
        }
        if row.usedAt.Some? {
          return Ok(None);
        }
        var secret := s.SecretFor(row.keyId);
        if secret.None? {
          return Err(KeyUnavailable);
        }
        var token := Mac(secret.value, Message(event, email, purpose));
        if Sha256(token) != row.hash {
          return Err(KeyUnavailable);
        }
        if row.expiresAt <= now {
          rows := rows[i := row.(expiresAt := now + s.TtlFor(purpose))];
        }
        return Ok(Some(token));
      }
      var token := Mac(s.secret, Message(event, email, purpose));
      if NewerExists(rows, occurredAt, event, email, purpose) {
        return Ok(None);
      }
      ReplaceActive(Row(email, purpose, Sha256(token), now + s.TtlFor(purpose), None, event, occurredAt, s.keyId), now);
      return Ok(Some(token));
    }

    method ConsumeToken(token: Token, purposes: set<Purpose>, now: Time) returns (result: Result<Row, Error>)
      modifies this
      ensures rows == Consume(old(rows), token, purposes, now)
      ensures match FindValid(old(rows), token, purposes, now)
              case None => result == Err(InvalidToken)
              case Some(i) => result == Ok(rows[i]) && rows[i].usedAt == Some(now)
    {
      var found := FindValid(rows, token, purposes, now);
      if found.None? {
        return Err(InvalidToken);
      }
      rows := rows[found.value := rows[found.value].(usedAt := Some(now))];
      return Ok(rows[found.value]);
    }

    method InvalidateActiveCredentialTokens(emails: set<nat>, now: Time)
      modifies this
      ensures |rows| == |old(rows)|
      ensures forall i | 0 <= i < |rows| && rows[i].email in emails && (rows[i].purpose.Invite? || rows[i].purpose.ResetPassword?) ::
                && rows[i].usedAt.Some? && (old(rows)[i].usedAt.None? ==> rows[i].usedAt == Some(now))
                && rows[i].(usedAt := old(rows)[i].usedAt) == old(rows)[i]
      ensures forall i | 0 <= i < |rows| ::
                old(rows)[i].usedAt.Some? || rows[i].email !in emails || rows[i].purpose.VerifyEmail? || rows[i].purpose.EmailChange?
                ==> rows[i] == old(rows)[i]
    {
      rows := UseAll(rows, emails, CREDENTIAL_PURPOSES, now);
    }

    method InvalidateAllActiveTokens(emails: set<nat>, now: Time)
      modifies this
      ensures rows == UseAll(old(rows), emails, EVERY_PURPOSE, now)
      ensures forall i | 0 <= i < |rows| && rows[i].email in emails :: rows[i].usedAt.Some?
    {
      rows := UseAll(rows, emails, EVERY_PURPOSE, now);
      forall p: Purpose ensures p in EVERY_PURPOSE { EveryPurpose(p); }
    }
  }

  // ---- Runs ----------------------------------------------------------------------------------------

  datatype Op =
    | OpIssue(s: Settings, event: string, occurredAt: Time, email: nat, purpose: Purpose, now: Time)
    | OpConsume(token: Token, purposes: set<Purpose>, now: Time)
    | OpInvalidate(emails: set<nat>, purposes: set<Purpose>, now: Time)

  function Apply(rows: Rows, op: Op): Rows {
    match op
    case OpIssue(s, event, t, email, purpose, now) => Issue(s, rows, event, t, email, purpose, now).rows
    case OpConsume(token, purposes, now) => Consume(rows, token, purposes, now)
    case OpInvalidate(emails, purposes, now) => UseAll(rows, emails, purposes, now)
  }

  function Run(rows: Rows, ops: seq<Op>): Rows
    decreases |ops|
  {
    if ops == [] then rows else Run(Apply(rows, ops[0]), ops[1..])
  }

  /** A row is hashed from its own event, address and purpose. */
  predicate OwnHash(row: Row) {
    row.hash.token.Mac? && row.hash.token.message == Message(row.event, row.email, row.purpose)
  }

  /** Event ids are unique. Within a pair, later rows come from newer events, and only the last
      row may be unused. */
  predicate Inv(rows: Rows) {
    && (forall i | 0 <= i < |rows| :: OwnHash(rows[i]))
    && (forall i, j | 0 <= i < j < |rows| :: Ordered(rows[i], rows[j]))
  }

  predicate Ordered(older: Row, later: Row) {
    && older.event != later.event
    && (older.ForPair(later.email, later.purpose) ==> Newer(later, older) && older.usedAt.Some?)
  }

  /** `later` is what row `early` may become. */
  predicate Evolves(early: Row, later: Row) {
    && later.(expiresAt := early.expiresAt, usedAt := early.usedAt) == early
    && (early.usedAt.Some? ==> later == early)
  }

  lemma ApplyEvolves(rows: Rows, op: Op)
    ensures |rows| <= |Apply(rows, op)|
    ensures forall i | 0 <= i < |rows| :: Evolves(rows[i], Apply(rows, op)[i])
  {
  }

  lemma EvolvingKeepsInv(rows: Rows, after: Rows)
    requires Inv(rows) && |after| == |rows|
    requires forall i | 0 <= i < |rows| :: Evolves(rows[i], after[i])
    ensures Inv(after)
  {
    forall i | 0 <= i < |after| ensures OwnHash(after[i]) {
      assert OwnHash(rows[i]) && Evolves(rows[i], after[i]);
    }
    forall i, j | 0 <= i < j < |after| ensures Ordered(after[i], after[j]) {
      assert Ordered(rows[i], rows[j]) && Evolves(rows[i], after[i]) && Evolves(rows[j], after[j]);
    }
  }

  lemma AppendKeepsInv(rows: Rows, row: Row)
    requires Inv(rows) && OwnHash(row)
    requires forall i | 0 <= i < |rows| :: Ordered(rows[i], row)
    ensures Inv(rows + [row])
  {
  }

  lemma ApplyKeepsInv(rows: Rows, op: Op)
    requires Inv(rows)
    ensures Inv(Apply(rows, op))
  {
    ApplyEvolves(rows, op);
    if |Apply(rows, op)| == |rows| {
      EvolvingKeepsInv(rows, Apply(rows, op));
    } else {
      var OpIssue(s, event, t, email, purpose, now) := op;
      var kept, row := UseAll(rows, {email}, {purpose}, now), Apply(rows, op)[|rows|];
      EvolvingKeepsInv(rows, kept);
      forall i | 0 <= i < |kept| ensures Ordered(kept[i], row) {
        LessIsTotal(rows[i].event, event);
        if rows[i].ForPair(email, purpose) {
          assert !After(rows[i].occurredAt, rows[i].event, t, event);
        }
      }
      AppendKeepsInv(kept, row);
    }
  }

  lemma {:induction false} RunKeepsInv(rows: Rows, ops: seq<Op>)
    requires Inv(rows)
    ensures Inv(Run(rows, ops))
    decreases |ops|
  {
    if ops != [] {
      ApplyKeepsInv(rows, ops[0]);
      RunKeepsInv(Apply(rows, ops[0]), ops[1..]);
    }
  }

  /** In every reachable state an address and purpose has at most one unused token, and it comes
      from the newest of all events recorded for that pair, used or not. */
  lemma OneNewestActiveToken(ops: seq<Op>, i: nat, j: nat)
    requires i < |Run([], ops)| && j < |Run([], ops)| && i != j
    requires Run([], ops)[i].usedAt.None? && Run([], ops)[j].ForPair(Run([], ops)[i].email, Run([], ops)[i].purpose)
    ensures Run([], ops)[j].usedAt.Some? && Newer(Run([], ops)[i], Run([], ops)[j])
  {
    RunKeepsInv([], ops);
    var rows := Run([], ops);
    assert if i < j then Ordered(rows[i], rows[j]) else Ordered(rows[j], rows[i]);
  }

  /** The two uniqueness rules of the table are never at risk: no write needs them to fail. */
  lemma UniqueColumnsHold(ops: seq<Op>, i: nat, j: nat)
    requires i < j < |Run([], ops)|
    ensures Run([], ops)[i].event != Run([], ops)[j].event
    ensures Run([], ops)[i].hash != Run([], ops)[j].hash
  {
    RunKeepsInv([], ops);
    HashesDiffer(Run([], ops), i, j);
  }

  lemma EventsDiffer(rows: Rows, i: nat, j: nat)
    requires Inv(rows) && i < |rows| && j < |rows|
    ensures rows[i].event == rows[j].event ==> i == j
  {
    assert i < j ==> Ordered(rows[i], rows[j]);
    assert j < i ==> Ordered(rows[j], rows[i]);
  }

  lemma HashesDiffer(rows: Rows, i: nat, j: nat)
    requires Inv(rows) && i < j < |rows|
    ensures rows[i].event != rows[j].event && rows[i].hash != rows[j].hash
  {
    assert Ordered(rows[i], rows[j]) && OwnHash(rows[i]) && OwnHash(rows[j]);
    if rows[i].hash == rows[j].hash {
      MessageIsInjective(rows[i].event, rows[i].email, rows[i].purpose, rows[j].event, rows[j].email, rows[j].purpose);
    }
  }

  // ---- One token per row, used once -------------------------------------------------------------------

  lemma {:induction false} RunEvolves(rows: Rows, ops: seq<Op>)
    ensures |rows| <= |Run(rows, ops)|
    ensures forall i | 0 <= i < |rows| :: Evolves(rows[i], Run(rows, ops)[i])
    decreases |ops|
  {
    if ops != [] {
      ApplyEvolves(rows, ops[0]);
      var next := Apply(rows, ops[0]);
      RunEvolves(next, ops[1..]);
      forall i | 0 <= i < |rows| ensures Evolves(rows[i], Run(rows, ops)[i]) {
        assert Evolves(rows[i], next[i]) && Evolves(next[i], Run(next, ops[1..])[i]);
      }
    }
  }

  /** A token that was consumed is refused ever after, for any purpose and at any time. */
  lemma ConsumedOnce(before: seq<Op>, token: Token, purposes: set<Purpose>, now: Time, later: seq<Op>,
                     purposes': set<Purpose>, now': Time)
    requires FindValid(Run([], before), token, purposes, now).Some?
    ensures FindValid(Run(Consume(Run([], before), token, purposes, now), later), token, purposes', now').None?
  {
    var rows := Run([], before);
    RunKeepsInv([], before);
    var i := FindValid(rows, token, purposes, now).value;
    var used := Consume(rows, token, purposes, now);
    ApplyKeepsInv(rows, OpConsume(token, purposes, now));
    RunKeepsInv(used, later);
    RunEvolves(used, later);
    var last := Run(used, later);
    assert Evolves(used[i], last[i]);
    var again := FindValid(last, token, purposes', now');
    if again.Some? && again.value != i {
      if i < again.value {
        HashesDiffer(last, i, again.value);
      } else {
        HashesDiffer(last, again.value, i);
      }
    }
  }

  function RowOf(rows: Rows, event: string): nat {
    match FindEvent(rows, event) case Some(i) => i case None => |rows|
  }

  lemma IssuedRowAccepts(s: Settings, rows: Rows, event: string, t: Time, email: nat, purpose: Purpose, now: Time)
    requires s.Valid()
    requires Issue(s, rows, event, t, email, purpose, now).result.Ok?
    requires Issue(s, rows, event, t, email, purpose, now).result.value.Some?
    ensures var out, k := Issue(s, rows, event, t, email, purpose, now), RowOf(rows, event);
            k < |out.rows| && Accepts(out.rows[k], out.result.value.value, {purpose}, now)
            && out.rows[k].event == event && out.rows[k].ForPair(email, purpose)
  {
  }

  /** Every token handed out opens its own row at that moment. */
  lemma IssuedTokenIsAccepted(s: Settings, ops: seq<Op>, event: string, t: Time, email: nat, purpose: Purpose, now: Time)
    requires s.Valid()
    requires Issue(s, Run([], ops), event, t, email, purpose, now).result.Ok?
    requires Issue(s, Run([], ops), event, t, email, purpose, now).result.value.Some?
    ensures var out := Issue(s, Run([], ops), event, t, email, purpose, now);
            var found := FindValid(out.rows, out.result.value.value, {purpose}, now);
            found.Some? && out.rows[found.value].event == event && out.rows[found.value].ForPair(email, purpose)
  {
    var rows := Run([], ops);
    RunKeepsInv([], ops);
    IssuedRowAccepts(s, rows, event, t, email, purpose, now);
    ApplyKeepsInv(rows, OpIssue(s, event, t, email, purpose, now));
    var out := Issue(s, rows, event, t, email, purpose, now);
    AcceptedIsFound(out.rows, RowOf(rows, event), out.result.value.value, {purpose}, now);
  }

  lemma AcceptedIsFound(rows: Rows, k: nat, token: Token, purposes: set<Purpose>, now: Time)
    requires Inv(rows) && k < |rows| && Accepts(rows[k], token, purposes, now)
    ensures FindValid(rows, token, purposes, now) == Some(k)
  {
    var found := FindValid(rows, token, purposes, now).value;
    if found < k {
      HashesDiffer(rows, found, k);
    } else if k < found {
      HashesDiffer(rows, k, found);
    }
  }

  /** Confirmations live as long as configured for verification, invitations and resets have their own
      lifetimes. */
  function Lifetime(s: Settings, purpose: Purpose): Time {
    match purpose
    case VerifyEmail => s.verifyTtl
    case EmailChange => s.verifyTtl
    case Invite => s.inviteTtl
    case ResetPassword => s.resetTtl
  }

  /** A handed-out token is accepted up to, and not from, its expiry: one lifetime of its purpose from
      the issue, or from the renewal if the row had expired by then. */
  lemma IssuedTokenLifetime(s: Settings, ops: seq<Op>, event: string, t: Time, email: nat, purpose: Purpose, now: Time, at: Time)
    requires s.Valid()
    requires Issue(s, Run([], ops), event, t, email, purpose, now).result.Ok?
    requires Issue(s, Run([], ops), event, t, email, purpose, now).result.value.Some?
    ensures var rows := Run([], ops);
            var out, before := Issue(s, rows, event, t, email, purpose, now), FindEvent(rows, event);
            var expiry := if before.Some? && now < rows[before.value].expiresAt then rows[before.value].expiresAt
                          else now + Lifetime(s, purpose);
            FindValid(out.rows, out.result.value.value, {purpose}, at).Some? <==> at < expiry
  {
    var rows := Run([], ops);
    var out := Issue(s, rows, event, t, email, purpose, now);
    RunKeepsInv([], ops);
    ApplyKeepsInv(rows, OpIssue(s, event, t, email, purpose, now));
    IssuedRowAccepts(s, rows, event, t, email, purpose, now);
    var k := RowOf(rows, event);
    IssuedRowExpiry(s, rows, event, t, email, purpose, now);
    var found := FindValid(out.rows, out.result.value.value, {purpose}, at);
    if found.Some? && found.value < k {
      HashesDiffer(out.rows, found.value, k);
    } else if found.Some? && k < found.value {
      HashesDiffer(out.rows, k, found.value);
    }
    assert at < out.rows[k].expiresAt ==> Accepts(out.rows[k], out.result.value.value, {purpose}, at);
  }

  lemma IssuedRowExpiry(s: Settings, rows: Rows, event: string, t: Time, email: nat, purpose: Purpose, now: Time)
    requires Issue(s, rows, event, t, email, purpose, now).result.Ok?
    requires Issue(s, rows, event, t, email, purpose, now).result.value.Some?
    ensures var out, k := Issue(s, rows, event, t, email, purpose, now), RowOf(rows, event);
            k < |out.rows| && out.rows[k].expiresAt
              == if k < |rows| && now < rows[k].expiresAt then rows[k].expiresAt else now + Lifetime(s, purpose)
  {
  }

  /** A token redeems exactly if some unused, unexpired row of a wanted purpose was hashed from it. */
  lemma RedeemedExactlyWhen(rows: Rows, token: Token, purposes: set<Purpose>, now: Time)
    ensures FindValid(rows, token, purposes, now).Some? <==>
              exists i :: 0 <= i < |rows| && rows[i].hash == Sha256(token) && rows[i].purpose in purposes
                && rows[i].usedAt == None && now < rows[i].expiresAt
  {
    assert forall i | 0 <= i < |rows| :: Accepts(rows[i], token, purposes, now) <==>
      rows[i].hash == Sha256(token) && rows[i].purpose in purposes && rows[i].usedAt == None && now < rows[i].expiresAt;
  }

  /** The row's token under the key it was issued with, if that key is still there and still the same. */
  predicate Derivable(s: Settings, row: Row) {
    s.SecretFor(row.keyId).Some? && row.hash == Sha256(Mac(s.SecretFor(row.keyId).value, Message(row.event, row.email, row.purpose)))
  }

  /** An event with a row: refused for another pair, nothing once it was used, a key error if its token
      cannot be derived any more, and else its token. */
  lemma ReissueAnswersExactly(s: Settings, rows: Rows, i: nat, t: Time, email: nat, purpose: Purpose, now: Time)
    requires Inv(rows) && i < |rows|
    ensures var row, result := rows[i], Issue(s, rows, rows[i].event, t, email, purpose, now).result;
            var own := row.email == email && row.purpose == purpose;
            && (result == Err(InvalidToken) <==> !own)
            && (result == Ok(None) <==> own && row.usedAt.Some?)
            && (result == Err(KeyUnavailable) <==> own && row.usedAt.None? && !Derivable(s, row))
            && (own && row.usedAt.None? && Derivable(s, row) ==>
                  result == Ok(Some(Mac(s.SecretFor(row.keyId).value, Message(row.event, email, purpose)))))
  {
    EventsDiffer(rows, i, FindEvent(rows, rows[i].event).value);
  }

  /** An event without a row: nothing if its pair has a newer event, and else a token under the active
      key. */
  lemma FirstIssueAnswersExactly(s: Settings, rows: Rows, event: string, t: Time, email: nat, purpose: Purpose, now: Time)
    requires forall i | 0 <= i < |rows| :: rows[i].event != event
    ensures var result := Issue(s, rows, event, t, email, purpose, now).result;
            if exists i :: 0 <= i < |rows| && rows[i].email == email && rows[i].purpose == purpose
                 && (rows[i].occurredAt > t || (rows[i].occurredAt == t && Less(event, rows[i].event)))
            then result == Ok(None)
            else result == Ok(Some(Mac(s.secret, Message(event, email, purpose))))
  {
  }

  /** A retry of an event whose row is still unused gives the same token under any keyring that
      still resolves the row's key to the same secret; a used row gives none. */
  lemma RetryReproducesToken(s: Settings, rows: Rows, event: string, t: Time, email: nat, purpose: Purpose, now: Time,
                             later: seq<Op>, s': Settings, t': Time, now': Time)
    requires Inv(rows) && FindEvent(rows, event).None?
    requires Issue(s, rows, event, t, email, purpose, now).result.Ok?
    requires Issue(s, rows, event, t, email, purpose, now).result.value.Some?
    requires s'.SecretFor(s.keyId) == Some(s.secret)
    ensures var first := Issue(s, rows, event, t, email, purpose, now);
            var reached := Run(first.rows, later);
            var retry := Issue(s', reached, event, t', email, purpose, now');
            |rows| < |reached| &&
            retry.result == Ok(if reached[|rows|].usedAt.Some? then None else first.result.value)
  {
    var first := Issue(s, rows, event, t, email, purpose, now);
    ApplyKeepsInv(rows, OpIssue(s, event, t, email, purpose, now));
    RunKeepsInv(first.rows, later);
    RunEvolves(first.rows, later);
    var reached := Run(first.rows, later);
    var n := |rows|;
    assert Evolves(first.rows[n], reached[n]);
    EventsDiffer(reached, n, FindEvent(reached, event).value);
  }

  // ---- The newest event wins, in whatever order events are handled --------------------------------------

  /** Where an event comes from. Event ids are unique, so this is a function of the id. */
  datatype Origin = Origin(occurredAt: Time, email: nat, purpose: Purpose)

  type Directory = string -> Origin

  predicate ForPair(origin: Origin, email: nat, purpose: Purpose) {
    origin.email == email && origin.purpose == purpose
  }

  predicate IssuesFollow(op: Op, d: Directory) {
    op.OpIssue? ==> d(op.event) == Origin(op.occurredAt, op.email, op.purpose)
  }

  /** A token of the pair: one that signs its message, under whatever key. */
  ghost predicate OpensPair(token: Token, email: nat, purpose: Purpose) {
    token.Mac? && exists event :: token.message == Message(event, email, purpose)
  }

  /** Issues follow the directory, for this pair and all others. Nobody redeems a token of this pair
      under its purpose, and no invalidation covers it. */
  ghost predicate Spares(op: Op, d: Directory, email: nat, purpose: Purpose) {
    match op
    case OpIssue(_, _, _, _, _, _) => IssuesFollow(op, d)
    case OpConsume(token, purposes, _) => purpose !in purposes || !OpensPair(token, email, purpose)
    case OpInvalidate(emails, purposes, _) => email !in emails || purpose !in purposes
  }

  /** The events handled for the pair. */
  function Handled(ops: seq<Op>, d: Directory, email: nat, purpose: Purpose): set<string> {
    set k | 0 <= k < |ops| && ops[k].OpIssue? && ForPair(d(ops[k].event), email, purpose) :: ops[k].event
  }

  predicate IsNewest(event: string, events: set<string>, d: Directory) {
    && event in events
    && forall e | e in events && e != event :: After(d(event).occurredAt, event, d(e).occurredAt, e)
  }

  predicate FromDirectory(row: Row, d: Directory) {
    d(row.event) == Origin(row.occurredAt, row.email, row.purpose)
  }

  /** The row of the newest event. `spent` are the events whose rows were used from the start: a
      lead is used only if it is one of those. */
  predicate Leads(row: Row, d: Directory, email: nat, purpose: Purpose, events: set<string>, spent: set<string>) {
    row.ForPair(email, purpose) && IsNewest(row.event, events, d) && (row.usedAt.Some? <==> row.event in spent)
  }

  predicate HasLead(rows: Rows, d: Directory, email: nat, purpose: Purpose, events: set<string>, spent: set<string>) {
    exists k :: 0 <= k < |rows| && Leads(rows[k], d, email, purpose, events, spent)
  }

  predicate OnRecord(rows: Rows, event: string) {
    exists i :: 0 <= i < |rows| && rows[i].event == event
  }

  /** The pair's rows come from known events, and one of them carries the newest. */
  predicate Led(rows: Rows, d: Directory, email: nat, purpose: Purpose, events: set<string>, spent: set<string>) {
    && (forall i | 0 <= i < |rows| :: FromDirectory(rows[i], d))
    && (forall i | 0 <= i < |rows| && rows[i].ForPair(email, purpose) :: rows[i].event in events)
    && (forall e | e in spent :: OnRecord(rows, e))
    && (events != {} ==> HasLead(rows, d, email, purpose, events, spent))
  }

  lemma AfterIsTransitive(t: Time, a: string, t': Time, b: string, t'': Time, c: string)
    requires After(t, a, t', b) && After(t', b, t'', c)
    ensures After(t, a, t'', c)
  {
    if t == t' == t'' {
      LessIsTransitive(c, b, a);
    }
  }

  lemma RecordsStay(rows: Rows, after: Rows, spent: set<string>)
    requires |rows| <= |after| && forall i | 0 <= i < |rows| :: Evolves(rows[i], after[i])
    requires forall e | e in spent :: OnRecord(rows, e)
    ensures forall e | e in spent :: OnRecord(after, e)
  {
    forall e | e in spent ensures OnRecord(after, e) {
      var i :| 0 <= i < |rows| && rows[i].event == e;
      assert Evolves(rows[i], after[i]);
    }
  }

  /** The lead survives whatever leaves the pair's rows used or unused as they were. */
  lemma SparedKeepsLead(rows: Rows, after: Rows, d: Directory, email: nat, purpose: Purpose, events: set<string>, spent: set<string>)
    requires Led(rows, d, email, purpose, events, spent) && |rows| <= |after|
    requires forall i | 0 <= i < |rows| ::
               Evolves(rows[i], after[i]) && (rows[i].ForPair(email, purpose) ==> after[i].usedAt == rows[i].usedAt)
    requires forall i | |rows| <= i < |after| :: FromDirectory(after[i], d) && !after[i].ForPair(email, purpose)
    ensures Led(after, d, email, purpose, events, spent)
  {
    forall i | 0 <= i < |after|
      ensures FromDirectory(after[i], d) && (after[i].ForPair(email, purpose) ==> after[i].event in events)
    {
      if i < |rows| {
        assert Evolves(rows[i], after[i]) && FromDirectory(rows[i], d);
      }
    }
    RecordsStay(rows, after, spent);
    if events != {} {
      var k :| 0 <= k < |rows| && Leads(rows[k], d, email, purpose, events, spent);
      assert Evolves(rows[k], after[k]) && Leads(after[k], d, email, purpose, events, spent);
    }
  }

  /** An event that is on record, or older than one on record, changes no lead. */
  lemma OldEventKeepsLead(rows: Rows, i: nat, event: string, d: Directory, email: nat, purpose: Purpose, events: set<string>, spent: set<string>)
    requires Led(rows, d, email, purpose, events, spent)
    requires i < |rows| && rows[i].ForPair(email, purpose)
    requires rows[i].event == event || After(rows[i].occurredAt, rows[i].event, d(event).occurredAt, event)
    ensures Led(rows, d, email, purpose, events + {event}, spent)
  {
    assert rows[i].event in events && FromDirectory(rows[i], d);
    var k :| 0 <= k < |rows| && Leads(rows[k], d, email, purpose, events, spent);
    var lead := rows[k].event;
    assert FromDirectory(rows[k], d);
    if lead != event && rows[i].event != event && rows[i].event != lead {
      AfterIsTransitive(d(lead).occurredAt, lead, d(rows[i].event).occurredAt, rows[i].event, d(event).occurredAt, event);
    }
    assert IsNewest(lead, events + {event}, d);
    assert Leads(rows[k], d, email, purpose, events + {event}, spent);
  }

  /** An event newer than every row of its pair is newer than every handled event. */
  lemma NewEventIsNewest(rows: Rows, event: string, d: Directory, email: nat, purpose: Purpose, events: set<string>, spent: set<string>)
    requires Led(rows, d, email, purpose, events, spent)
    requires !NewerExists(rows, d(event).occurredAt, event, email, purpose)
    requires forall i | 0 <= i < |rows| :: rows[i].event != event
    ensures IsNewest(event, events + {event}, d)
  {
    if events != {} {
      var k :| 0 <= k < |rows| && Leads(rows[k], d, email, purpose, events, spent);
      var lead := rows[k].event;
      assert FromDirectory(rows[k], d);
      LessIsTotal(lead, event);
      forall e | e in events && e != event ensures After(d(event).occurredAt, event, d(e).occurredAt, e) {
        if e != lead {
          AfterIsTransitive(d(event).occurredAt, event, d(lead).occurredAt, lead, d(e).occurredAt, e);
        }
      }
    }
  }

  lemma IssueKeepsLead(rows: Rows, op: Op, d: Directory, email: nat, purpose: Purpose, events: set<string>, spent: set<string>)
    requires Led(rows, d, email, purpose, events, spent)
    requires op.OpIssue? && d(op.event) == Origin(op.occurredAt, email, purpose)
    requires op.email == email && op.purpose == purpose
    ensures Led(Apply(rows, op), d, email, purpose, events + {op.event}, spent)
  {
    var found := FindEvent(rows, op.event);
    if found.Some? {
      RetryKeepsLead(rows, found.value, op, d, email, purpose, events, spent);
    } else if NewerExists(rows, op.occurredAt, op.event, email, purpose) {
      assert Apply(rows, op) == rows;
      var i :| 0 <= i < |rows| && rows[i].ForPair(email, purpose)
               && After(rows[i].occurredAt, rows[i].event, op.occurredAt, op.event);
      OldEventKeepsLead(rows, i, op.event, d, email, purpose, events, spent);
    } else {
      ApplyEvolves(rows, op);
      NewEventIsNewest(rows, op.event, d, email, purpose, events, spent);
      assert op.event !in spent;
      InsertedLeads(rows, Apply(rows, op), d, email, purpose, events, spent, op.event);
    }
  }

  lemma RetryKeepsLead(rows: Rows, i: nat, op: Op, d: Directory, email: nat, purpose: Purpose, events: set<string>, spent: set<string>)
    requires Led(rows, d, email, purpose, events, spent)
    requires op.OpIssue? && d(op.event) == Origin(op.occurredAt, email, purpose)
    requires FindEvent(rows, op.event) == Some(i)
    ensures Led(Apply(rows, op), d, email, purpose, events + {op.event}, spent)
  {
    assert FromDirectory(rows[i], d);
    var after := Apply(rows, op);
    ApplyEvolves(rows, op);
    assert forall j | 0 <= j < |rows| :: after[j].usedAt == rows[j].usedAt;
    SparedKeepsLead(rows, after, d, email, purpose, events, spent);
    assert Evolves(rows[i], after[i]);
    OldEventKeepsLead(after, i, op.event, d, email, purpose, events, spent);
  }

  lemma InsertedLeads(rows: Rows, after: Rows, d: Directory, email: nat, purpose: Purpose, events: set<string>, spent: set<string>, event: string)
    requires Led(rows, d, email, purpose, events, spent) && |after| == |rows| + 1
    requires forall i | 0 <= i < |rows| :: Evolves(rows[i], after[i])
    requires FromDirectory(after[|rows|], d) && after[|rows|].event == event
    requires Leads(after[|rows|], d, email, purpose, events + {event}, spent)
    ensures Led(after, d, email, purpose, events + {event}, spent)
  {
    forall i | 0 <= i < |rows|
      ensures FromDirectory(after[i], d) && (after[i].ForPair(email, purpose) ==> after[i].event in events)
    {
      assert Evolves(rows[i], after[i]) && FromDirectory(rows[i], d);
    }
    RecordsStay(rows, after, spent);
  }

  /** Issues for other pairs, and the other operations when they spare the pair, change nothing here. */
  lemma OtherOpKeepsLead(rows: Rows, op: Op, d: Directory, email: nat, purpose: Purpose, events: set<string>, spent: set<string>)
    requires Inv(rows) && Led(rows, d, email, purpose, events, spent) && Spares(op, d, email, purpose)
    requires op.OpIssue? ==> !ForPair(d(op.event), email, purpose)
    ensures Led(Apply(rows, op), d, email, purpose, events, spent)
  {
    ApplyEvolves(rows, op);
    OtherOpSpares(rows, op, d, email, purpose);
    SparedKeepsLead(rows, Apply(rows, op), d, email, purpose, events, spent);
  }

  /** The token that opens a row of the pair is a token of the pair. */
  lemma AcceptedTokenOpensPair(rows: Rows, i: nat, token: Token, purposes: set<Purpose>, now: Time)
    requires Inv(rows) && i < |rows| && Accepts(rows[i], token, purposes, now)
    ensures OpensPair(token, rows[i].email, rows[i].purpose) && rows[i].purpose in purposes
  {
    assert OwnHash(rows[i]);
  }

  /** What a step does to the pair's rows when it leaves the pair alone. */
  predicate LeavesPair(rows: Rows, after: Rows, d: Directory, email: nat, purpose: Purpose) {
    && |rows| <= |after|
    && (forall i | 0 <= i < |rows| && rows[i].ForPair(email, purpose) :: after[i].usedAt == rows[i].usedAt)
    && (forall i | |rows| <= i < |after| :: FromDirectory(after[i], d) && !after[i].ForPair(email, purpose))
  }

  lemma ConsumeSpares(rows: Rows, token: Token, purposes: set<Purpose>, now: Time, d: Directory, email: nat, purpose: Purpose)
    requires Inv(rows) && (purpose !in purposes || !OpensPair(token, email, purpose))
    ensures LeavesPair(rows, Consume(rows, token, purposes, now), d, email, purpose)
  {
    var found := FindValid(rows, token, purposes, now);
    if found.Some? {
      AcceptedTokenOpensPair(rows, found.value, token, purposes, now);
    }
  }

  lemma IssueElsewhereSpares(rows: Rows, op: Op, d: Directory, email: nat, purpose: Purpose)
    requires op.OpIssue? && IssuesFollow(op, d) && !ForPair(d(op.event), email, purpose)
    ensures LeavesPair(rows, Apply(rows, op), d, email, purpose)
  {
  }

  lemma OtherOpSpares(rows: Rows, op: Op, d: Directory, email: nat, purpose: Purpose)
    requires Inv(rows) && Spares(op, d, email, purpose)
    requires op.OpIssue? ==> !ForPair(d(op.event), email, purpose)
    ensures LeavesPair(rows, Apply(rows, op), d, email, purpose)
  {
    match op
    case OpIssue(_, _, _, _, _, _) => IssueElsewhereSpares(rows, op, d, email, purpose);
    case OpConsume(token, purposes, now) => ConsumeSpares(rows, token, purposes, now, d, email, purpose);
    case OpInvalidate(_, _, _) =>
  }

  lemma {:induction false} RunKeepsLead(rows: Rows, ops: seq<Op>, d: Directory, email: nat, purpose: Purpose, events: set<string>, spent: set<string>)
    requires Inv(rows) && Led(rows, d, email, purpose, events, spent)
    requires forall k | 0 <= k < |ops| :: Spares(ops[k], d, email, purpose)
    ensures Inv(Run(rows, ops)) && Led(Run(rows, ops), d, email, purpose, events + Handled(ops, d, email, purpose), spent)
    decreases |ops|
  {
    if ops == [] {
      assert events + Handled(ops, d, email, purpose) == events;
    } else {
      var op, rest := ops[0], ops[1..];
      ApplyKeepsInv(rows, op);
      var ours := op.OpIssue? && ForPair(d(op.event), email, purpose);
      var handled := if ours then events + {op.event} else events;
      if ours {
        IssueKeepsLead(rows, op, d, email, purpose, events, spent);
      } else {
        OtherOpKeepsLead(rows, op, d, email, purpose, events, spent);
      }
      RunKeepsLead(Apply(rows, op), rest, d, email, purpose, handled, spent);
      HandledStep(ops, d, email, purpose);
      assert events + Handled(ops, d, email, purpose) == handled + Handled(rest, d, email, purpose);
    }
  }

  lemma HandledStep(ops: seq<Op>, d: Directory, email: nat, purpose: Purpose)
    requires ops != []
    ensures Handled(ops, d, email, purpose) == Handled(ops[1..], d, email, purpose) +
              if ops[0].OpIssue? && ForPair(d(ops[0].event), email, purpose) then {ops[0].event} else {}
  {
    forall e | e in Handled(ops, d, email, purpose)
      ensures e in Handled(ops[1..], d, email, purpose)
           || (ops[0].OpIssue? && ForPair(d(ops[0].event), email, purpose) && e == ops[0].event)
    {
      var k :| 0 <= k < |ops| && ops[k].OpIssue? && ForPair(d(ops[k].event), email, purpose) && ops[k].event == e;
      if k > 0 {
        assert ops[1..][k - 1] == ops[k];
      }
    }
    forall e | e in Handled(ops[1..], d, email, purpose) ensures e in Handled(ops, d, email, purpose) {
      var k :| 0 <= k < |ops[1..]| && ops[1..][k].OpIssue? && ForPair(d(ops[1..][k].event), email, purpose)
               && ops[1..][k].event == e;
      assert ops[k + 1] == ops[1..][k];
    }
  }

  /** The unused tokens of a pair. */
  function Unused(rows: Rows, email: nat, purpose: Purpose): set<nat> {
    set k: nat | k < |rows| && rows[k].ForPair(email, purpose) && rows[k].usedAt.None?
  }

  /** The events on record for a pair, and those of them whose token is already used. */
  function Recorded(rows: Rows, email: nat, purpose: Purpose): set<string> {
    set k | 0 <= k < |rows| && rows[k].ForPair(email, purpose) :: rows[k].event
  }

  function RecordedUsed(rows: Rows, email: nat, purpose: Purpose): set<string> {
    set k | 0 <= k < |rows| && rows[k].ForPair(email, purpose) && rows[k].usedAt.Some? :: rows[k].event
  }

  /** The last row of a pair, if it has any, is newer than all its others. */
  lemma {:induction false} LastOfPair(rows: Rows, n: nat, email: nat, purpose: Purpose) returns (k: nat)
    requires n <= |rows| && exists i :: 0 <= i < n && rows[i].ForPair(email, purpose)
    ensures k < n && rows[k].ForPair(email, purpose)
    ensures forall i | k < i < n :: !rows[i].ForPair(email, purpose)
  {
    if rows[n - 1].ForPair(email, purpose) {
      k := n - 1;
    } else {
      k := LastOfPair(rows, n - 1, email, purpose);
    }
  }

  lemma LastIsNewest(rows: Rows, k: nat, d: Directory, email: nat, purpose: Purpose)
    requires Inv(rows) && forall i | 0 <= i < |rows| :: FromDirectory(rows[i], d)
    requires k < |rows| && rows[k].ForPair(email, purpose) && forall i | k < i < |rows| :: !rows[i].ForPair(email, purpose)
    ensures IsNewest(rows[k].event, Recorded(rows, email, purpose), d)
    ensures rows[k].usedAt.Some? <==> rows[k].event in RecordedUsed(rows, email, purpose)
  {
    assert FromDirectory(rows[k], d);
    forall e | e in Recorded(rows, email, purpose) && e != rows[k].event
      ensures After(d(rows[k].event).occurredAt, rows[k].event, d(e).occurredAt, e)
    {
      var i :| 0 <= i < |rows| && rows[i].ForPair(email, purpose) && rows[i].event == e;
      assert FromDirectory(rows[i], d) && Ordered(rows[i], rows[k]);
    }
    UsedIsRecorded(rows, k, email, purpose);
  }

  /** Any reachable table is led by what it has on record. */
  lemma StartsLed(rows: Rows, d: Directory, email: nat, purpose: Purpose)
    requires Inv(rows) && forall i | 0 <= i < |rows| :: FromDirectory(rows[i], d)
    ensures Led(rows, d, email, purpose, Recorded(rows, email, purpose), RecordedUsed(rows, email, purpose))
  {
    if Recorded(rows, email, purpose) != {} {
      var e :| e in Recorded(rows, email, purpose);
      var i :| 0 <= i < |rows| && rows[i].ForPair(email, purpose) && rows[i].event == e;
      var k := LastOfPair(rows, |rows|, email, purpose);
      LastIsNewest(rows, k, d, email, purpose);
      assert Leads(rows[k], d, email, purpose, Recorded(rows, email, purpose), RecordedUsed(rows, email, purpose));
    }
  }

  lemma {:induction false} RunFollows(rows: Rows, ops: seq<Op>, d: Directory)
    requires forall i | 0 <= i < |rows| :: FromDirectory(rows[i], d)
    requires forall k | 0 <= k < |ops| :: IssuesFollow(ops[k], d)
    ensures forall i | 0 <= i < |Run(rows, ops)| :: FromDirectory(Run(rows, ops)[i], d)
    decreases |ops|
  {
    if ops != [] {
      ApplyEvolves(rows, ops[0]);
      forall i | 0 <= i < |Apply(rows, ops[0])| ensures FromDirectory(Apply(rows, ops[0])[i], d) {
        if i < |rows| {
          assert Evolves(rows[i], Apply(rows, ops[0])[i]) && FromDirectory(rows[i], d);
        } else {
          assert IssuesFollow(ops[0], d);
        }
      }
      RunFollows(Apply(rows, ops[0]), ops[1..], d);
    }
  }

  lemma PairIsOrdered(rows: Rows, i: nat, j: nat)
    requires Inv(rows) && i < j < |rows| && rows[i].ForPair(rows[j].email, rows[j].purpose)
    ensures Newer(rows[j], rows[i]) && rows[i].usedAt.Some?
  {
    assert Ordered(rows[i], rows[j]);
  }

  lemma OlderIsUsed(rows: Rows, i: nat, j: nat)
    requires Inv(rows) && i < |rows| && j < |rows| && rows[i].ForPair(rows[j].email, rows[j].purpose)
    requires Newer(rows[j], rows[i])
    ensures rows[i].usedAt.Some?
  {
    LessIsTotal(rows[i].event, rows[j].event);
    if i < j {
      PairIsOrdered(rows, i, j);
    } else if j < i {
      PairIsOrdered(rows, j, i);
    }
  }

  lemma OnlyTheNewestIsUnused(rows: Rows, k: nat, d: Directory, email: nat, purpose: Purpose, events: set<string>, spent: set<string>)
    requires Inv(rows) && Led(rows, d, email, purpose, events, spent)
    requires k < |rows| && Leads(rows[k], d, email, purpose, events, spent)
    ensures Unused(rows, email, purpose) == if rows[k].event in spent then {} else {k}
  {
    forall j: nat | j in Unused(rows, email, purpose) ensures j == k {
      assert FromDirectory(rows[j], d) && FromDirectory(rows[k], d) && rows[j].event in events;
      if rows[j].event != rows[k].event {
        OlderIsUsed(rows, j, k);
      }
      EventsDiffer(rows, j, k);
    }
  }

  lemma EvolvedKeepsLead(rows: Rows, after: Rows, d: Directory, email: nat, purpose: Purpose, events: set<string>, spent: set<string>)
    requires Led(rows, d, email, purpose, events, spent) && Inv(after) && |rows| <= |after|
    requires forall i | 0 <= i < |rows| :: Evolves(rows[i], after[i])
    requires forall i | |rows| <= i < |after| :: FromDirectory(after[i], d) && !after[i].ForPair(email, purpose)
    ensures Led(after, d, email, purpose, events, RecordedUsed(after, email, purpose))
  {
    forall i | 0 <= i < |after|
      ensures FromDirectory(after[i], d) && (after[i].ForPair(email, purpose) ==> after[i].event in events)
    {
      if i < |rows| {
        assert Evolves(rows[i], after[i]) && FromDirectory(rows[i], d);
      }
    }
    if events != {} {
      var k :| 0 <= k < |rows| && Leads(rows[k], d, email, purpose, events, spent);
      assert Evolves(rows[k], after[k]);
      UsedIsRecorded(after, k, email, purpose);
      assert Leads(after[k], d, email, purpose, events, RecordedUsed(after, email, purpose));
    }
  }

  lemma TailIsElsewhere(rows: Rows, op: Op, d: Directory, email: nat, purpose: Purpose)
    requires IssuesFollow(op, d) && (op.OpIssue? ==> !ForPair(d(op.event), email, purpose))
    ensures forall i | |rows| <= i < |Apply(rows, op)| ::
              FromDirectory(Apply(rows, op)[i], d) && !Apply(rows, op)[i].ForPair(email, purpose)
  {
    if op.OpIssue? {
      IssueElsewhereSpares(rows, op, d, email, purpose);
    }
  }

  /** With other tokens or this pair's own redeemed or invalidated, the newest event still leads; only
      whether its row is used may change. */
  lemma AnyOpKeepsLead(rows: Rows, op: Op, d: Directory, email: nat, purpose: Purpose, events: set<string>, spent: set<string>)
    requires Inv(rows) && Led(rows, d, email, purpose, events, spent) && IssuesFollow(op, d)
    requires op.OpIssue? ==> !ForPair(d(op.event), email, purpose)
    ensures Led(Apply(rows, op), d, email, purpose, events, RecordedUsed(Apply(rows, op), email, purpose))
  {
    ApplyEvolves(rows, op);
    ApplyKeepsInv(rows, op);
    TailIsElsewhere(rows, op, d, email, purpose);
    EvolvedKeepsLead(rows, Apply(rows, op), d, email, purpose, events, spent);
  }

  lemma UsedIsRecorded(rows: Rows, k: nat, email: nat, purpose: Purpose)
    requires Inv(rows) && k < |rows| && rows[k].ForPair(email, purpose)
    ensures rows[k].usedAt.Some? <==> rows[k].event in RecordedUsed(rows, email, purpose)
  {
    if rows[k].event in RecordedUsed(rows, email, purpose) {
      var i :| 0 <= i < |rows| && rows[i].ForPair(email, purpose) && rows[i].usedAt.Some? && rows[i].event == rows[k].event;
      EventsDiffer(rows, i, k);
    }
  }

  lemma {:induction false} AnyRunKeepsLead(rows: Rows, ops: seq<Op>, d: Directory, email: nat, purpose: Purpose, events: set<string>, spent: set<string>)
    returns (spent': set<string>)
    requires Inv(rows) && Led(rows, d, email, purpose, events, spent)
    requires forall k | 0 <= k < |ops| :: IssuesFollow(ops[k], d)
    ensures Inv(Run(rows, ops)) && Led(Run(rows, ops), d, email, purpose, events + Handled(ops, d, email, purpose), spent')
    decreases |ops|
  {
    if ops == [] {
      assert events + Handled(ops, d, email, purpose) == events;
      spent' := spent;
    } else {
      var op, rest := ops[0], ops[1..];
      assert IssuesFollow(op, d);
      ApplyKeepsInv(rows, op);
      HandledStep(ops, d, email, purpose);
      if op.OpIssue? && ForPair(d(op.event), email, purpose) {
        IssueKeepsLead(rows, op, d, email, purpose, events, spent);
        spent' := AnyRunKeepsLead(Apply(rows, op), rest, d, email, purpose, events + {op.event}, spent);
        assert events + {op.event} + Handled(rest, d, email, purpose) == events + Handled(ops, d, email, purpose);
      } else {
        AnyOpKeepsLead(rows, op, d, email, purpose, events, spent);
        spent' := AnyRunKeepsLead(Apply(rows, op), rest, d, email, purpose, events, RecordedUsed(Apply(rows, op), email, purpose));
        assert events + Handled(rest, d, email, purpose) == events + Handled(ops, d, email, purpose);
      }
    }
  }

  lemma UnusedLeads(rows: Rows, j: nat, d: Directory, email: nat, purpose: Purpose, events: set<string>, spent: set<string>)
    requires Inv(rows) && Led(rows, d, email, purpose, events, spent) && j in Unused(rows, email, purpose)
    ensures IsNewest(rows[j].event, events, d)
  {
    assert rows[j].event in events;
    var k :| 0 <= k < |rows| && Leads(rows[k], d, email, purpose, events, spent);
    OnlyTheNewestIsUnused(rows, k, d, email, purpose, events, spent);
  }

  /** After any operations at all, tokens of the pair redeemed and invalidated among them, a token of
      the pair that is still unused is the one of the newest event on record before or handled since. */
  lemma UnusedIsNewest(before: seq<Op>, ops: seq<Op>, d: Directory, email: nat, purpose: Purpose, j: nat)
    requires forall i | 0 <= i < |before| :: IssuesFollow(before[i], d)
    requires forall i | 0 <= i < |ops| :: IssuesFollow(ops[i], d)
    requires j in Unused(Run(Run([], before), ops), email, purpose)
    ensures IsNewest(Run(Run([], before), ops)[j].event,
                     Recorded(Run([], before), email, purpose) + Handled(ops, d, email, purpose), d)
  {
    var start := Run([], before);
    RunKeepsInv([], before);
    RunFollows([], before, d);
    StartsLed(start, d, email, purpose);
    var recorded := Recorded(start, email, purpose);
    var spent := AnyRunKeepsLead(start, ops, d, email, purpose, recorded, RecordedUsed(start, email, purpose));
    UnusedLeads(Run(start, ops), j, d, email, purpose, recorded + Handled(ops, d, email, purpose), spent);
  }

  /** From any reachable table, handle any events of a pair, in any order and with any repetitions,
      while other tokens are issued, redeemed and invalidated. One row then carries the newest of the
      pair's events, on record before or handled now. No other token of the pair is unused, and this
      one is, unless it was used before. */
  lemma NewestEventWins(before: seq<Op>, ops: seq<Op>, d: Directory, email: nat, purpose: Purpose) returns (k: nat)
    requires forall i | 0 <= i < |before| :: IssuesFollow(before[i], d)
    requires forall i | 0 <= i < |ops| :: Spares(ops[i], d, email, purpose)
    requires Recorded(Run([], before), email, purpose) + Handled(ops, d, email, purpose) != {}
    ensures var start := Run([], before);
            var rows, events := Run(start, ops), Recorded(start, email, purpose) + Handled(ops, d, email, purpose);
            && k < |rows| && rows[k].ForPair(email, purpose) && IsNewest(rows[k].event, events, d)
            && Unused(rows, email, purpose) == if rows[k].event in RecordedUsed(start, email, purpose) then {} else {k}
  {
    var start := Run([], before);
    RunKeepsInv([], before);
    RunFollows([], before, d);
    StartsLed(start, d, email, purpose);
    var recorded, spent := Recorded(start, email, purpose), RecordedUsed(start, email, purpose);
    RunKeepsLead(start, ops, d, email, purpose, recorded, spent);
    var rows, events := Run(start, ops), recorded + Handled(ops, d, email, purpose);
    k :| 0 <= k < |rows| && Leads(rows[k], d, email, purpose, events, spent);
    OnlyTheNewestIsUnused(rows, k, d, email, purpose, events, spent);
  }

  lemma NewestIsUnique(a: string, b: string, events: set<string>, d: Directory)
    requires IsNewest(a, events, d) && IsNewest(b, events, d)
    ensures a == b
  {
    LessIsTotal(a, b);
  }

  /** So which token survives, and whether one does, depends on the set of events alone and not on
      the order in which they are handled. */
  lemma OrderDoesNotMatter(before: seq<Op>, ops: seq<Op>, ops': seq<Op>, d: Directory, email: nat, purpose: Purpose)
    returns (k: nat, k': nat)
    requires forall i | 0 <= i < |before| :: IssuesFollow(before[i], d)
    requires forall i | 0 <= i < |ops| :: Spares(ops[i], d, email, purpose)
    requires forall i | 0 <= i < |ops'| :: Spares(ops'[i], d, email, purpose)
    requires Handled(ops, d, email, purpose) == Handled(ops', d, email, purpose)
    requires Recorded(Run([], before), email, purpose) + Handled(ops, d, email, purpose) != {}
    ensures var rows, rows' := Run(Run([], before), ops), Run(Run([], before), ops');
            && k < |rows| && k' < |rows'| && rows[k].event == rows'[k'].event
            && ((Unused(rows, email, purpose) == {k} && Unused(rows', email, purpose) == {k'})
                || (Unused(rows, email, purpose) == {} && Unused(rows', email, purpose) == {}))
  {
    k := NewestEventWins(before, ops, d, email, purpose);
    k' := NewestEventWins(before, ops', d, email, purpose);
    var events := Recorded(Run([], before), email, purpose) + Handled(ops, d, email, purpose);
    NewestIsUnique(Run(Run([], before), ops)[k].event, Run(Run([], before), ops')[k'].event, events, d);
  }
}
