/** Any interleaving of device-code requests, browser decisions and deletions. A token request is
    two transactions: the poll, and after an approved answer the consumption. */
module DeviceRuns {
  import opened Common
  import opened DeviceTable
  import opened OAuth2Policy

  /** What happened, in commit order. */
  datatype Entry =
    | Created(code: DeviceCode, client: ClientId, scope: set<string>, at: Time)
    | Answered(code: DeviceCode, client: ClientId, answer: Decision, at: Time)
    | Decided(code: DeviceCode, approve: bool, grantee: Grantee)
    | Issued(code: DeviceCode, client: ClientId, scope: set<string>, grantee: Grantee, at: Time)

  type Log = seq<Entry>

  /** A request between its approved poll and its consumption. */
  datatype Flight = Flight(code: DeviceCode, client: ClientId, snapshot: Row, polledAt: Time)

  datatype World = World(
    clock: Time, clients: Clients, identities: Identities, table: Table, flights: map<nat, Flight>, log: Log)

  /** `now` is read before the writer lock is taken, except in a poll, which reads it after. */
  datatype Action =
    | Tick(elapsed: Time)
    | SetClients(clients: Clients)
    | SetIdentities(identities: Identities)
    | Create(draw: Draw, client: ClientId, scope: set<string>, now: Time)
    | Poll(code: DeviceCode, client: ClientId, request: nat)
    | Choose(user: UserCode, grantee: Grantee, approve: bool, now: Time)
    | Consume(request: nat, now: Time)
    | Delete(codes: set<DeviceCode>)

  // ---- What the log says about one code -------------------------------------------------------------

  datatype Birth = Birth(client: ClientId, scope: set<string>, at: Time)

  datatype Verdict = Verdict(approve: bool, grantee: Grantee)

  datatype Story = Story(
    creation: Option<Birth>, decision: Option<Verdict>, issued: bool,
    lastPause: Option<Time>, slowDowns: nat)

  const UNTOLD := Story(None, None, false, None, 0)

  function Continue(story: Story, e: Entry): Story {
    match e
    case Created(_, client, scope, at) => story.(creation := Some(Birth(client, scope, at)))
    case Decided(_, approve, grantee) => story.(decision := Some(Verdict(approve, grantee)))
    case Issued(_, _, _, _, _) => story.(issued := true)
    case Answered(_, _, answer, at) =>
      if answer.SlowDown? then story.(lastPause := Some(at), slowDowns := story.slowDowns + 1)
      else if answer.Pending? then story.(lastPause := Some(at))
      else story
  }

  function StoryOf(log: Log, code: DeviceCode): Story {
    if log == [] then UNTOLD
    else
      var n := |log| - 1;
      if log[n].code == code then Continue(StoryOf(log[..n], code), log[n]) else StoryOf(log[..n], code)
  }

  lemma Append(log: Log, e: Entry, code: DeviceCode)
    ensures StoryOf(log + [e], code) == if e.code == code then Continue(StoryOf(log, code), e) else StoryOf(log, code)
  {
    assert (log + [e])[..|log|] == log;
  }

  /** The interval the client was told, plus five seconds for each slow_down it was given. */
  function TrackedInterval(s: Settings, story: Story): Time {
    (s.intervalSeconds + SLOW_DOWN_SECONDS * story.slowDowns) * SECOND
  }

  // ---- One step ----------------------------------------------------------------------------------------

  function Record(world: World, table: Table, e: Entry): World {
    world.(table := table, log := world.log + [e])
  }

  function FlightsAfterPoll(world: World, c: DeviceCode, client: ClientId, request: nat, d: Decision): map<nat, Flight> {
    if d.Approved? then world.flights[request := Flight(c, client, d.snapshot, world.clock)] else world.flights
  }

  function PollStep(world: World, c: DeviceCode, client: ClientId, request: nat): World {
    if request in world.flights || c !in world.table.rows then world
    else
      var d := PollAnswer(world.table, c, client, world.clock);
      Record(world, PollLeaves(world.table, c, client, world.clock), Answered(c, client, d, world.clock))
        .(flights := FlightsAfterPoll(world, c, client, request, d))
  }

  function ConsumeStep(world: World, request: nat, now: Time): World {
    if request !in world.flights || now > world.clock || now < world.flights[request].polledAt then world
    else
      var f := world.flights[request];
      var landed := world.(flights := world.flights - {request});
      match Recheck(world.clients, world.identities, f.snapshot)
      case Err(_) => landed
      case Ok(g) =>
        if Consumable(world.table, f.code, now)
        then Record(landed, ConsumeLeaves(world.table, f.code, now), Issued(f.code, f.client, f.snapshot.scope, g, now))
        else landed
  }

  predicate CanChoose(world: World, u: UserCode, g: Grantee, now: Time) {
    now <= world.clock && Decidable(world.table, u, now)
    && MayDecide(world.clients, world.table.rows[world.table.index[u]], g.organization)
  }

  /** A step that is not enabled, or whose transaction aborts, changes nothing. */
  function Step(s: Settings, world: World, a: Action): World {
    match a
    case Tick(d) => world.(clock := world.clock + d)
    case SetClients(clients) => world.(clients := clients)
    case SetIdentities(identities) => world.(identities := identities)
    case Create(draw, client, scope, now) =>
      if now > world.clock || StoryOf(world.log, draw.device).creation.Some? || !Fits(world.table, draw)
         || client !in world.clients || CreationRefusal(s, world.clients[client], scope).Some?
      then world
      else Record(world, Insert(world.table, draw.device, NewRow(s, client, scope, draw.user, now)),
                  Created(draw.device, client, scope, now))
    case Poll(c, client, request) => PollStep(world, c, client, request)
    case Choose(u, g, approve, now) =>
      if !CanChoose(world, u, g, now) then world
      else Record(world, DecisionLeaves(world.table, u, g, approve, now), Decided(world.table.index[u], approve, g))
    case Consume(request, now) => ConsumeStep(world, request, now)
    case Delete(codes) =>
      world.(table := Table(world.table.rows - codes,
                            map u | u in world.table.index && world.table.index[u] !in codes :: world.table.index[u]))
  }

  function Run(s: Settings, world: World, actions: seq<Action>): World
    decreases |actions|
  {
    if actions == [] then world else Run(s, Step(s, world, actions[0]), actions[1..])
  }

  const START := World(0, map[], map[], Table(map[], map[]), map[], [])

  // ---- The invariant ---------------------------------------------------------------------------------------

  /** What may follow in the story of a code. */
  predicate EntryOk(s: Settings, story: Story, e: Entry) {
    match e
    case Created(_, _, _, _) => story == UNTOLD
    case Decided(_, _, _) => story.creation.Some? && story.decision.None?
    case Issued(code, client, scope, grantee, at) =>
      && !story.issued
      && story.decision == Some(Verdict(true, grantee))
      && story.creation.Some? && story.creation == Some(Birth(client, scope, story.creation.value.at))
      && at < story.creation.value.at + s.lifetimeSeconds * SECOND
    case Answered(code, client, answer, at) =>
      && story.creation.Some? && story.creation.value.at <= at
      && (story.lastPause.Some? ==> at >= story.lastPause.value)
      && AnswerOk(s, story, client, answer, at)
  }

  /** Which answer a poll gets, by what happened to the code before. */
  predicate AnswerOk(s: Settings, story: Story, client: ClientId, answer: Decision, at: Time)
    requires story.creation.Some?
  {
    var fits, alive := client == story.creation.value.client, at < story.creation.value.at + s.lifetimeSeconds * SECOND;
    var approved := story.decision.Some? && story.decision.value.approve;
    var denied := story.decision.Some? && !story.decision.value.approve;
    var early := story.lastPause.Some? && at < story.lastPause.value + TrackedInterval(s, story);
    && (answer.Invalid? <==> !fits || (alive && story.issued))
    && (answer.Expired? <==> fits && !alive)
    && (answer.Denied? <==> fits && alive && denied)
    && (answer.SlowDown? <==> fits && alive && !denied && !story.issued && early)
    && (answer.Pending? <==> fits && alive && !approved && !denied && !early)
    && (answer.Approved? <==> fits && alive && approved && !story.issued && !early)
    && (answer.Approved? ==>
          && answer.snapshot.client == story.creation.value.client && answer.snapshot.scope == story.creation.value.scope
          && answer.snapshot.grantee == Some(story.decision.value.grantee))
  }

  predicate LogOk(s: Settings, log: Log) {
    forall k | 0 <= k < |log| :: EntryOk(s, StoryOf(log[..k], log[k].code), log[k])
  }

  /** Nothing comes before the creation, and nothing lies in the future. */
  predicate StoryOk(clock: Time, story: Story) {
    && (story.creation.None? ==> story == UNTOLD)
    && (story.creation.Some? ==> story.creation.value.at <= clock)
    && (story.lastPause.Some? ==> story.lastPause.value <= clock)
  }

  predicate RowOk(s: Settings, story: Story, row: Row) {
    && story.creation.Some?
    && row.client == story.creation.value.client && row.scope == story.creation.value.scope
    && row.expiresAt == story.creation.value.at + s.lifetimeSeconds * SECOND
    && row.lastPolledAt == story.lastPause
    && row.intervalSeconds == s.intervalSeconds + SLOW_DOWN_SECONDS * story.slowDowns
    && (row.usedAt.Some? <==> story.issued)
    && (match story.decision
        case None => row.approvedAt.None? && row.deniedAt.None? && row.grantee.None? && !story.issued
        case Some(Verdict(approve, grantee)) =>
          && row.grantee == Some(grantee)
          && (row.approvedAt.Some? <==> approve) && (row.deniedAt.Some? <==> !approve)
          && (!approve ==> !story.issued))
  }

  predicate FlightOk(s: Settings, story: Story, f: Flight) {
    && story.creation.Some?
    && f.client == f.snapshot.client == story.creation.value.client
    && f.snapshot.scope == story.creation.value.scope
    && f.snapshot.expiresAt == story.creation.value.at + s.lifetimeSeconds * SECOND
    && story.decision.Some? && story.decision.value.approve
    && f.snapshot.grantee == Some(story.decision.value.grantee)
  }

  ghost predicate Inv(s: Settings, world: World) {
    && LogOk(s, world.log)
    && world.table.Valid()
    && (forall c :: StoryOk(world.clock, StoryOf(world.log, c)))
    && (forall c | c in world.table.rows :: RowOk(s, StoryOf(world.log, c), world.table.rows[c]))
    && (forall r | r in world.flights :: FlightOk(s, StoryOf(world.log, world.flights[r].code), world.flights[r]))
  }

  // ---- Every step keeps the invariant ------------------------------------------------------------------------

  lemma AppendOk(s: Settings, log: Log, e: Entry)
    requires LogOk(s, log) && EntryOk(s, StoryOf(log, e.code), e)
    ensures LogOk(s, log + [e])
  {
    var longer := log + [e];
    forall k | 0 <= k < |longer| ensures EntryOk(s, StoryOf(longer[..k], longer[k].code), longer[k]) {
      if k < |log| {
        assert longer[..k] == log[..k] && longer[k] == log[k];
      } else {
        assert longer[..k] == log;
      }
    }
  }

  /** Recording an entry touches one code: its row, its story, and nothing else. */
  lemma RecordKeepsInv(s: Settings, world: World, e: Entry, row: Row, flights: map<nat, Flight>)
    requires Inv(s, world) && e.code in world.table.rows && row.userCode == world.table.rows[e.code].userCode
    requires EntryOk(s, StoryOf(world.log, e.code), e) && !e.Created?
    requires StoryOk(world.clock, Continue(StoryOf(world.log, e.code), e))
    requires RowOk(s, Continue(StoryOf(world.log, e.code), e), row)
    requires forall r | r in flights :: (r in world.flights && flights[r] == world.flights[r]) ||
               (flights[r].code == e.code && FlightOk(s, Continue(StoryOf(world.log, e.code), e), flights[r]))
    ensures Inv(s, world.(table := world.table.Set(e.code, row), flights := flights, log := world.log + [e]))
  {
    AppendOk(s, world.log, e);
    var after := world.(table := world.table.Set(e.code, row), flights := flights, log := world.log + [e]);
    forall c ensures StoryOk(after.clock, StoryOf(after.log, c)) {
      Append(world.log, e, c);
      assert StoryOk(world.clock, StoryOf(world.log, c));
    }
    forall c | c in after.table.rows ensures RowOk(s, StoryOf(after.log, c), after.table.rows[c]) {
      Append(world.log, e, c);
      assert c != e.code ==> RowOk(s, StoryOf(world.log, c), world.table.rows[c]);
    }
    forall r | r in flights ensures FlightOk(s, StoryOf(after.log, flights[r].code), flights[r]) {
      Append(world.log, e, flights[r].code);
      if r in world.flights && flights[r] == world.flights[r] {
        assert FlightOk(s, StoryOf(world.log, flights[r].code), flights[r]);
      }
    }
  }

  lemma PollIsOk(s: Settings, clock: Time, story: Story, row: Row, c: DeviceCode, client: ClientId)
    requires RowOk(s, story, row) && StoryOk(clock, story)
    ensures var d := Decide(row, client, clock);
            var e := Answered(c, client, d, clock);
            && EntryOk(s, story, e)
            && StoryOk(clock, Continue(story, e)) && RowOk(s, Continue(story, e), Polled(row, d, clock))
            && (d.Approved? ==> FlightOk(s, Continue(story, e), Flight(c, client, row, clock)))
  {
  }

  lemma AnswerKeepsInv(s: Settings, world: World, c: DeviceCode, client: ClientId, request: nat)
    requires Inv(s, world) && c in world.table.rows && request !in world.flights
    ensures var d := Decide(world.table.rows[c], client, world.clock);
            Inv(s, world.(table := world.table.Set(c, Polled(world.table.rows[c], d, world.clock)),
                          flights := FlightsAfterPoll(world, c, client, request, d),
                          log := world.log + [Answered(c, client, d, world.clock)]))
  {
    var row := world.table.rows[c];
    var d := Decide(row, client, world.clock);
    assert RowOk(s, StoryOf(world.log, c), row) && StoryOk(world.clock, StoryOf(world.log, c));
    PollIsOk(s, world.clock, StoryOf(world.log, c), row, c, client);
    RecordKeepsInv(s, world, Answered(c, client, d, world.clock), Polled(row, d, world.clock),
                   FlightsAfterPoll(world, c, client, request, d));
  }

  lemma PollKeepsInv(s: Settings, world: World, c: DeviceCode, client: ClientId, request: nat)
    requires Inv(s, world)
    ensures Inv(s, PollStep(world, c, client, request))
  {
    if request !in world.flights && c in world.table.rows {
      AnswerKeepsInv(s, world, c, client, request);
    }
  }

  lemma ChoiceIsOk(s: Settings, clock: Time, story: Story, row: Row, c: DeviceCode, g: Grantee, approve: bool, now: Time)
    requires RowOk(s, story, row) && StoryOk(clock, story) && row.Undecided()
    ensures var e := Decided(c, approve, g);
            && EntryOk(s, story, e) && StoryOk(clock, Continue(story, e))
            && RowOk(s, Continue(story, e), Chosen(row, g, approve, now))
  {
  }

  lemma ChoiceKeepsInv(s: Settings, world: World, c: DeviceCode, g: Grantee, approve: bool, now: Time)
    requires Inv(s, world) && c in world.table.rows && world.table.rows[c].Undecided()
    ensures var row := Chosen(world.table.rows[c], g, approve, now);
            Inv(s, world.(table := world.table.Set(c, row), log := world.log + [Decided(c, approve, g)]))
  {
    var row := world.table.rows[c];
    assert RowOk(s, StoryOf(world.log, c), row) && StoryOk(world.clock, StoryOf(world.log, c));
    ChoiceIsOk(s, world.clock, StoryOf(world.log, c), row, c, g, approve, now);
    RecordKeepsInv(s, world, Decided(c, approve, g), Chosen(row, g, approve, now), world.flights);
  }

  lemma RecheckKeepsGrantee(clients: Clients, identities: Identities, snapshot: Row)
    requires Recheck(clients, identities, snapshot).Ok?
    ensures snapshot.grantee == Some(Recheck(clients, identities, snapshot).value)
  {
  }

  lemma ConsumeKeepsInv(s: Settings, world: World, request: nat, now: Time)
    requires Inv(s, world)
    ensures Inv(s, ConsumeStep(world, request, now))
  {
    if request in world.flights && world.flights[request].polledAt <= now <= world.clock {
      var f := world.flights[request];
      var g := Recheck(world.clients, world.identities, f.snapshot);
      if g.Ok? && Consumable(world.table, f.code, now) {
        RecheckKeepsGrantee(world.clients, world.identities, f.snapshot);
        IssueKeepsInv(s, world, request, now, g.value);
      }
    }
  }

  lemma IssueKeepsInv(s: Settings, world: World, request: nat, now: Time, g: Grantee)
    requires Inv(s, world) && request in world.flights && now <= world.clock
    requires world.flights[request].snapshot.grantee == Some(g) && Consumable(world.table, world.flights[request].code, now)
    ensures var f := world.flights[request];
            Inv(s, Record(world.(flights := world.flights - {request}), ConsumeLeaves(world.table, f.code, now),
                          Issued(f.code, f.client, f.snapshot.scope, g, now)))
  {
    var f := world.flights[request];
    var row, story := world.table.rows[f.code], StoryOf(world.log, f.code);
    assert RowOk(s, story, row) && StoryOk(world.clock, story) && FlightOk(s, story, f);
    var e := Issued(f.code, f.client, f.snapshot.scope, g, now);
    RecordKeepsInv(s, world, e, row.(usedAt := Some(now)), world.flights - {request});
  }

  lemma CreateKeepsInv(s: Settings, world: World, draw: Draw, client: ClientId, scope: set<string>, now: Time)
    requires Inv(s, world)
    ensures Inv(s, Step(s, world, Create(draw, client, scope, now)))
  {
    var after := Step(s, world, Create(draw, client, scope, now));
    if after != world {
      var e := Created(draw.device, client, scope, now);
      assert StoryOk(world.clock, StoryOf(world.log, draw.device));
      AppendOk(s, world.log, e);
      forall c ensures StoryOk(after.clock, StoryOf(after.log, c)) {
        Append(world.log, e, c);
        assert StoryOk(world.clock, StoryOf(world.log, c));
      }
      forall c | c in after.table.rows ensures RowOk(s, StoryOf(after.log, c), after.table.rows[c]) {
        Append(world.log, e, c);
        assert c != e.code ==> RowOk(s, StoryOf(world.log, c), world.table.rows[c]);
      }
      forall r | r in world.flights ensures FlightOk(s, StoryOf(after.log, world.flights[r].code), world.flights[r]) {
        Append(world.log, e, world.flights[r].code);
        assert FlightOk(s, StoryOf(world.log, world.flights[r].code), world.flights[r]);
      }
    }
  }

  lemma DeleteKeepsInv(s: Settings, world: World, codes: set<DeviceCode>)
    requires Inv(s, world)
    ensures Inv(s, Step(s, world, Delete(codes)))
  {
    var after := Step(s, world, Delete(codes));
    forall c | c in after.table.rows ensures RowOk(s, StoryOf(after.log, c), after.table.rows[c]) {
      assert RowOk(s, StoryOf(world.log, c), world.table.rows[c]);
    }
  }

  lemma TickKeepsInv(s: Settings, world: World, d: Time)
    requires Inv(s, world)
    ensures Inv(s, Step(s, world, Tick(d)))
  {
    forall c ensures StoryOk(world.clock + d, StoryOf(world.log, c)) {
      assert StoryOk(world.clock, StoryOf(world.log, c));
    }
  }

  lemma PolicyChangeKeepsInv(s: Settings, world: World, clients: Clients, identities: Identities)
    requires Inv(s, world)
    ensures Inv(s, world.(clients := clients, identities := identities))
  {
  }

  lemma ChooseKeepsInv(s: Settings, world: World, u: UserCode, g: Grantee, approve: bool, now: Time)
    requires Inv(s, world)
    ensures Inv(s, Step(s, world, Choose(u, g, approve, now)))
  {
    if CanChoose(world, u, g, now) {
      ChoiceKeepsInv(s, world, world.table.index[u], g, approve, now);
    }
  }

  lemma StepKeepsInv(s: Settings, world: World, a: Action)
    requires Inv(s, world)
    ensures Inv(s, Step(s, world, a))
  {
    match a
    case Tick(d) => TickKeepsInv(s, world, d);
    case Create(draw, client, scope, now) => CreateKeepsInv(s, world, draw, client, scope, now);
    case Poll(c, client, request) => PollKeepsInv(s, world, c, client, request);
    case SetClients(clients) => PolicyChangeKeepsInv(s, world, clients, world.identities);
    case SetIdentities(identities) => PolicyChangeKeepsInv(s, world, world.clients, identities);
    case Choose(u, g, approve, now) => ChooseKeepsInv(s, world, u, g, approve, now);
    case Consume(request, now) => ConsumeKeepsInv(s, world, request, now);
    case Delete(codes) => DeleteKeepsInv(s, world, codes);
  }

  lemma {:induction false} RunKeepsInv(s: Settings, world: World, actions: seq<Action>)
    requires Inv(s, world)
    ensures Inv(s, Run(s, world, actions))
    decreases |actions|
  {
    if actions != [] {
      StepKeepsInv(s, world, actions[0]);
      RunKeepsInv(s, Step(s, world, actions[0]), actions[1..]);
    }
  }

  function LogFrom(s: Settings, actions: seq<Action>): Log {
    Run(s, START, actions).log
  }

  lemma ReachableInv(s: Settings, actions: seq<Action>)
    ensures Inv(s, Run(s, START, actions))
  {
    RunKeepsInv(s, START, actions);
  }

  // ---- What every run guarantees --------------------------------------------------------------------------

  lemma {:induction false} StoryRemembers(log: Log, k: nat)
    requires k < |log|
    ensures var story := StoryOf(log, log[k].code);
            && (log[k].Decided? ==> story.decision.Some?)
            && (log[k].Issued? ==> story.issued)
            && (log[k].Created? ==> story.creation.Some?)
  {
    if k < |log| - 1 {
      StoryRemembers(log[..|log| - 1], k);
    }
  }

  lemma {:induction false} DecisionIsLogged(log: Log, code: DeviceCode) returns (k: nat)
    requires StoryOf(log, code).decision.Some?
    ensures k < |log|
    ensures log[k] == Decided(code, StoryOf(log, code).decision.value.approve, StoryOf(log, code).decision.value.grantee)
  {
    var n := |log| - 1;
    if log[n].code == code && log[n].Decided? {
      k := n;
    } else {
      k := DecisionIsLogged(log[..n], code);
    }
  }

  lemma {:induction false} CreationIsLogged(log: Log, code: DeviceCode) returns (k: nat)
    requires StoryOf(log, code).creation.Some?
    ensures k < |log|
    ensures var b := StoryOf(log, code).creation.value; log[k] == Created(code, b.client, b.scope, b.at)
  {
    var n := |log| - 1;
    if log[n].code == code && log[n].Created? {
      k := n;
    } else {
      k := CreationIsLogged(log[..n], code);
    }
  }

  /** A code is decided at most once, whether approved or denied. */
  lemma DecidedAtMostOnce(s: Settings, actions: seq<Action>, i: nat, j: nat)
    requires i < j < |LogFrom(s, actions)| && LogFrom(s, actions)[i].Decided? && LogFrom(s, actions)[j].Decided?
    ensures LogFrom(s, actions)[i].code != LogFrom(s, actions)[j].code
  {
    ReachableInv(s, actions);
    var log := LogFrom(s, actions);
    assert EntryOk(s, StoryOf(log[..j], log[j].code), log[j]);
    StoryRemembers(log[..j], i);
  }

  /** A code issues tokens at most once. */
  lemma IssuedAtMostOnce(s: Settings, actions: seq<Action>, i: nat, j: nat)
    requires i < j < |LogFrom(s, actions)| && LogFrom(s, actions)[i].Issued? && LogFrom(s, actions)[j].Issued?
    ensures LogFrom(s, actions)[i].code != LogFrom(s, actions)[j].code
  {
    ReachableInv(s, actions);
    var log := LogFrom(s, actions);
    assert EntryOk(s, StoryOf(log[..j], log[j].code), log[j]);
    StoryRemembers(log[..j], i);
  }

  /** Tokens go to the client that asked for the code, for the scope it asked for and the user and
      organization that approved it, and with a clock reading before the code expired. */
  lemma IssuedAsApproved(s: Settings, actions: seq<Action>, k: nat) returns (creation: nat, decision: nat)
    requires k < |LogFrom(s, actions)| && LogFrom(s, actions)[k].Issued?
    ensures creation < k && decision < k
    ensures var log := LogFrom(s, actions);
            var Issued(code, client, scope, grantee, at) := log[k];
            && log[creation].Created? && log[creation] == Created(code, client, scope, log[creation].at)
            && log[decision] == Decided(code, true, grantee)
            && at < log[creation].at + s.lifetimeSeconds * SECOND
  {
    ReachableInv(s, actions);
    var log := LogFrom(s, actions);
    assert EntryOk(s, StoryOf(log[..k], log[k].code), log[k]);
    creation := CreationIsLogged(log[..k], log[k].code);
    decision := DecisionIsLogged(log[..k], log[k].code);
  }

  /** Whoever decides a code and whoever is issued tokens for it passes the policy of that very
      moment: the client is active, allowed the grant, the scope and the organization, and for tokens
      the user is active, verified and still in the organization. */
  lemma StepsFollowPolicy(s: Settings, actions: seq<Action>, a: Action)
    ensures var world := Run(s, START, actions);
            var after := Step(s, world, a);
            |after.log| > |world.log| ==>
              var e := after.log[|world.log|];
              && (e.Decided? ==>
                    && e.code in world.table.rows && world.table.rows[e.code].client in world.clients
                    && var row, client := world.table.rows[e.code], world.clients[world.table.rows[e.code].client];
                       client.active && client.deviceGrant && row.scope <= client.scopes && Admits(client, e.grantee.organization))
              && (e.Issued? ==>
                    && e.client in world.clients
                    && var client := world.clients[e.client];
                       && client.active && client.deviceGrant && e.scope <= client.scopes && "openid" !in e.scope
                       && Admits(client, e.grantee.organization)
                       && Entitled(world.identities, e.grantee.user, e.grantee.organization))
  {
    ReachableInv(s, actions);
    var world := Run(s, START, actions);
    if a.Consume? && a.request in world.flights {
      var f := world.flights[a.request];
      assert FlightOk(s, StoryOf(world.log, f.code), f);
    }
  }

  // ---- When each step succeeds --------------------------------------------------------------------------------

  predicate OnRecord(log: Log, code: DeviceCode, approve: bool) {
    exists i :: 0 <= i < |log| && log[i].Decided? && log[i].code == code && log[i].approve == approve
  }

  predicate WasIssued(log: Log, code: DeviceCode) {
    exists i :: 0 <= i < |log| && log[i].Issued? && log[i].code == code
  }

  predicate WasCreated(log: Log, code: DeviceCode) {
    exists i :: 0 <= i < |log| && log[i].Created? && log[i].code == code
  }

  lemma {:induction false} IssueIsLogged(log: Log, code: DeviceCode)
    ensures StoryOf(log, code).issued ==> WasIssued(log, code)
  {
    if log != [] {
      var n := |log| - 1;
      IssueIsLogged(log[..n], code);
      if i :| 0 <= i < n && log[..n][i].Issued? && log[..n][i].code == code {
        assert log[i].Issued? && log[i].code == code;
      }
    }
  }

  /** With a proper log the story of a code says exactly what is on record. */
  lemma {:induction false} DecisionStays(s: Settings, log: Log, i: nat)
    requires LogOk(s, log) && i < |log| && log[i].Decided?
    ensures StoryOf(log, log[i].code).decision == Some(Verdict(log[i].approve, log[i].grantee))
  {
    var n := |log| - 1;
    if i < n {
      PrefixOk(s, log, n);
      DecisionStays(s, log[..n], i);
      assert EntryOk(s, StoryOf(log[..n], log[n].code), log[n]);
    }
  }

  lemma StoryIsRecord(s: Settings, log: Log, code: DeviceCode)
    requires LogOk(s, log)
    ensures var story := StoryOf(log, code);
            && (story.creation.Some? <==> WasCreated(log, code))
            && (story.issued <==> WasIssued(log, code))
            && (forall approve :: OnRecord(log, code, approve) <==> story.decision.Some? && story.decision.value.approve == approve)
  {
    IssueIsLogged(log, code);
    if StoryOf(log, code).creation.Some? {
      var k := CreationIsLogged(log, code);
    }
    if i :| 0 <= i < |log| && log[i].Created? && log[i].code == code {
      StoryRemembers(log, i);
    }
    if i :| 0 <= i < |log| && log[i].Issued? && log[i].code == code {
      StoryRemembers(log, i);
    }
    forall approve ensures OnRecord(log, code, approve) <==> StoryOf(log, code).decision.Some? && StoryOf(log, code).decision.value.approve == approve {
      if OnRecord(log, code, approve) {
        var i :| 0 <= i < |log| && log[i].Decided? && log[i].code == code && log[i].approve == approve;
        DecisionStays(s, log, i);
      }
      if StoryOf(log, code).decision.Some? && StoryOf(log, code).decision.value.approve == approve {
        var k := DecisionIsLogged(log, code);
      }
    }
  }

  /** A code is created exactly when the grant is enabled, the client is active and allowed the grant
      and the scope, and neither code is taken. */
  lemma CreatedExactlyWhen(s: Settings, actions: seq<Action>, draw: Draw, client: ClientId, scope: set<string>, now: Time)
    requires now <= Run(s, START, actions).clock
    ensures var world := Run(s, START, actions);
            var after := Step(s, world, Create(draw, client, scope, now));
            if && s.enabled && client in world.clients && world.clients[client].active && world.clients[client].deviceGrant
               && scope <= world.clients[client].scopes && "openid" !in scope
               && !WasCreated(world.log, draw.device) && (forall c | c in world.table.rows :: world.table.rows[c].userCode != draw.user)
            then after.log == world.log + [Created(draw.device, client, scope, now)] && draw.device in after.table.rows
            else after == world
  {
    ReachableInv(s, actions);
    var world := Run(s, START, actions);
    StoryIsRecord(s, world.log, draw.device);
    if draw.device in world.table.rows {
      assert RowOk(s, StoryOf(world.log, draw.device), world.table.rows[draw.device]);
    }
    assert draw.user in world.table.index ==> world.table.rows[world.table.index[draw.user]].userCode == draw.user;
  }

  /** A decision takes effect exactly when the code is alive and nobody has decided it, and its
      client is active and allowed the grant, the scope and the user's organization. */
  lemma DecidedExactlyWhen(s: Settings, actions: seq<Action>, c: DeviceCode, g: Grantee, approve: bool, now: Time)
    requires c in Run(s, START, actions).table.rows && now <= Run(s, START, actions).clock
    ensures var world := Run(s, START, actions);
            var row := world.table.rows[c];
            var after := Step(s, world, Choose(row.userCode, g, approve, now));
            if && now < row.expiresAt && !OnRecord(world.log, c, true) && !OnRecord(world.log, c, false)
               && row.client in world.clients
               && var client := world.clients[row.client];
                  client.active && client.deviceGrant && row.scope <= client.scopes && Admits(client, g.organization)
            then after.log == world.log + [Decided(c, approve, g)] && c in after.table.rows
                 && after.table.rows[c].grantee == Some(g)
                 && after.table.rows[c].approvedAt == (if approve then Some(now) else None)
                 && after.table.rows[c].deniedAt == (if approve then None else Some(now))
            else after == world
  {
    ReachableInv(s, actions);
    var world := Run(s, START, actions);
    StoryIsRecord(s, world.log, c);
    assert RowOk(s, StoryOf(world.log, c), world.table.rows[c]);
  }

  lemma RecheckedExactlyWhen(clients: Clients, identities: Identities, snapshot: Row)
    requires snapshot.grantee.Some?
    ensures var g := snapshot.grantee.value;
            Recheck(clients, identities, snapshot).Ok? <==>
                && snapshot.client in clients
                && var client := clients[snapshot.client];
                   && client.active && client.deviceGrant && snapshot.scope <= client.scopes && "openid" !in snapshot.scope
                   && Admits(client, g.organization) && Entitled(identities, g.user, g.organization)
    ensures Recheck(clients, identities, snapshot).Ok? ==> Some(Recheck(clients, identities, snapshot).value) == snapshot.grantee
  {
  }

  /** An approved request is issued tokens exactly when the code is still there, alive and not
      redeemed, and client and user pass the policy of that moment. */
  lemma IssuedExactlyWhen(s: Settings, actions: seq<Action>, request: nat, now: Time)
    requires request in Run(s, START, actions).flights
    requires Run(s, START, actions).flights[request].polledAt <= now <= Run(s, START, actions).clock
    ensures var world := Run(s, START, actions);
            var f, after := world.flights[request], Step(s, world, Consume(request, now));
            f.snapshot.grantee.Some? &&
            var g := f.snapshot.grantee.value;
            if && f.code in world.table.rows && now < f.snapshot.expiresAt && !WasIssued(world.log, f.code)
               && f.client in world.clients
               && (var client := world.clients[f.client];
                   && client.active && client.deviceGrant && f.snapshot.scope <= client.scopes && "openid" !in f.snapshot.scope
                   && Admits(client, g.organization))
               && Entitled(world.identities, g.user, g.organization)
            then after.log == world.log + [Issued(f.code, f.client, f.snapshot.scope, g, now)]
                 && f.code in after.table.rows && after.table.rows[f.code].usedAt == Some(now)
            else after.log == world.log && after.table == world.table
  {
    ReachableInv(s, actions);
    var world := Run(s, START, actions);
    var f := world.flights[request];
    StoryIsRecord(s, world.log, f.code);
    assert FlightOk(s, StoryOf(world.log, f.code), f);
    RecheckedExactlyWhen(world.clients, world.identities, f.snapshot);
    if f.code in world.table.rows {
      assert RowOk(s, StoryOf(world.log, f.code), world.table.rows[f.code]);
    }
  }

  /** What an approved poll saw is still on the row when the request consumes it, however long it
      took and whatever ran in between. */
  lemma SnapshotStillHolds(s: Settings, actions: seq<Action>, request: nat)
    requires request in Run(s, START, actions).flights
    requires Run(s, START, actions).flights[request].code in Run(s, START, actions).table.rows
    ensures var world := Run(s, START, actions);
            var f := world.flights[request];
            var row := world.table.rows[f.code];
            && row.client == f.snapshot.client == f.client && row.scope == f.snapshot.scope
            && row.grantee == f.snapshot.grantee && row.grantee.Some?
            && row.expiresAt == f.snapshot.expiresAt && row.approvedAt.Some? && row.deniedAt.None?
  {
    ReachableInv(s, actions);
    var world := Run(s, START, actions);
    var f := world.flights[request];
    assert FlightOk(s, StoryOf(world.log, f.code), f);
    assert RowOk(s, StoryOf(world.log, f.code), world.table.rows[f.code]);
  }

  // ---- The polling interval of section 3.5 of RFC 8628 ---------------------------------------------------

  /** Answers that restart the interval. */
  predicate Pauses(e: Entry, code: DeviceCode) {
    e.Answered? && e.code == code && (e.answer.Pending? || e.answer.SlowDown?)
  }

  /** `count` of the slow_down answers given for a code. */
  function SlowDowns(log: Log, code: DeviceCode): nat {
    if log == [] then 0
    else
      var n := |log| - 1;
      SlowDowns(log[..n], code) + if log[n].Answered? && log[n].code == code && log[n].answer.SlowDown? then 1 else 0
  }

  lemma {:induction false} StoryCountsSlowDowns(log: Log, code: DeviceCode)
    ensures StoryOf(log, code).slowDowns == SlowDowns(log, code)
  {
    if log != [] {
      StoryCountsSlowDowns(log[..|log| - 1], code);
    }
  }

  /** The stored interval is the initial one plus five seconds for each slow_down answered. */
  lemma StoredInterval(s: Settings, actions: seq<Action>, code: DeviceCode)
    requires code in Run(s, START, actions).table.rows
    ensures Run(s, START, actions).table.rows[code].intervalSeconds
         == s.intervalSeconds + 5 * SlowDowns(LogFrom(s, actions), code)
  {
    ReachableInv(s, actions);
    var world := Run(s, START, actions);
    assert RowOk(s, StoryOf(world.log, code), world.table.rows[code]);
    StoryCountsSlowDowns(world.log, code);
  }

  lemma PrefixOk(s: Settings, log: Log, n: nat)
    requires LogOk(s, log) && n <= |log|
    ensures LogOk(s, log[..n])
  {
    forall k | 0 <= k < n ensures EntryOk(s, StoryOf(log[..n][..k], log[..n][k].code), log[..n][k]) {
      assert log[..n][..k] == log[..k] && log[..n][k] == log[k];
    }
  }

  lemma {:induction false} LastPauseIsLatest(s: Settings, log: Log, code: DeviceCode, i: nat)
    requires LogOk(s, log) && i < |log| && Pauses(log[i], code)
    ensures StoryOf(log, code).lastPause.Some? && log[i].at <= StoryOf(log, code).lastPause.value
  {
    var n := |log| - 1;
    if i < n {
      PrefixOk(s, log, n);
      LastPauseIsLatest(s, log[..n], code, i);
      assert EntryOk(s, StoryOf(log[..n], log[n].code), log[n]);
    }
  }

  lemma {:induction false} LastPauseIsLogged(log: Log, code: DeviceCode) returns (i: nat)
    requires StoryOf(log, code).lastPause.Some?
    ensures i < |log| && Pauses(log[i], code) && log[i].at == StoryOf(log, code).lastPause.value
  {
    var n := |log| - 1;
    if Pauses(log[n], code) {
      i := n;
    } else {
      i := LastPauseIsLogged(log[..n], code);
    }
  }

  /** A poll that is not refused is answered slow_down if and only if some earlier pending or
      slow_down answer lies less than the tracked interval back. */
  lemma SlowDownExactly(s: Settings, actions: seq<Action>, j: nat)
    requires j < |LogFrom(s, actions)| && LogFrom(s, actions)[j].Answered?
    requires var d := LogFrom(s, actions)[j].answer; d.SlowDown? || d.Pending? || d.Approved?
    ensures var log := LogFrom(s, actions);
            var tracked := (s.intervalSeconds + 5 * SlowDowns(log[..j], log[j].code)) * SECOND;
            log[j].answer.SlowDown? <==>
              exists i :: 0 <= i < j && Pauses(log[i], log[j].code) && log[j].at - log[i].at < tracked
  {
    ReachableInv(s, actions);
    var log := LogFrom(s, actions);
    var code, earlier := log[j].code, log[..j];
    assert EntryOk(s, StoryOf(earlier, code), log[j]);
    StoryCountsSlowDowns(earlier, code);
    PrefixOk(s, log, j);
    forall i | 0 <= i < j && Pauses(log[i], code)
      ensures StoryOf(earlier, code).lastPause.Some? && log[i].at <= StoryOf(earlier, code).lastPause.value
    {
      LastPauseIsLatest(s, earlier, code, i);
    }
    if log[j].answer.SlowDown? {
      var i := LastPauseIsLogged(earlier, code);
      assert earlier[i] == log[i];
    }
  }

  /** Some pending or slow_down answer lies less than the tracked interval back. */
  predicate TooSoon(s: Settings, log: Log, j: nat)
    requires j < |log| && log[j].Answered?
  {
    exists i :: 0 <= i < j && Pauses(log[i], log[j].code)
      && log[j].at - log[i].at < (s.intervalSeconds + 5 * SlowDowns(log[..j], log[j].code)) * SECOND
  }

  lemma EarlyIsTooSoon(s: Settings, log: Log, j: nat)
    requires LogOk(s, log) && j < |log| && log[j].Answered?
    ensures var story := StoryOf(log[..j], log[j].code);
            TooSoon(s, log, j) <==> story.lastPause.Some? && log[j].at < story.lastPause.value + TrackedInterval(s, story)
  {
    var code, earlier := log[j].code, log[..j];
    StoryCountsSlowDowns(earlier, code);
    PrefixOk(s, log, j);
    if StoryOf(earlier, code).lastPause.Some? {
      var i := LastPauseIsLogged(earlier, code);
      assert earlier[i] == log[i];
    }
    forall i | 0 <= i < j && Pauses(log[i], code)
      ensures StoryOf(earlier, code).lastPause.Some? && log[i].at <= StoryOf(earlier, code).lastPause.value
    {
      LastPauseIsLatest(s, earlier, code, i);
    }
  }

  /** Every answer is the one the history calls for (section 3.5 of RFC 8628): invalid for
      another client or once tokens were issued, expired after the lifetime, denied after a denial,
      slow_down too soon after a pausing answer, pending while undecided, and otherwise approved,
      with the client, scope and grantee on record. */
  lemma AnswersExactly(s: Settings, actions: seq<Action>, j: nat) returns (birth: nat)
    requires j < |LogFrom(s, actions)| && LogFrom(s, actions)[j].Answered?
    ensures birth < j && LogFrom(s, actions)[birth].Created? && LogFrom(s, actions)[birth].code == LogFrom(s, actions)[j].code
    ensures var log := LogFrom(s, actions);
            var Answered(code, client, answer, at) := log[j];
            var fits, alive := client == log[birth].client, at < log[birth].at + s.lifetimeSeconds * SECOND;
            var approved, denied := OnRecord(log[..j], code, true), OnRecord(log[..j], code, false);
            var issued := WasIssued(log[..j], code);
            && (answer.Invalid? <==> !fits || (alive && issued))
            && (answer.Expired? <==> fits && !alive)
            && (answer.Denied? <==> fits && alive && denied)
            && (answer.SlowDown? <==> fits && alive && !denied && !issued && TooSoon(s, log, j))
            && (answer.Pending? <==> fits && alive && !approved && !denied && !TooSoon(s, log, j))
            && (answer.Approved? <==> fits && alive && approved && !issued && !TooSoon(s, log, j))
            && (answer.Approved? ==>
                  && answer.snapshot.client == client && answer.snapshot.scope == log[birth].scope
                  && answer.snapshot.grantee.Some?
                  && exists i :: 0 <= i < j && log[i] == Decided(code, true, answer.snapshot.grantee.value))
  {
    ReachableInv(s, actions);
    var log := LogFrom(s, actions);
    var code := log[j].code;
    PrefixOk(s, log, j);
    assert EntryOk(s, StoryOf(log[..j], code), log[j]);
    birth := CreationIsLogged(log[..j], code);
    StoryIsRecord(s, log[..j], code);
    EarlyIsTooSoon(s, log, j);
    if log[j].answer.Approved? {
      var i := DecisionIsLogged(log[..j], code);
      assert log[i] == Decided(code, true, log[j].answer.snapshot.grantee.value);
    }
  }

  /** A client that waits its own interval after every pending and slow_down answer, adding five
      seconds for each slow_down it received, gets no further slow_down. */
  lemma PoliteClientIsNotSlowed(s: Settings, actions: seq<Action>, j: nat)
    requires j < |LogFrom(s, actions)| && LogFrom(s, actions)[j].Answered?
    requires var log := LogFrom(s, actions);
             forall i | 0 <= i < j && Pauses(log[i], log[j].code) ::
               log[j].at >= log[i].at + (s.intervalSeconds + 5 * SlowDowns(log[..j], log[j].code)) * SECOND
    ensures !LogFrom(s, actions)[j].answer.SlowDown?
  {
    if LogFrom(s, actions)[j].answer.SlowDown? {
      SlowDownExactly(s, actions, j);
    }
  }

  /** The times of the authorization_pending answers for a code, oldest first. */
  function PendingTimes(log: Log, code: DeviceCode): seq<Time> {
    if log == [] then []
    else
      var n := |log| - 1;
      PendingTimes(log[..n], code) + if log[n].Answered? && log[n].code == code && log[n].answer.Pending? then [log[n].at] else []
  }

  /** Pending answers are spaced by the initial interval and lie within the lifetime. */
  predicate Spaced(s: Settings, times: seq<Time>, born: Time, last: Time) {
    && (forall i | 0 <= i < |times| :: born + i * s.intervalSeconds * SECOND <= times[i] <= last)
    && (forall i | 0 <= i < |times| :: times[i] < born + s.lifetimeSeconds * SECOND)
  }

  lemma {:induction false} PendingsAreSpaced(s: Settings, log: Log, code: DeviceCode)
    requires LogOk(s, log)
    ensures var story := StoryOf(log, code);
            PendingTimes(log, code) != [] ==>
              story.creation.Some? && story.lastPause.Some?
              && Spaced(s, PendingTimes(log, code), story.creation.value.at, story.lastPause.value)
  {
    if log != [] {
      var n := |log| - 1;
      PrefixOk(s, log, n);
      PendingsAreSpaced(s, log[..n], code);
      assert EntryOk(s, StoryOf(log[..n], log[n].code), log[n]);
      var times, story := PendingTimes(log[..n], code), StoryOf(log[..n], code);
      if log[n].code == code && log[n].Answered? && log[n].answer.Pending? && times != [] {
        OneMorePending(s, times, story.creation.value.at, story.lastPause.value, log[n].at);
      }
    }
  }

  lemma OneMorePending(s: Settings, times: seq<Time>, born: Time, last: Time, at: Time)
    requires times != [] && Spaced(s, times, born, last)
    requires last + s.intervalSeconds * SECOND <= at < born + s.lifetimeSeconds * SECOND
    ensures Spaced(s, times + [at], born, at)
  {
    var n := |times|;
    assert born + (n - 1) * s.intervalSeconds * SECOND <= times[n - 1] <= last;
    assert n * s.intervalSeconds * SECOND == (n - 1) * s.intervalSeconds * SECOND + s.intervalSeconds * SECOND;
  }

  /** A code gets at most 1 + lifetime / interval authorization_pending answers. */
  lemma PendingAnswersAreBounded(s: Settings, actions: seq<Action>, code: DeviceCode)
    requires s.Valid()
    ensures |PendingTimes(LogFrom(s, actions), code)| <= 1 + s.lifetimeSeconds / s.intervalSeconds
  {
    ReachableInv(s, actions);
    var times := PendingTimes(LogFrom(s, actions), code);
    PendingsAreSpaced(s, LogFrom(s, actions), code);
    if times != [] {
      var n := |times|;
      var born := StoryOf(LogFrom(s, actions), code).creation.value.at;
      assert born + (n - 1) * s.intervalSeconds * SECOND <= times[n - 1] < born + s.lifetimeSeconds * SECOND;
      assert (n - 1) * s.intervalSeconds < s.lifetimeSeconds;
      DivisionBound(n - 1, s.intervalSeconds, s.lifetimeSeconds);
    }
  }

  lemma DivisionBound(n: nat, step: nat, total: nat)
    requires step > 0 && n * step <= total
    ensures n <= total / step
  {
    assert n * step < (total / step + 1) * step;
  }
}
