/** Any interleaving of interactions, exchanges, client changes and deletions. */
module AuthorizationRuns {
  import opened Common
  import opened AuthorizationFlow
  import opened OAuth2Policy

  /** `keep` says whether the caller commits after a refusal: the browser page does, the JSON
      endpoints raise and roll back. New handles are random, so they have never been seen. */
  datatype Action =
    | SetClient(id: ClientId, client: Client)
    | SetIdentities(identities: Identities)
    | Delete(clients: set<ClientId>, txs: set<TxHash>, codes: set<CodeHash>)
    | Open(tx: TxHash, request: Request, principal: Option<Principal>, expiresAt: Time)
    | Direct(request: Request, who: Principal, now: Time, code: CodeHash)
    | Resume(tx: TxHash, who: Principal, boundAt: Time, now: Time, code: CodeHash, keep: bool)
    | Choose(tx: TxHash, who: Principal, choice: Choice, now: Time, code: CodeHash, keep: bool)
    | Swap(auth: Option<ClientId>, x: Exchange, now: Time)

  // ---- What the log says about one transaction and one code --------------------------------------------

  datatype TxStory = TxStory(request: Option<Request>, principal: Option<Principal>, used: bool, issued: nat)

  datatype Grant = Grant(terms: Terms, who: Principal, at: Time)

  datatype CodeStory = CodeStory(granted: Option<Grant>, exchanged: bool)

  const NO_TX := TxStory(None, None, false, 0)
  const NO_CODE := CodeStory(None, false)

  function ContinueTx(story: TxStory, e: Entry, tx: TxHash): TxStory {
    match e
    case Opened(t, request, principal) => if t == tx then story.(request := Some(request), principal := principal) else story
    case Bound(t, who) => if t == tx then story.(principal := Some(who)) else story
    case Consumed(t, who) => if t == tx then story.(used := true) else story
    case Issued(_, origin, _, _, _) => if origin == Some(tx) then story.(issued := story.issued + 1) else story
    case _ => story
  }

  function TxOf(log: Log, tx: TxHash): TxStory {
    if log == [] then NO_TX else ContinueTx(TxOf(log[..|log| - 1], tx), log[|log| - 1], tx)
  }

  function ContinueCode(story: CodeStory, e: Entry, code: CodeHash): CodeStory {
    match e
    case Issued(c, _, terms, who, at) => if c == code then story.(granted := Some(Grant(terms, who, at))) else story
    case Exchanged(c, _, _, _, _, _) => if c == code then story.(exchanged := true) else story
    case _ => story
  }

  function CodeOf(log: Log, code: CodeHash): CodeStory {
    if log == [] then NO_CODE else ContinueCode(CodeOf(log[..|log| - 1], code), log[|log| - 1], code)
  }

  lemma Append(log: Log, e: Entry)
    ensures forall tx :: TxOf(log + [e], tx) == ContinueTx(TxOf(log, tx), e, tx)
    ensures forall code :: CodeOf(log + [e], code) == ContinueCode(CodeOf(log, code), e, code)
  {
    assert (log + [e])[..|log|] == log;
  }

  // ---- One step --------------------------------------------------------------------------------------------

  function After(w: World, reply: Reply, keep: bool): World {
    if reply.outcome.Refused? && !keep then w else reply.world
  }

  /** A step that is not enabled, or whose transaction aborts, changes nothing. */
  function Step(cfg: Config, w: World, a: Action): World {
    match a
    case SetClient(id, client) => w.(clients := w.clients[id := client])
    case SetIdentities(identities) => w.(identities := identities)
    case Delete(clients, txs, codes) =>
      w.(clients := w.clients - clients, transactions := w.transactions - txs, codes := w.codes - codes)
    case Open(tx, request, principal, expiresAt) =>
      if TxOf(w.log, tx) != NO_TX || !Validate(cfg, w.clients, request).Valid? then w
      else w.(transactions := w.transactions[tx := Transaction(request, expiresAt, principal, false)],
              log := w.log + [Opened(tx, request, principal)])
    case Direct(request, who, now, code) =>
      var v := Validate(cfg, w.clients, request);
      if CodeOf(w.log, code) == NO_CODE && v.Valid? && Authorize(v.client, who.organization, None).IssueCode?
      then InsertCode(cfg, w, code, None, TermsOf(request), who, now)
      else w
    case Resume(tx, who, boundAt, now, code, keep) =>
      if CodeOf(w.log, code) == NO_CODE then After(w, Continue(cfg, w, tx, who, boundAt, now, code), keep) else w
    case Choose(tx, who, choice, now, code, keep) =>
      if CodeOf(w.log, code) == NO_CODE then After(w, Decide(cfg, w, tx, who, choice, now, code), keep) else w
    case Swap(auth, x, now) =>
      if Exchanges(cfg, w, auth, x, now) then Redeem(w, auth.value, x, now) else w
  }

  function Run(cfg: Config, w: World, actions: seq<Action>): World
    decreases |actions|
  {
    if actions == [] then w else Run(cfg, Step(cfg, w, actions[0]), actions[1..])
  }

  const START := World(map[], map[], map[], map[], [])

  // ---- The invariant -------------------------------------------------------------------------------------------

  predicate EntryOk(cfg: Config, log: Log, e: Entry) {
    match e
    case Opened(tx, _, _) => TxOf(log, tx) == NO_TX
    case Bound(tx, who) =>
      var story := TxOf(log, tx);
      story.request.Some? && !story.used && (story.principal.None? || story.principal == Some(who))
    case Consumed(tx, who) =>
      var story := TxOf(log, tx);
      story.request.Some? && !story.used && story.principal == Some(who)
    case Issued(code, origin, terms, who, _) =>
      CodeOf(log, code) == NO_CODE &&
      (origin.Some? ==>
         var story := TxOf(log, origin.value);
         && story.used && story.issued == 0 && story.principal == Some(who)
         && story.request.Some? && terms == TermsOf(story.request.value))
    case Exchanged(code, client, redirectUri, verifier, who, at) =>
      var story := CodeOf(log, code);
      && !story.exchanged && story.granted.Some?
      && story.granted.value.who == who && story.granted.value.terms.client == client
      && story.granted.value.terms.redirectUri == redirectUri
      && cfg.s256(verifier) == story.granted.value.terms.challenge
      && at < story.granted.value.at + cfg.codeTtlSeconds * SECOND
  }

  predicate LogOk(cfg: Config, log: Log) {
    forall k | 0 <= k < |log| :: EntryOk(cfg, log[..k], log[k])
  }

  predicate TxOk(story: TxStory, t: Transaction) {
    story.request == Some(t.request) && story.principal == t.principal && story.used == t.used
  }

  predicate CodeOk(cfg: Config, story: CodeStory, c: Code) {
    && story.granted.Some? && story.granted.value.terms == c.terms && story.granted.value.who == c.principal
    && c.expiresAt == story.granted.value.at + cfg.codeTtlSeconds * SECOND && story.exchanged == c.used
  }

  predicate StoryOk(story: TxStory) {
    && (story.request.None? ==> story == NO_TX)
    && (!story.used ==> story.issued == 0)
    && (story.used ==> story.principal.Some?)
    && story.issued <= 1
  }

  ghost predicate Inv(cfg: Config, w: World) {
    && LogOk(cfg, w.log)
    && (forall tx :: StoryOk(TxOf(w.log, tx)))
    && (forall tx | tx in w.transactions :: TxOk(TxOf(w.log, tx), w.transactions[tx]))
    && (forall code | code in w.codes :: CodeOk(cfg, CodeOf(w.log, code), w.codes[code]))
  }

  lemma AppendOk(cfg: Config, log: Log, e: Entry)
    requires LogOk(cfg, log) && EntryOk(cfg, log, e)
    ensures LogOk(cfg, log + [e])
  {
    var longer := log + [e];
    forall k | 0 <= k < |longer| ensures EntryOk(cfg, longer[..k], longer[k]) {
      if k < |log| {
        assert longer[..k] == log[..k] && longer[k] == log[k];
      } else {
        assert longer[..k] == log;
      }
    }
  }

  lemma StoriesStayOk(cfg: Config, w: World, e: Entry)
    requires Inv(cfg, w) && EntryOk(cfg, w.log, e)
    ensures forall tx :: StoryOk(TxOf(w.log + [e], tx))
  {
    Append(w.log, e);
    forall tx ensures StoryOk(TxOf(w.log + [e], tx)) {
      assert StoryOk(TxOf(w.log, tx));
    }
  }

  /** Recording an entry together with the one row it is about. */
  lemma TxRecordKeepsInv(cfg: Config, w: World, e: Entry, tx: TxHash, row: Transaction)
    requires Inv(cfg, w) && EntryOk(cfg, w.log, e)
    requires (e.Opened? || e.Bound? || e.Consumed?) && e.tx == tx
    requires TxOk(ContinueTx(TxOf(w.log, tx), e, tx), row)
    ensures Inv(cfg, w.(transactions := w.transactions[tx := row], log := w.log + [e]))
  {
    AppendOk(cfg, w.log, e);
    Append(w.log, e);
    StoriesStayOk(cfg, w, e);
    forall t | t in w.transactions[tx := row] ensures TxOk(TxOf(w.log + [e], t), w.transactions[tx := row][t]) {
      assert t != tx ==> TxOk(TxOf(w.log, t), w.transactions[t]);
    }
    forall c | c in w.codes ensures CodeOk(cfg, CodeOf(w.log + [e], c), w.codes[c]) {
      assert CodeOk(cfg, CodeOf(w.log, c), w.codes[c]);
    }
  }

  lemma CodeRecordKeepsInv(cfg: Config, w: World, e: Entry, code: CodeHash, row: Code)
    requires Inv(cfg, w) && EntryOk(cfg, w.log, e)
    requires (e.Issued? || e.Exchanged?) && e.code == code
    requires CodeOk(cfg, ContinueCode(CodeOf(w.log, code), e, code), row)
    ensures Inv(cfg, w.(codes := w.codes[code := row], log := w.log + [e]))
  {
    AppendOk(cfg, w.log, e);
    Append(w.log, e);
    StoriesStayOk(cfg, w, e);
    forall tx | tx in w.transactions ensures TxOk(TxOf(w.log + [e], tx), w.transactions[tx]) {
      assert TxOk(TxOf(w.log, tx), w.transactions[tx]);
    }
    forall c | c in w.codes[code := row] ensures CodeOk(cfg, CodeOf(w.log + [e], c), w.codes[code := row][c]) {
      assert c != code ==> CodeOk(cfg, CodeOf(w.log, c), w.codes[c]);
    }
  }

  lemma BindKeepsInv(cfg: Config, w: World, tx: TxHash, p: Principal, now: Time)
    requires Inv(cfg, w) && CanBind(w, tx, p, now)
    ensures Inv(cfg, Bind(w, tx, p))
  {
    assert TxOk(TxOf(w.log, tx), w.transactions[tx]);
    TxRecordKeepsInv(cfg, w, Bound(tx, p), tx, w.transactions[tx].(principal := Some(p)));
  }

  /** After a consumption the transaction is spent, its owner is known, and no code has come of it. */
  ghost predicate JustConsumed(w: World, tx: TxHash, p: Principal, request: Request) {
    TxOf(w.log, tx) == TxStory(Some(request), Some(p), true, 0)
  }

  lemma ConsumeKeepsInv(cfg: Config, w: World, tx: TxHash, p: Principal, now: Time)
    requires Inv(cfg, w) && CanConsume(w, tx, p, now)
    ensures Inv(cfg, Consume(w, tx, p)) && JustConsumed(Consume(w, tx, p), tx, p, w.transactions[tx].request)
  {
    assert TxOk(TxOf(w.log, tx), w.transactions[tx]) && StoryOk(TxOf(w.log, tx));
    TxRecordKeepsInv(cfg, w, Consumed(tx, p), tx, w.transactions[tx].(used := true));
    Append(w.log, Consumed(tx, p));
  }

  lemma InsertKeepsInv(cfg: Config, w: World, code: CodeHash, origin: Option<TxHash>, request: Request, p: Principal, now: Time)
    requires Inv(cfg, w) && CodeOf(w.log, code) == NO_CODE
    requires origin.Some? ==> JustConsumed(w, origin.value, p, request)
    ensures Inv(cfg, InsertCode(cfg, w, code, origin, TermsOf(request), p, now))
  {
    CodeRecordKeepsInv(cfg, w, Issued(code, origin, TermsOf(request), p, now), code,
                       Code(TermsOf(request), p, now + cfg.codeTtlSeconds * SECOND, false));
  }

  lemma ContinueKeepsInv(cfg: Config, w: World, tx: TxHash, p: Principal, boundAt: Time, now: Time, code: CodeHash)
    requires Inv(cfg, w) && CodeOf(w.log, code) == NO_CODE
    ensures Inv(cfg, Continue(cfg, w, tx, p, boundAt, now, code).world)
  {
    if CanBind(w, tx, p, boundAt) {
      var w1 := Bind(w, tx, p);
      BindKeepsInv(cfg, w, tx, p, boundAt);
      Append(w.log, Bound(tx, p));
      if CanConsume(w1, tx, p, now) {
        ConsumeKeepsInv(cfg, w1, tx, p, now);
      }
      var v := Validate(cfg, w.clients, w.transactions[tx].request);
      if v.Valid? {
        ContinueValidatedKeepsInv(cfg, w1, tx, v.client, p, now, code);
      }
    }
  }

  lemma ConsumeThenInsert(cfg: Config, w: World, tx: TxHash, p: Principal, now: Time, code: CodeHash)
    requires Inv(cfg, w) && CodeOf(w.log, code) == NO_CODE && CanConsume(w, tx, p, now)
    ensures Inv(cfg, InsertCode(cfg, Consume(w, tx, p), code, Some(tx), TermsOf(w.transactions[tx].request), p, now))
  {
    ConsumeKeepsInv(cfg, w, tx, p, now);
    Append(w.log, Consumed(tx, p));
    InsertKeepsInv(cfg, Consume(w, tx, p), code, Some(tx), w.transactions[tx].request, p, now);
  }

  lemma ContinueValidatedKeepsInv(cfg: Config, w: World, tx: TxHash, client: Client, p: Principal, now: Time, code: CodeHash)
    requires Inv(cfg, w) && CodeOf(w.log, code) == NO_CODE && tx in w.transactions
    ensures Inv(cfg, ContinueValidated(cfg, w, tx, client, p, now, code).world)
  {
    var after := ContinueValidated(cfg, w, tx, client, p, now, code).world;
    if !CanConsume(w, tx, p, now) {
      assert after == w;
    } else if client.requiresConsent || !AllowsOrganization(client, p.organization) {
      ConsumeKeepsInv(cfg, w, tx, p, now);
      assert after == w || after == Consume(w, tx, p);
    } else {
      ConsumeThenInsert(cfg, w, tx, p, now, code);
    }
  }

  lemma DecideKeepsInv(cfg: Config, w: World, tx: TxHash, p: Principal, choice: Choice, now: Time, code: CodeHash)
    requires Inv(cfg, w) && CodeOf(w.log, code) == NO_CODE
    ensures Inv(cfg, Decide(cfg, w, tx, p, choice, now, code).world)
  {
    if CanConsume(w, tx, p, now) {
      ConsumeKeepsInv(cfg, w, tx, p, now);
      ConsumeThenInsert(cfg, w, tx, p, now, code);
    }
  }

  lemma SwapKeepsInv(cfg: Config, w: World, auth: Option<ClientId>, x: Exchange, now: Time)
    requires Inv(cfg, w) && Exchanges(cfg, w, auth, x, now)
    ensures Inv(cfg, Redeem(w, auth.value, x, now))
  {
    var c := w.codes[x.code];
    assert CodeOk(cfg, CodeOf(w.log, x.code), c);
    CodeRecordKeepsInv(cfg, w, Exchanged(x.code, auth.value, x.redirectUri, x.verifier, c.principal, now), x.code, c.(used := true));
  }

  lemma OpenKeepsInv(cfg: Config, w: World, tx: TxHash, request: Request, principal: Option<Principal>, expiresAt: Time)
    requires Inv(cfg, w)
    ensures Inv(cfg, Step(cfg, w, Open(tx, request, principal, expiresAt)))
  {
    if TxOf(w.log, tx) == NO_TX && Validate(cfg, w.clients, request).Valid? {
      TxRecordKeepsInv(cfg, w, Opened(tx, request, principal), tx, Transaction(request, expiresAt, principal, false));
    }
  }

  lemma StepKeepsInv(cfg: Config, w: World, a: Action)
    requires Inv(cfg, w)
    ensures Inv(cfg, Step(cfg, w, a))
  {
    match a
    case Open(tx, request, principal, expiresAt) => OpenKeepsInv(cfg, w, tx, request, principal, expiresAt);
    case Direct(request, who, now, code) =>
      if CodeOf(w.log, code) == NO_CODE {
        InsertKeepsInv(cfg, w, code, None, request, who, now);
      }
    case Resume(tx, who, boundAt, now, code, keep) =>
      if CodeOf(w.log, code) == NO_CODE {
        ContinueKeepsInv(cfg, w, tx, who, boundAt, now, code);
      }
    case Choose(tx, who, choice, now, code, keep) =>
      if CodeOf(w.log, code) == NO_CODE {
        DecideKeepsInv(cfg, w, tx, who, choice, now, code);
      }
    case Swap(auth, x, now) =>
      if Exchanges(cfg, w, auth, x, now) {
        SwapKeepsInv(cfg, w, auth, x, now);
      }
    case _ =>
  }

  lemma {:induction false} RunKeepsInv(cfg: Config, w: World, actions: seq<Action>)
    requires Inv(cfg, w)
    ensures Inv(cfg, Run(cfg, w, actions))
    decreases |actions|
  {
    if actions != [] {
      StepKeepsInv(cfg, w, actions[0]);
      RunKeepsInv(cfg, Step(cfg, w, actions[0]), actions[1..]);
    }
  }

  // ---- What every run guarantees ---------------------------------------------------------------------------------

  function LogFrom(cfg: Config, actions: seq<Action>): Log {
    Run(cfg, START, actions).log
  }

  lemma ReachableLog(cfg: Config, actions: seq<Action>)
    ensures LogOk(cfg, LogFrom(cfg, actions))
  {
    RunKeepsInv(cfg, START, actions);
  }

  predicate Ties(e: Entry, tx: TxHash, who: Principal) {
    (e.Opened? && e.tx == tx && e.principal == Some(who))
    || (e.Bound? && e.tx == tx && e.who == who) || (e.Consumed? && e.tx == tx && e.who == who)
    || (e.Issued? && e.origin == Some(tx) && e.who == who)
  }

  lemma {:induction false} TiedOnce(cfg: Config, log: Log, tx: TxHash, i: nat, who: Principal)
    requires LogOk(cfg, log) && i < |log| && Ties(log[i], tx, who)
    ensures TxOf(log, tx).principal == Some(who) && TxOf(log, tx).request.Some?
  {
    var n := |log| - 1;
    assert EntryOk(cfg, log[..n], log[n]);
    if i < n {
      PrefixOk(cfg, log, n);
      TiedOnce(cfg, log[..n], tx, i, who);
    }
  }

  lemma PrefixOk(cfg: Config, log: Log, n: nat)
    requires LogOk(cfg, log) && n <= |log|
    ensures LogOk(cfg, log[..n])
  {
    forall k | 0 <= k < n ensures EntryOk(cfg, log[..n][..k], log[..n][k]) {
      assert log[..n][..k] == log[..k] && log[..n][k] == log[k];
    }
  }

  /** Whoever a transaction is opened for, bound to, consumed by, or issues a code for is one and the
      same user and organization. */
  lemma OnePrincipalPerTransaction(cfg: Config, actions: seq<Action>, i: nat, j: nat, tx: TxHash, a: Principal, b: Principal)
    requires i < |LogFrom(cfg, actions)| && Ties(LogFrom(cfg, actions)[i], tx, a)
    requires j < |LogFrom(cfg, actions)| && Ties(LogFrom(cfg, actions)[j], tx, b)
    ensures a == b
  {
    ReachableLog(cfg, actions);
    TiedOnce(cfg, LogFrom(cfg, actions), tx, i, a);
    TiedOnce(cfg, LogFrom(cfg, actions), tx, j, b);
  }

  lemma {:induction false} StoriesRemember(log: Log, k: nat)
    requires k < |log|
    ensures log[k].Consumed? ==> TxOf(log, log[k].tx).used
    ensures log[k].Issued? && log[k].origin.Some? ==> TxOf(log, log[k].origin.value).issued > 0
    ensures log[k].Exchanged? ==> CodeOf(log, log[k].code).exchanged
    ensures log[k].Issued? ==> CodeOf(log, log[k].code).granted.Some?
  {
    if k < |log| - 1 {
      StoriesRemember(log[..|log| - 1], k);
    }
  }

  /** A transaction is consumed at most once. */
  lemma ConsumedAtMostOnce(cfg: Config, actions: seq<Action>, i: nat, j: nat)
    requires i < j < |LogFrom(cfg, actions)| && LogFrom(cfg, actions)[i].Consumed? && LogFrom(cfg, actions)[j].Consumed?
    ensures LogFrom(cfg, actions)[i].tx != LogFrom(cfg, actions)[j].tx
  {
    ReachableLog(cfg, actions);
    var log := LogFrom(cfg, actions);
    assert EntryOk(cfg, log[..j], log[j]);
    StoriesRemember(log[..j], i);
  }

  /** And yields at most one code. */
  lemma OneCodePerTransaction(cfg: Config, actions: seq<Action>, i: nat, j: nat)
    requires i < j < |LogFrom(cfg, actions)| && LogFrom(cfg, actions)[i].Issued? && LogFrom(cfg, actions)[j].Issued?
    requires LogFrom(cfg, actions)[i].origin.Some?
    ensures LogFrom(cfg, actions)[i].origin != LogFrom(cfg, actions)[j].origin
  {
    ReachableLog(cfg, actions);
    var log := LogFrom(cfg, actions);
    assert EntryOk(cfg, log[..j], log[j]);
    StoriesRemember(log[..j], i);
  }

  /** A code is exchanged at most once. */
  lemma ExchangedAtMostOnce(cfg: Config, actions: seq<Action>, i: nat, j: nat)
    requires i < j < |LogFrom(cfg, actions)| && LogFrom(cfg, actions)[i].Exchanged? && LogFrom(cfg, actions)[j].Exchanged?
    ensures LogFrom(cfg, actions)[i].code != LogFrom(cfg, actions)[j].code
  {
    ReachableLog(cfg, actions);
    var log := LogFrom(cfg, actions);
    assert EntryOk(cfg, log[..j], log[j]);
    StoriesRemember(log[..j], i);
  }

  lemma {:induction false} GrantIsLogged(log: Log, code: CodeHash) returns (k: nat)
    requires CodeOf(log, code).granted.Some?
    ensures k < |log| && log[k].Issued? && log[k].code == code
    ensures CodeOf(log, code).granted == Some(Grant(log[k].terms, log[k].who, log[k].at))
  {
    var n := |log| - 1;
    if log[n].Issued? && log[n].code == code {
      k := n;
    } else {
      k := GrantIsLogged(log[..n], code);
    }
  }

  lemma {:induction false} RequestIsLogged(log: Log, tx: TxHash) returns (k: nat)
    requires TxOf(log, tx).request.Some?
    ensures k < |log| && log[k].Opened? && log[k].tx == tx && TxOf(log, tx).request == Some(log[k].request)
  {
    var n := |log| - 1;
    if log[n].Opened? && log[n].tx == tx {
      k := n;
    } else {
      k := RequestIsLogged(log[..n], tx);
    }
  }

  /** An exchange redeems an earlier code for the same user, by the client and with the redirect
      URI the code was issued for, with a verifier of its challenge, and before it expired. */
  lemma ExchangeFitsItsCode(cfg: Config, actions: seq<Action>, k: nat) returns (issue: nat)
    requires k < |LogFrom(cfg, actions)| && LogFrom(cfg, actions)[k].Exchanged?
    ensures issue < k
    ensures var log := LogFrom(cfg, actions);
            && log[issue].Issued? && log[issue].code == log[k].code && log[issue].who == log[k].who
            && log[issue].terms.client == log[k].client && log[issue].terms.redirectUri == log[k].redirectUri
            && log[issue].terms.challenge == cfg.s256(log[k].verifier)
            && log[k].at < log[issue].at + cfg.codeTtlSeconds * SECOND
  {
    ReachableLog(cfg, actions);
    var log := LogFrom(cfg, actions);
    assert EntryOk(cfg, log[..k], log[k]);
    issue := GrantIsLogged(log[..k], log[k].code);
  }

  /** A code that came from an interaction carries the terms of the request that opened it. */
  lemma CodeFitsItsRequest(cfg: Config, actions: seq<Action>, k: nat) returns (opening: nat)
    requires k < |LogFrom(cfg, actions)| && LogFrom(cfg, actions)[k].Issued? && LogFrom(cfg, actions)[k].origin.Some?
    ensures opening < k
    ensures var log := LogFrom(cfg, actions);
            && log[opening].Opened? && Some(log[opening].tx) == log[k].origin
            && log[k].terms.client == log[opening].request.client
            && log[k].terms.redirectUri == log[opening].request.redirectUri
            && log[k].terms.scope == log[opening].request.scope
            && log[k].terms.nonce == log[opening].request.nonce
            && log[k].terms.challenge == log[opening].request.challenge
  {
    ReachableLog(cfg, actions);
    var log := LogFrom(cfg, actions);
    assert EntryOk(cfg, log[..k], log[k]);
    opening := RequestIsLogged(log[..k], log[k].origin.value);
  }

  lemma CodesAreIssuedOnce(cfg: Config, actions: seq<Action>, i: nat, j: nat)
    requires i < |LogFrom(cfg, actions)| && LogFrom(cfg, actions)[i].Issued?
    requires j < |LogFrom(cfg, actions)| && LogFrom(cfg, actions)[j].Issued?
    requires LogFrom(cfg, actions)[i].code == LogFrom(cfg, actions)[j].code
    ensures i == j
  {
    ReachableLog(cfg, actions);
    var log := LogFrom(cfg, actions);
    if i < j {
      assert EntryOk(cfg, log[..j], log[j]);
      StoriesRemember(log[..j], i);
    } else if j < i {
      assert EntryOk(cfg, log[..i], log[i]);
      StoriesRemember(log[..i], j);
    }
  }

  /** From an exchange back to the request it began with: a code issued once and redeemed before it
      expired, for the user the interaction was bound to, by the client, with the redirect URI and a
      verifier of the challenge of the request that opened it. A code without an interaction was
      issued to a signed-in user directly. */
  lemma ExchangeGoesBackToItsRequest(cfg: Config, actions: seq<Action>, k: nat) returns (issue: nat, opening: nat)
    requires k < |LogFrom(cfg, actions)| && LogFrom(cfg, actions)[k].Exchanged?
    ensures issue < k && LogFrom(cfg, actions)[issue].Issued? && LogFrom(cfg, actions)[issue].code == LogFrom(cfg, actions)[k].code
    ensures forall i | 0 <= i < |LogFrom(cfg, actions)| && LogFrom(cfg, actions)[i].Issued?
              && LogFrom(cfg, actions)[i].code == LogFrom(cfg, actions)[k].code :: i == issue
    ensures LogFrom(cfg, actions)[k].at < LogFrom(cfg, actions)[issue].at + cfg.codeTtlSeconds * SECOND
    ensures LogFrom(cfg, actions)[issue].origin.Some? ==>
              var log := LogFrom(cfg, actions);
              && opening < issue && log[opening].Opened? && log[issue].origin == Some(log[opening].tx)
              && Ties(log[issue], log[opening].tx, log[k].who)
              && log[opening].request.client == log[k].client
              && log[opening].request.redirectUri == log[k].redirectUri
              && log[opening].request.challenge == cfg.s256(log[k].verifier)
  {
    issue := ExchangeFitsItsCode(cfg, actions, k);
    forall i | 0 <= i < |LogFrom(cfg, actions)| && LogFrom(cfg, actions)[i].Issued?
               && LogFrom(cfg, actions)[i].code == LogFrom(cfg, actions)[k].code
      ensures i == issue
    {
      CodesAreIssuedOnce(cfg, actions, i, issue);
    }
    opening := 0;
    if LogFrom(cfg, actions)[issue].origin.Some? {
      opening := CodeFitsItsRequest(cfg, actions, issue);
    }
  }

  /** No `#` but perhaps at the very end, where the fragment is empty. */
  predicate NoFragment(uri: string) {
    forall i | 0 <= i < |uri| - 1 :: uri[i] != '#'
  }

  /** 43 characters of base64url, section 4.2 of RFC 7636. */
  predicate GoodChallenge(challenge: string) {
    |challenge| == 43 &&
    forall i | 0 <= i < 43 ::
      var c := challenge[i];
      'A' <= c <= 'Z' || 'a' <= c <= 'z' || '0' <= c <= '9' || c in "-_"
  }

  /** 43 to 128 unreserved characters that hash to the challenge, section 4.1 of RFC 7636. */
  predicate GoodVerifier(cfg: Config, verifier: string, challenge: string) {
    && 43 <= |verifier| <= 128
    && (forall i | 0 <= i < |verifier| ::
          var c := verifier[i];
          'A' <= c <= 'Z' || 'a' <= c <= 'z' || '0' <= c <= '9' || c in "-._~")
    && cfg.s256(verifier) == challenge
  }

  /** What must hold of the client when a code is issued to it. */
  predicate MayIssue(cfg: Config, clients: Clients, terms: Terms, who: Principal, approved: bool) {
    && cfg.codeGrantEnabled && terms.client in clients
    && var client := clients[terms.client];
       && client.active && client.codeGrant && terms.redirectUri in client.redirectUris && NoFragment(terms.redirectUri)
       && GoodChallenge(terms.challenge) && Grants(client, terms.scope, cfg.oidcEnabled)
       && Admits(client, who.organization)
       && (client.requiresConsent ==> approved)
  }

  function LastOf(w: World, after: World): Option<Entry> {
    if |after.log| > |w.log| then Some(after.log[|after.log| - 1]) else None
  }

  /** If the step ends by issuing a code, the client may be issued it; it never ends in an exchange. */
  predicate IssuesProperly(cfg: Config, w: World, after: World, approved: bool) {
    match LastOf(w, after)
    case Some(Issued(_, _, terms, who, _)) => MayIssue(cfg, w.clients, terms, who, approved)
    case Some(Exchanged(_, _, _, _, _, _)) => false
    case _ => true
  }

  lemma ContinueIssuesProperly(cfg: Config, w: World, tx: TxHash, p: Principal, boundAt: Time, now: Time, code: CodeHash)
    ensures IssuesProperly(cfg, w, Continue(cfg, w, tx, p, boundAt, now, code).world, false)
  {
    if tx in w.transactions {
      ValidatedExactlyWhen(cfg, w.clients, w.transactions[tx].request);
    }
  }

  lemma DecideIssuesProperly(cfg: Config, w: World, tx: TxHash, p: Principal, choice: Choice, now: Time, code: CodeHash)
    ensures IssuesProperly(cfg, w, Decide(cfg, w, tx, p, choice, now, code).world, choice == Approve)
  {
    if tx in w.transactions {
      ValidatedExactlyWhen(cfg, w.clients, w.transactions[tx].request);
    }
  }

  /** Whichever step issues a code, at that moment its client is active and allowed the grant, the
      redirect URI is registered, the challenge well formed, scope and organization are allowed, and
      a client that requires consent had the user's approval. */
  lemma CodesAreIssuedWithConsent(cfg: Config, w: World, a: Action)
    ensures match LastOf(w, Step(cfg, w, a))
            case Some(Issued(_, _, terms, who, _)) => MayIssue(cfg, w.clients, terms, who, a.Choose? && a.choice == Approve)
            case Some(Exchanged(_, _, _, _, _, _)) => a.Swap?
            case _ => true
  {
    match a
    case Resume(tx, who, boundAt, now, code, _) => ContinueIssuesProperly(cfg, w, tx, who, boundAt, now, code);
    case Choose(tx, who, choice, now, code, _) => DecideIssuesProperly(cfg, w, tx, who, choice, now, code);
    case Direct(request, _, _, _) => ValidatedExactlyWhen(cfg, w.clients, request);
    case _ =>
  }

  /** Whoever is given tokens for a code passes the policy of that very moment. */
  lemma ExchangesFollowPolicy(cfg: Config, w: World, a: Action)
    requires LastOf(w, Step(cfg, w, a)).Some? && LastOf(w, Step(cfg, w, a)).value.Exchanged?
    ensures var e := LastOf(w, Step(cfg, w, a)).value;
            && e.client in w.clients && w.clients[e.client].active && w.clients[e.client].codeGrant
            && Admits(w.clients[e.client], e.who.organization) && Entitled(w.identities, e.who.user, e.who.organization)
            && e.code in w.codes && Grants(w.clients[e.client], w.codes[e.code].terms.scope, cfg.oidcEnabled)
  {
    CodesAreIssuedWithConsent(cfg, w, a);
  }

  // ---- When each step succeeds -------------------------------------------------------------------------------------

  /** The request may be answered with an error or a code, rather than refused outright. */
  predicate Answerable(clients: Clients, r: Request) {
    && NoFragment(r.redirectUri) && r.client in clients && clients[r.client].active
    && r.redirectUri in clients[r.client].redirectUris
  }

  /** And it is a proper code request of its client. */
  predicate Proper(cfg: Config, clients: Clients, r: Request) {
    && Answerable(clients, r) && cfg.codeGrantEnabled && r.responseType == "code" && clients[r.client].codeGrant
    && r.challengeMethod == "S256" && GoodChallenge(r.challenge) && Grants(clients[r.client], r.scope, cfg.oidcEnabled)
  }

  lemma ValidatedExactlyWhen(cfg: Config, clients: Clients, r: Request)
    ensures Validate(cfg, clients, r).Rejected? <==> !Answerable(clients, r)
    ensures Validate(cfg, clients, r).Valid? <==> Proper(cfg, clients, r)
    ensures Validate(cfg, clients, r).Valid? ==> r.client in clients && Validate(cfg, clients, r).client == clients[r.client]
  {
    forall c ensures c in "-_" <==> c == '-' || c == '_' {}
    assert HasFragment(r.redirectUri) <==> !NoFragment(r.redirectUri);
    PkceIsGood(r.challengeMethod, r.challenge);
  }

  lemma PkceIsGood(challengeMethod: string, challenge: string)
    ensures PkceOk(challengeMethod, challenge) <==> challengeMethod == "S256" && GoodChallenge(challenge)
  {
    if PkceOk(challengeMethod, challenge) {
      forall i | 0 <= i < 43 ensures ChallengeChar(challenge[i]) {
        assert challenge[i] in challenge;
      }
    }
    if GoodChallenge(challenge) {
      forall c | c in challenge ensures ChallengeChar(c) {
        var i :| 0 <= i < |challenge| && challenge[i] == c;
      }
    }
  }

  lemma VerifierIsGood(cfg: Config, verifier: string, challenge: string)
    ensures VerifierOk(cfg, verifier, challenge) <==> GoodVerifier(cfg, verifier, challenge)
  {
    if VerifierOk(cfg, verifier, challenge) {
      forall i | 0 <= i < |verifier| ensures VerifierChar(verifier[i]) {
        assert verifier[i] in verifier;
      }
    }
    if GoodVerifier(cfg, verifier, challenge) {
      forall c | c in verifier ensures VerifierChar(c) {
        var i :| 0 <= i < |verifier| && verifier[i] == c;
      }
    }
  }

  /** The transaction is there, unused, unexpired, and open to this user. */
  predicate OpenTo(w: World, tx: TxHash, p: Principal, now: Time, bound: bool) {
    && tx in w.transactions && !w.transactions[tx].used && now < w.transactions[tx].expiresAt
    && (w.transactions[tx].principal == Some(p) || (!bound && w.transactions[tx].principal == None))
  }

  /** What a new code says: the terms of the request, its user, and when it ends. */
  predicate IsCodeFor(cfg: Config, c: Code, r: Request, p: Principal, now: Time) {
    && c.terms.client == r.client && c.terms.redirectUri == r.redirectUri && c.terms.scope == r.scope
    && c.terms.nonce == r.nonce && c.terms.challenge == r.challenge
    && c.principal == p && !c.used && c.expiresAt == now + cfg.codeTtlSeconds * SECOND
  }

  /** Continuing an interaction gives a code at once exactly when the transaction is open to the user,
      its request proper, the organization admitted, and no consent required; with consent required
      it shows the consent page, and leaves the transaction open. */
  lemma ContinuedExactlyWhen(cfg: Config, w: World, tx: TxHash, p: Principal, boundAt: Time, now: Time, code: CodeHash)
    requires boundAt <= now
    ensures var reply := Continue(cfg, w, tx, p, boundAt, now, code);
            var open := OpenTo(w, tx, p, boundAt, false);
            && (reply.outcome.RedirectCode? <==>
                  && open && now < w.transactions[tx].expiresAt && Proper(cfg, w.clients, w.transactions[tx].request)
                  && var client := w.clients[w.transactions[tx].request.client]; !client.requiresConsent && Admits(client, p.organization))
            && (reply.outcome.ShowConsent? <==>
                  && open && Proper(cfg, w.clients, w.transactions[tx].request)
                  && var client := w.clients[w.transactions[tx].request.client]; client.requiresConsent && Admits(client, p.organization))
            && (reply.outcome.RedirectError? <==>
                  && open && now < w.transactions[tx].expiresAt && Answerable(w.clients, w.transactions[tx].request)
                  && (!Proper(cfg, w.clients, w.transactions[tx].request)
                      || !Admits(w.clients[w.transactions[tx].request.client], p.organization)))
            && (reply.outcome.RedirectCode? ==>
                  && reply.outcome.code == code && code in reply.world.codes && reply.world.transactions[tx].used
                  && IsCodeFor(cfg, reply.world.codes[code], w.transactions[tx].request, p, now))
            && (reply.outcome.ShowConsent? ==> OpenTo(reply.world, tx, p, boundAt, true))
            && (reply.outcome.RedirectError? ==> reply.world.transactions[tx].used && reply.world.codes == w.codes)
  {
    if tx in w.transactions {
      ValidatedExactlyWhen(cfg, w.clients, w.transactions[tx].request);
    }
  }

  /** A decision gives a code exactly when the transaction is open and bound to the user, its request
      proper, the organization admitted, and the user approves or need not. Whatever is decided, the
      transaction is used. */
  lemma DecidedExactlyWhen(cfg: Config, w: World, tx: TxHash, p: Principal, choice: Choice, now: Time, code: CodeHash)
    ensures var reply := Decide(cfg, w, tx, p, choice, now, code);
            var open := OpenTo(w, tx, p, now, true);
            && (reply.outcome.RedirectCode? <==>
                  && open && Proper(cfg, w.clients, w.transactions[tx].request)
                  && var client := w.clients[w.transactions[tx].request.client];
                     Admits(client, p.organization) && (client.requiresConsent ==> choice == Approve))
            && (reply.outcome.RedirectError? <==>
                  && open && Answerable(w.clients, w.transactions[tx].request)
                  && var client := w.clients[w.transactions[tx].request.client];
                     || !Proper(cfg, w.clients, w.transactions[tx].request) || !Admits(client, p.organization)
                     || (client.requiresConsent && choice == Deny))
            && (if open then tx in reply.world.transactions && reply.world.transactions[tx].used else reply.world == w)
            && (reply.outcome.RedirectCode? ==>
                  && reply.outcome.code == code && code in reply.world.codes
                  && IsCodeFor(cfg, reply.world.codes[code], w.transactions[tx].request, p, now))
            && (!reply.outcome.RedirectCode? ==> reply.world.codes == w.codes)
  {
    if tx in w.transactions {
      ValidatedExactlyWhen(cfg, w.clients, w.transactions[tx].request);
    }
  }

  /** An exchange succeeds exactly when the client is authenticated, active and allowed the grant and
      the scope, the code is its own, unused and unexpired, redirect URI and verifier fit, and the user
      is entitled to an organization that the client admits. The code is then used. */
  lemma ExchangedExactlyWhen(cfg: Config, w: World, auth: Option<ClientId>, x: Exchange, now: Time)
    ensures var after := Step(cfg, w, Swap(auth, x, now));
            if && cfg.codeGrantEnabled && auth.Some? && auth.value in w.clients && x.code in w.codes
               && var client, c := w.clients[auth.value], w.codes[x.code];
                  && client.active && client.codeGrant && Grants(client, c.terms.scope, cfg.oidcEnabled)
                  && !c.used && now < c.expiresAt && c.terms.client == auth.value && c.terms.redirectUri == x.redirectUri
                  && GoodVerifier(cfg, x.verifier, c.terms.challenge)
                  && Admits(client, c.principal.organization) && Entitled(w.identities, c.principal.user, c.principal.organization)
            then && after.codes == w.codes[x.code := w.codes[x.code].(used := true)]
                 && after.log == w.log + [Exchanged(x.code, auth.value, x.redirectUri, x.verifier, w.codes[x.code].principal, now)]
            else after == w
  {
    if x.code in w.codes {
      VerifierIsGood(cfg, x.verifier, w.codes[x.code].terms.challenge);
    }
  }

  /** Which error a refused exchange gets; everything else wrong with a code is an invalid grant. */
  lemma ExchangeErrorsAreExact(cfg: Config, w: World, auth: Option<ClientId>, x: Exchange, now: Time)
    ensures var loaded := LoadCode(cfg, w, auth, x, now);
            var known := auth.Some? && auth.value in w.clients;
            && (loaded == Err(InvalidClient) <==> !known || (cfg.codeGrantEnabled && !w.clients[auth.value].active))
            && (loaded == Err(UnsupportedGrant) <==> known && !cfg.codeGrantEnabled)
            && (loaded == Err(UnauthorizedClient) <==>
                  known && cfg.codeGrantEnabled && w.clients[auth.value].active && !w.clients[auth.value].codeGrant)
            && (loaded == Err(InvalidScope) <==>
                  && known && cfg.codeGrantEnabled && w.clients[auth.value].active && w.clients[auth.value].codeGrant
                  && x.code in w.codes
                  && var c := w.codes[x.code];
                     && !c.used && now < c.expiresAt && c.terms.client == auth.value && c.terms.redirectUri == x.redirectUri
                     && !Grants(w.clients[auth.value], c.terms.scope, cfg.oidcEnabled))
  {
  }

  // ---- A denial ---------------------------------------------------------------------------------------------------

  /** A denied interaction yields no code if and only if, when the decision arrives, its request is
      no longer valid, the organization is not allowed, or the client still requires consent. */
  lemma DenialIsHonouredExactlyWhen(cfg: Config, w: World, tx: TxHash, p: Principal, now: Time, code: CodeHash)
    requires CanConsume(w, tx, p, now) && code !in w.codes
    ensures var v := Validate(cfg, w.clients, w.transactions[tx].request);
            Decide(cfg, w, tx, p, Deny, now, code).world.codes == w.codes <==>
              !v.Valid? || !AllowsOrganization(v.client, p.organization) || v.client.requiresConsent
  {
    var after := Decide(cfg, w, tx, p, Deny, now, code);
    assert after.outcome.RedirectCode? ==> code in after.world.codes;
  }

  lemma RunStep(cfg: Config, w: World, a: Action, rest: seq<Action>)
    ensures Run(cfg, w, [a] + rest) == Run(cfg, Step(cfg, w, a), rest)
  {
    assert ([a] + rest)[1..] == rest;
  }

  function SceneClient(consent: bool): Client {
    Client(true, {"uri"}, true, false, {}, consent, None)
  }

  function SceneRequest(): Request {
    Request("code", 1, "uri", {}, None, seq(43, i => 'a'), "S256")
  }

  const WHO := Principal(5, 6)

  function SceneOpened(consent: bool): World {
    World(map[1 := SceneClient(consent)], map[], map[7 := Transaction(SceneRequest(), 100, Some(WHO), false)], map[],
          [Opened(7, SceneRequest(), Some(WHO))])
  }

  lemma SceneIsValid(cfg: Config, consent: bool)
    requires cfg.codeGrantEnabled
    ensures Validate(cfg, map[1 := SceneClient(consent)], SceneRequest()) == Valid(SceneClient(consent))
  {
  }

  lemma SceneOpens(cfg: Config)
    requires cfg.codeGrantEnabled
    ensures Step(cfg, World(map[1 := SceneClient(true)], map[], map[], map[], []), Open(7, SceneRequest(), Some(WHO), 100))
         == SceneOpened(true)
  {
    SceneIsValid(cfg, true);
  }

  lemma SceneDecides(cfg: Config)
    requires cfg.codeGrantEnabled
    ensures var log := Step(cfg, SceneOpened(false), Choose(7, WHO, Deny, 50, 9, false)).log;
            log[|log| - 1] == Issued(9, Some(7), TermsOf(SceneRequest()), WHO, 50)
  {
    SceneReplies(cfg);
    SceneHasNoCode();
    var reply := Decide(cfg, SceneOpened(false), 7, WHO, Deny, 50, 9);
    assert Step(cfg, SceneOpened(false), Choose(7, WHO, Deny, 50, 9, false)) == reply.world;
  }

  lemma SceneHasNoCode()
    ensures CodeOf(SceneOpened(false).log, 9) == NO_CODE
  {
    Append([], Opened(7, SceneRequest(), Some(WHO)));
    assert [] + [Opened(7, SceneRequest(), Some(WHO))] == SceneOpened(false).log;
  }

  lemma SceneReplies(cfg: Config)
    requires cfg.codeGrantEnabled
    ensures Decide(cfg, SceneOpened(false), 7, WHO, Deny, 50, 9)
         == Reply(InsertCode(cfg, Consume(SceneOpened(false), 7, WHO), 9, Some(7), TermsOf(SceneRequest()), WHO, 50), RedirectCode(9))
  {
    SceneIsValid(cfg, false);
  }

  /** A run in which a user denies and a confidential client is given a code all the same: the
      operator dropped its consent requirement while the consent page was open. Of a public client
      with the code grant the requirement cannot be dropped. */
  lemma DeniedYetIssued(cfg: Config) returns (actions: seq<Action>)
    requires cfg.codeGrantEnabled
    ensures |actions| > 0 && actions[|actions| - 1] == Choose(7, WHO, Deny, 50, 9, false)
    ensures var log := LogFrom(cfg, actions);
            |log| > 0 && log[|log| - 1] == Issued(9, Some(7), TermsOf(SceneRequest()), WHO, 50)
  {
    var a, b := SetClient(1, SceneClient(true)), Open(7, SceneRequest(), Some(WHO), 100);
    var c, d := SetClient(1, SceneClient(false)), Choose(7, WHO, Deny, 50, 9, false);
    actions := [a] + ([b] + ([c] + ([d] + [])));
    var w1 := World(map[1 := SceneClient(true)], map[], map[], map[], []);
    RunStep(cfg, START, a, [b] + ([c] + ([d] + [])));
    assert Step(cfg, START, a) == w1;
    RunStep(cfg, w1, b, [c] + ([d] + []));
    SceneOpens(cfg);
    RunStep(cfg, SceneOpened(true), c, [d] + []);
    assert Step(cfg, SceneOpened(true), c) == SceneOpened(false);
    RunStep(cfg, SceneOpened(false), d, []);
    SceneDecides(cfg);
  }
}
