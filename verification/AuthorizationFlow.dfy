/** app/oauth2/authorization: interactions, authorization codes and their exchange. */
module AuthorizationFlow {
  import opened Common
  import opened OAuth2Policy

  type TxHash = nat
  type CodeHash = nat

  datatype Principal = Principal(user: UserId, organization: OrganizationId)

  datatype Request = Request(
    responseType: string, client: ClientId, redirectUri: string, scope: set<string>, nonce: Option<string>,
    challenge: string, challengeMethod: string)

  datatype Config = Config(codeGrantEnabled: bool, oidcEnabled: bool, codeTtlSeconds: nat, s256: string -> string)

  // ---- Validation and authorization: no writes --------------------------------------------------------

  /** Rejected is the ValueError; Failed redirects the error to the client. */
  datatype Validation = Rejected | Failed | Valid(client: Client)

  predicate HasFragment(uri: string) {
    exists i :: 0 <= i < |uri| - 1 && uri[i] == '#'
  }

  predicate ChallengeChar(c: char) {
    'A' <= c <= 'Z' || 'a' <= c <= 'z' || '0' <= c <= '9' || c == '_' || c == '-'
  }

  predicate PkceOk(challengeMethod: string, challenge: string) {
    challengeMethod == "S256" && |challenge| == 43 && forall c | c in challenge :: ChallengeChar(c)
  }

  /** `validate_request`. */
  function Validate(cfg: Config, clients: Clients, r: Request): Validation {
    if HasFragment(r.redirectUri) then Rejected
    else if r.client !in clients || !clients[r.client].active then Rejected
    else
      var client := clients[r.client];
      if r.redirectUri !in client.redirectUris then Rejected
      else if !cfg.codeGrantEnabled then Failed
      else if r.responseType != "code" then Failed
      else if !client.codeGrant then Failed
      else if !PkceOk(r.challengeMethod, r.challenge) then Failed
      else if !ScopeOk(client, r.scope, cfg.oidcEnabled) then Failed
      else Valid(client)
  }

  datatype Choice = Approve | Deny | Other(text: string)

  datatype Verdict = AccessDenied | ConsentPage | IssueCode

  /** `authorize_validated`, up to the insert. */
  function Authorize(client: Client, organization: nat, consent: Option<Choice>): Verdict {
    if !AllowsOrganization(client, organization) then AccessDenied
    else if client.requiresConsent && consent == Some(Deny) then AccessDenied
    else if client.requiresConsent && consent != Some(Approve) then ConsentPage
    else IssueCode
  }

  // ---- The tables, and what happened to them ------------------------------------------------------------

  datatype Transaction = Transaction(request: Request, expiresAt: Time, principal: Option<Principal>, used: bool)

  /** What a code is good for. */
  datatype Terms = Terms(client: ClientId, redirectUri: string, scope: set<string>, nonce: Option<string>, challenge: string)

  datatype Code = Code(terms: Terms, principal: Principal, expiresAt: Time, used: bool)

  function TermsOf(r: Request): Terms {
    Terms(r.client, r.redirectUri, r.scope, r.nonce, r.challenge)
  }

  datatype Entry =
    | Opened(tx: TxHash, request: Request, principal: Option<Principal>)
    | Bound(tx: TxHash, who: Principal)
    | Consumed(tx: TxHash, who: Principal)
    | Issued(code: CodeHash, origin: Option<TxHash>, terms: Terms, who: Principal, at: Time)
    | Exchanged(code: CodeHash, client: ClientId, redirectUri: string, verifier: string, who: Principal, at: Time)

  type Log = seq<Entry>

  datatype World = World(
    clients: Clients, identities: Identities, transactions: map<TxHash, Transaction>, codes: map<CodeHash, Code>, log: Log)

  // ---- The conditional updates ----------------------------------------------------------------------------

  predicate CanBind(w: World, tx: TxHash, p: Principal, now: Time) {
    && tx in w.transactions && w.transactions[tx].expiresAt > now && !w.transactions[tx].used
    && (w.transactions[tx].principal.None? || w.transactions[tx].principal == Some(p))
  }

  function Bind(w: World, tx: TxHash, p: Principal): World
    requires tx in w.transactions
  {
    w.(transactions := w.transactions[tx := w.transactions[tx].(principal := Some(p))], log := w.log + [Bound(tx, p)])
  }

  predicate CanConsume(w: World, tx: TxHash, p: Principal, now: Time) {
    && tx in w.transactions && w.transactions[tx].principal == Some(p)
    && w.transactions[tx].expiresAt > now && !w.transactions[tx].used
  }

  function Consume(w: World, tx: TxHash, p: Principal): World
    requires tx in w.transactions
  {
    w.(transactions := w.transactions[tx := w.transactions[tx].(used := true)], log := w.log + [Consumed(tx, p)])
  }

  function InsertCode(cfg: Config, w: World, code: CodeHash, origin: Option<TxHash>, terms: Terms, p: Principal, now: Time): World {
    w.(codes := w.codes[code := Code(terms, p, now + cfg.codeTtlSeconds * SECOND, false)],
       log := w.log + [Issued(code, origin, terms, p, now)])
  }

  // ---- Interactions ------------------------------------------------------------------------------------------

  /** Refused is the `None` that callers report as an invalid interaction. */
  datatype Outcome = Refused | ShowConsent | RedirectError | RedirectCode(code: CodeHash)

  datatype Reply = Reply(world: World, outcome: Outcome)

  /** The part of `continue_interaction` after a successful validation. */
  function ContinueValidated(cfg: Config, w: World, tx: TxHash, client: Client, p: Principal, now: Time, code: CodeHash): Reply
    requires tx in w.transactions
  {
    if !client.requiresConsent && !CanConsume(w, tx, p, now) then Reply(w, Refused)
    else
      var w2 := if client.requiresConsent then w else Consume(w, tx, p);
      match Authorize(client, p.organization, None)
      case ConsentPage => Reply(w2, ShowConsent)
      case AccessDenied =>
        if !client.requiresConsent then Reply(w2, RedirectError)
        else if CanConsume(w2, tx, p, now) then Reply(Consume(w2, tx, p), RedirectError)
        else Reply(w2, Refused)
      case IssueCode =>
        Reply(InsertCode(cfg, w2, code, Some(tx), TermsOf(w.transactions[tx].request), p, now),
              RedirectCode(code))
  }

  function Continue(cfg: Config, w: World, tx: TxHash, p: Principal, boundAt: Time, now: Time, code: CodeHash): Reply {
    if !CanBind(w, tx, p, boundAt) then Reply(w, Refused)
    else
      var w1 := Bind(w, tx, p);
      match Validate(cfg, w.clients, w.transactions[tx].request)
      case Rejected => Reply(w1, Refused)
      case Failed => if CanConsume(w1, tx, p, now) then Reply(Consume(w1, tx, p), RedirectError) else Reply(w1, Refused)
      case Valid(client) => ContinueValidated(cfg, w1, tx, client, p, now, code)
  }

  function Decide(cfg: Config, w: World, tx: TxHash, p: Principal, choice: Choice, now: Time, code: CodeHash): Reply {
    if !CanConsume(w, tx, p, now) then Reply(w, Refused)
    else
      var w1 := Consume(w, tx, p);
      var request := w.transactions[tx].request;
      match Validate(cfg, w.clients, request)
      case Rejected => Reply(w1, Refused)
      case Failed => Reply(w1, RedirectError)
      case Valid(client) =>
        match Authorize(client, p.organization, Some(choice))
        case AccessDenied => Reply(w1, RedirectError)
        case ConsentPage => Reply(w1, Refused)
        case IssueCode =>
          Reply(InsertCode(cfg, w1, code, Some(tx), TermsOf(request), p, now), RedirectCode(code))
  }

  // ---- Exchange ------------------------------------------------------------------------------------------------

  datatype GrantError = InvalidClient | UnsupportedGrant | UnauthorizedClient | InvalidGrant | InvalidScope

  datatype Exchange = Exchange(code: CodeHash, redirectUri: string, verifier: string)

  predicate VerifierChar(c: char) {
    ChallengeChar(c) || c == '.' || c == '~'
  }

  predicate VerifierOk(cfg: Config, verifier: string, challenge: string) {
    43 <= |verifier| <= 128 && (forall c | c in verifier :: VerifierChar(c)) && cfg.s256(verifier) == challenge
  }

  /** `_validate_authorization_code_client` and `_load_authorization_code`. */
  function LoadCode(cfg: Config, w: World, auth: Option<ClientId>, x: Exchange, now: Time): Result<Code, GrantError> {
    if auth.None? || auth.value !in w.clients then Err(InvalidClient)
    else
      var client := w.clients[auth.value];
      if !cfg.codeGrantEnabled then Err(UnsupportedGrant)
      else if !client.active then Err(InvalidClient)
      else if !client.codeGrant then Err(UnauthorizedClient)
      else if x.code !in w.codes || w.codes[x.code].used then Err(InvalidGrant)
      else
        var c := w.codes[x.code];
        if c.expiresAt <= now then Err(InvalidGrant)
        else if c.terms.client != auth.value then Err(InvalidGrant)
        else if c.terms.redirectUri != x.redirectUri then Err(InvalidGrant)
        else if !ScopeOk(client, c.terms.scope, cfg.oidcEnabled) then Err(InvalidScope)
        else if !VerifierOk(cfg, x.verifier, c.terms.challenge) then Err(InvalidGrant)
        else Ok(c)
  }

  predicate Eligible(w: World, p: Principal) {
    EligibleIdentity(w.identities, Some(p.user), Some(p.organization)).Some?
  }

  predicate Exchanges(cfg: Config, w: World, auth: Option<ClientId>, x: Exchange, now: Time) {
    && LoadCode(cfg, w, auth, x, now).Ok? && auth.Some? && auth.value in w.clients && x.code in w.codes
    && Eligible(w, w.codes[x.code].principal)
    && AllowsOrganization(w.clients[auth.value], w.codes[x.code].principal.organization)
  }

  function Redeem(w: World, client: ClientId, x: Exchange, now: Time): World
    requires x.code in w.codes
  {
    w.(codes := w.codes[x.code := w.codes[x.code].(used := true)],
       log := w.log + [Exchanged(x.code, client, x.redirectUri, x.verifier, w.codes[x.code].principal, now)])
  }

  // ---- The code ---------------------------------------------------------------------------------------------------

  class AuthorizationServer {
    var world: World
    const cfg: Config

    constructor (cfg: Config, clients: Clients, identities: Identities)
      ensures this.cfg == cfg && world == World(clients, identities, map[], map[], [])
    {
      this.cfg, this.world := cfg, World(clients, identities, map[], map[], []);
    }

    /** `bind_to_user`. */
    method BindToUser(tx: TxHash, p: Principal, now: Time) returns (found: Option<Transaction>)
      modifies this
      ensures found.Some? <==> CanBind(old(world), tx, p, now)
      ensures world == if found.Some? then Bind(old(world), tx, p) else old(world)
      ensures found.Some? ==> found.value == world.transactions[tx] && found.value.request == old(world).transactions[tx].request
    {
      if !CanBind(world, tx, p, now) {
        return None;
      }
      world := Bind(world, tx, p);
      return Some(world.transactions[tx]);
    }

    /** `consume`. */
    method ConsumeTransaction(tx: TxHash, p: Principal, now: Time) returns (found: Option<Transaction>)
      modifies this
      ensures found.Some? <==> CanConsume(old(world), tx, p, now)
      ensures world == if found.Some? then Consume(old(world), tx, p) else old(world)
      ensures found.Some? ==> found.value.request == old(world).transactions[tx].request
    {
      if !CanConsume(world, tx, p, now) {
        return None;
      }
      world := Consume(world, tx, p);
      return Some(world.transactions[tx]);
    }

    /** `authorize_validated`. */
    method AuthorizeValidated(request: Request, client: Client, origin: Option<TxHash>, p: Principal, consent: Option<Choice>,
                              now: Time, code: CodeHash)
      returns (verdict: Verdict)
      modifies this
      ensures verdict == Authorize(client, p.organization, consent)
      ensures world == if verdict.IssueCode?
                       then InsertCode(cfg, old(world), code, origin, TermsOf(request), p, now)
                       else old(world)
    {
      if !AllowsOrganization(client, p.organization) {
        return AccessDenied;
      }
      if client.requiresConsent {
        if consent == Some(Deny) {
          return AccessDenied;
        }
        if consent != Some(Approve) {
          return ConsentPage;
        }
      }
      world := InsertCode(cfg, world, code, origin, TermsOf(request), p, now);
      return IssueCode;
    }

    /** `continue_interaction`. */
    method ContinueInteraction(tx: TxHash, p: Principal, boundAt: Time, now: Time, code: CodeHash) returns (outcome: Outcome)
      modifies this
      ensures Reply(world, outcome) == Continue(cfg, old(world), tx, p, boundAt, now, code)
    {
      var found := BindToUser(tx, p, boundAt);
      if found.None? {
        return Refused;
      }
      var request := found.value.request;
      var validated := Validate(cfg, world.clients, request);
      if validated.Rejected? {
        return Refused;
      }
      if validated.Failed? {
        var consumed := ConsumeTransaction(tx, p, now);
        return if consumed.Some? then RedirectError else Refused;
      }
      var client := validated.client;
      if !client.requiresConsent {
        var consumed := ConsumeTransaction(tx, p, now);
        if consumed.None? {
          return Refused;
        }
      }
      var verdict := AuthorizeValidated(request, client, Some(tx), p, None, now, code);
      if verdict != ConsentPage && client.requiresConsent {
        var consumed := ConsumeTransaction(tx, p, now);
        if consumed.None? {
          return Refused;
        }
      }
      return match verdict case ConsentPage => ShowConsent case AccessDenied => RedirectError case IssueCode => RedirectCode(code);
    }

    /** `decide`. */
    method DecideInteraction(tx: TxHash, p: Principal, choice: Choice, now: Time, code: CodeHash) returns (outcome: Outcome)
      modifies this
      ensures Reply(world, outcome) == Decide(cfg, old(world), tx, p, choice, now, code)
    {
      var found := ConsumeTransaction(tx, p, now);
      if found.None? {
        return Refused;
      }
      var validated := Validate(cfg, world.clients, found.value.request);
      if validated.Rejected? {
        return Refused;
      }
      if validated.Failed? {
        return RedirectError;
      }
      var verdict := AuthorizeValidated(found.value.request, validated.client, Some(tx), p, Some(choice), now, code);
      return match verdict case ConsentPage => Refused case AccessDenied => RedirectError case IssueCode => RedirectCode(code);
    }

    /** `handle_authorization_code_grant`. Whatever fails, the transaction rolls back. */
    method ExchangeCode(auth: Option<ClientId>, x: Exchange, now: Time) returns (result: Result<Principal, GrantError>)
      modifies this
      ensures result.Ok? <==> Exchanges(cfg, old(world), auth, x, now)
      ensures result.Err? ==> world == old(world)
      ensures result.Err? ==> var loaded := LoadCode(cfg, old(world), auth, x, now);
                              result.error == if loaded.Err? then loaded.error else InvalidGrant
      ensures result.Ok? ==> auth.Some? && x.code in old(world).codes
                             && world == Redeem(old(world), auth.value, x, now)
                             && result.value == old(world).codes[x.code].principal
    {
      var before := world;
      var loaded := LoadCode(cfg, world, auth, x, now);
      if loaded.Err? {
        return Err(loaded.error);
      }
      var p := loaded.value.principal;
      world := Redeem(world, auth.value, x, now);
      var identity := EligibleIdentity(world.identities, Some(p.user), Some(p.organization));
      if identity.None? {
        world := before;
        return Err(InvalidGrant);
      }
      if !AllowsOrganization(world.clients[auth.value], p.organization) {
        world := before;
        return Err(InvalidGrant);
      }
      return Ok(p);
    }
  }
}
