/** app/oauth2/principal.py and app/oauth2/tokens/introspection.py: two independent judges of the
    same access token, one for resource requests, one for the introspection endpoint. */
module TokenJudges {
  import opened Common
  import opened OAuth2Policy
  import Status = TokenFamilyStatus
  import Families = TokenFamilies
  import Cleanup = OAuth2Cleanup

  type SessionId = nat

  datatype Grant = AuthorizationCode | DeviceCode | ClientCredentials | Unsupported(name: string)

  datatype PrincipalType = UserType | ClientType

  datatype Session = Session(
    clientId: ClientId, grant: Grant, scope: string, user: Option<UserId>, organization: Option<OrganizationId>,
    endedAt: Option<Time>)

  /** The rows both judges read, with the unique indexes on the two token hashes. `subjectOf` is
      the text of a client id. */
  datatype Store = Store(
    sessions: map<SessionId, Session>, states: map<SessionId, Status.TokenState>,
    byAccessHash: map<string, SessionId>, byRefreshHash: map<string, SessionId>,
    activeClients: set<ClientId>, identities: Identities, subjectOf: ClientId -> string)

  /** What a JWT says once its signature, issuer, audience and expiry have been checked. */
  datatype Claims = Claims(
    clientId: ClientId, principalType: Option<PrincipalType>, subject: string, organization: Option<string>,
    jti: string, scope: string)

  // ---- Shared pieces ----------------------------------------------------------------------------------

  function SessionPrincipalType(s: Session): Option<PrincipalType> {
    match s.grant
    case ClientCredentials => if s.user.None? && s.organization.None? then Some(ClientType) else None
    case Unsupported(_) => None
    case _ => if s.user.Some? && s.organization.Some? then Some(UserType) else None
  }

  datatype Family = Family(id: SessionId, session: Session, state: Status.TokenState)

  /** The inner join of session and token state under a hash. */
  function FamilyUnder(store: Store, index: map<string, SessionId>, hash: string): Option<Family> {
    if hash in index && index[hash] in store.sessions && index[hash] in store.states
    then Some(Family(index[hash], store.sessions[index[hash]], store.states[index[hash]]))
    else None
  }

  // ---- The bearer judge ---------------------------------------------------------------------------------

  datatype Context =
    | ClientContext(session: SessionId, client: ClientId)
    | UserContext(session: SessionId, client: ClientId, user: UserId, organization: OrganizationId,
                  userPublicId: string, organizationPublicId: string)

  datatype BearerError = AccessTokenInvalid | TokenSessionInvalid

  /** `_read_valid_token_family`. */
  function ReadValidFamily(store: Store, hash: string, jti: string, now: Time): Result<Family, BearerError> {
    match FamilyUnder(store, store.byAccessHash, hash)
    case None => Err(AccessTokenInvalid)
    case Some(f) =>
      if f.state.accessExpiresAt <= now then Err(AccessTokenInvalid)
      else if f.state.jti != jti then Err(AccessTokenInvalid)
      else Ok(f)
  }

  function ResolveClient(store: Store, f: Family, claims: Claims): Result<Context, BearerError> {
    if f.session.endedAt.Some? || claims.principalType != Some(ClientType)
       || claims.subject != store.subjectOf(f.session.clientId) || claims.organization.Some?
    then Err(TokenSessionInvalid)
    else Ok(ClientContext(f.id, f.session.clientId))
  }

  function ResolveUser(store: Store, f: Family, claims: Claims): Result<Context, BearerError> {
    match EligibleIdentity(store.identities, f.session.user, f.session.organization)
    case None => Err(TokenSessionInvalid)
    case Some(i) =>
      if f.session.endedAt.Some? || claims.principalType == Some(ClientType) then Err(TokenSessionInvalid)
      else if claims.subject != i.userPublicId || claims.organization != Some(i.organizationPublicId)
      then Err(TokenSessionInvalid)
      else Ok(UserContext(f.id, f.session.clientId, f.session.user.value, i.organization, i.userPublicId, i.organizationPublicId))
  }

  /** `get_current_oauth2_principal_context`. `verified` is the result of `verify_access_token`. */
  function ResolveBearer(store: Store, hash: string, verified: Option<Claims>, now: Time): Result<Context, BearerError> {
    match verified
    case None => Err(AccessTokenInvalid)
    case Some(claims) =>
      match ReadValidFamily(store, hash, claims.jti, now)
      case Err(e) => Err(e)
      case Ok(f) =>
        if f.session.clientId !in store.activeClients then Err(AccessTokenInvalid)
        else (match SessionPrincipalType(f.session)
          case None => Err(TokenSessionInvalid)
          case Some(t) =>
            if claims.clientId != f.session.clientId then Err(TokenSessionInvalid)
            else if t == ClientType then ResolveClient(store, f, claims)
            else ResolveUser(store, f, claims))
  }

  // ---- The introspection judge -----------------------------------------------------------------------------

  datatype Principal = ClientPrincipal | UserPrincipal(identity: Identity)

  datatype Response =
    | Inactive
    | ActiveAccess(scope: string, client: ClientId, subject: string, jti: string, exp: Time)
    | ActiveRefresh(scope: string, client: ClientId, exp: Time)

  /** `_load_active_token_family_principal`. */
  function LoadActivePrincipal(store: Store, s: Session): Option<Principal> {
    if s.endedAt.Some? then None
    else
      match SessionPrincipalType(s)
      case None => None
      case Some(t) =>
        if s.clientId !in store.activeClients then None
        else if t == ClientType then Some(ClientPrincipal)
        else (match EligibleIdentity(store.identities, s.user, s.organization)
          case None => None
          case Some(i) => Some(UserPrincipal(i)))
  }

  /** `_access_token_matches_session`. */
  predicate MatchesSession(store: Store, s: Session, claims: Claims, p: Principal) {
    claims.clientId == s.clientId &&
    match p
    case ClientPrincipal =>
      claims.principalType == Some(ClientType) && claims.subject == store.subjectOf(s.clientId) && claims.organization.None?
    case UserPrincipal(i) =>
      claims.principalType != Some(ClientType) && claims.subject == i.userPublicId
      && claims.organization == Some(i.organizationPublicId)
  }

  function IntrospectAccess(store: Store, f: Family, client: ClientId, verified: Option<Claims>, now: Time): Response {
    if f.session.clientId != client then Inactive
    else
      match LoadActivePrincipal(store, f.session)
      case None => Inactive
      case Some(p) =>
        match verified
        case None => Inactive
        case Some(claims) =>
          if f.state.accessExpiresAt <= now then Inactive
          else if f.state.jti != claims.jti then Inactive
          else if !MatchesSession(store, f.session, claims, p) then Inactive
          else ActiveAccess(claims.scope, claims.clientId, claims.subject, claims.jti, f.state.accessExpiresAt)
  }

  function IntrospectRefresh(store: Store, found: Option<Family>, client: ClientId, now: Time): Response {
    match found
    case None => Inactive
    case Some(f) =>
      if f.session.clientId != client then Inactive
      else if LoadActivePrincipal(store, f.session).None? then Inactive
      else if f.state.refreshExpiresAt.None? then Inactive
      else if f.state.refreshExpiresAt.value <= now then Inactive
      else ActiveRefresh(f.session.scope, f.session.clientId, f.state.refreshExpiresAt.value)
  }

  /** `introspect_token`. */
  function Introspect(store: Store, client: ClientId, hash: string, verified: Option<Claims>, now: Time): Response {
    match FamilyUnder(store, store.byAccessHash, hash)
    case Some(f) => IntrospectAccess(store, f, client, verified, now)
    case None => IntrospectRefresh(store, FamilyUnder(store, store.byRefreshHash, hash), client, now)
  }

  // ---- Agreement ----------------------------------------------------------------------------------------------

  function PublicSubject(store: Store, c: Context): string {
    match c
    case ClientContext(_, client) => store.subjectOf(client)
    case UserContext(_, _, _, _, userPublicId, _) => userPublicId
  }

  /** For a token found as an access token, introspection by a client answers active exactly when
      the token would be accepted as a bearer token and its session belongs to that client; the
      answer then names the bearer's client, subject and token id. */
  lemma JudgesAgree(store: Store, client: ClientId, hash: string, verified: Option<Claims>, now: Time)
    requires FamilyUnder(store, store.byAccessHash, hash).Some?
    ensures var bearer, answer := ResolveBearer(store, hash, verified, now), Introspect(store, client, hash, verified, now);
            && (answer != Inactive <==> bearer.Ok? && bearer.value.client == client)
            && (answer != Inactive ==> verified.Some?)
            && (answer != Inactive ==>
                  && answer.ActiveAccess? && answer.client == client
                  && answer.subject == PublicSubject(store, bearer.value) && answer.scope == verified.value.scope
                  && answer.jti == store.states[bearer.value.session].jti
                  && answer.exp == store.states[bearer.value.session].accessExpiresAt > now)
  {
  }

  // ---- What each judge accepts, without the look-ups ----------------------------------------------------------

  /** The session stands for its client alone, or for a user who is entitled to its organization. */
  predicate ForClient(s: Session) {
    s.grant == ClientCredentials && s.user == None && s.organization == None
  }

  predicate ForEntitledUser(store: Store, s: Session) {
    && (s.grant == AuthorizationCode || s.grant == DeviceCode) && s.user.Some? && s.organization.Some?
    && Entitled(store.identities, s.user.value, s.organization.value)
  }

  /** The session has not ended, its client is active, and its user, if it has one, is entitled. */
  predicate InForce(store: Store, s: Session) {
    s.endedAt == None && s.clientId in store.activeClients && (ForClient(s) || ForEntitledUser(store, s))
  }

  /** The claims name the session's client and subject. */
  predicate ClaimsFit(store: Store, s: Session, claims: Claims) {
    && claims.clientId == s.clientId
    && (if s.grant == ClientCredentials
        then claims.principalType == Some(ClientType) && claims.subject == store.subjectOf(s.clientId) && claims.organization == None
        else && claims.principalType != Some(ClientType)
             && s.user.Some? && s.user.value in store.identities
             && claims.subject == store.identities[s.user.value].userPublicId
             && claims.organization == Some(store.identities[s.user.value].organizationPublicId))
  }

  /** A verified token is accepted exactly when it is the current, unexpired access token of a
      session in force whose client and subject its claims name. */
  lemma BearerAcceptedExactlyWhen(store: Store, hash: string, verified: Option<Claims>, now: Time)
    ensures var bearer := ResolveBearer(store, hash, verified, now);
            && (bearer.Ok? <==>
                  && verified.Some? && hash in store.byAccessHash
                  && var id, claims := store.byAccessHash[hash], verified.value;
                     && id in store.sessions && id in store.states
                     && now < store.states[id].accessExpiresAt && store.states[id].jti == claims.jti
                     && InForce(store, store.sessions[id]) && ClaimsFit(store, store.sessions[id], claims))
            && (bearer.Ok? ==>
                  var id := store.byAccessHash[hash];
                  var s := store.sessions[id];
                  && bearer.value.session == id && bearer.value.client == s.clientId
                  && (bearer.value.UserContext? <==> s.grant != ClientCredentials)
                  && (bearer.value.UserContext? ==>
                        && Some(bearer.value.user) == s.user && Some(bearer.value.organization) == s.organization
                        && Entitled(store.identities, bearer.value.user, bearer.value.organization)))
  {
  }

  /** A refresh token is reported active to a client exactly when it is the current, unexpired one of
      a session of that client that is in force; the answer has the session's scope and its deadline. */
  lemma RefreshReportedExactlyWhen(store: Store, client: ClientId, hash: string, verified: Option<Claims>, now: Time)
    requires hash !in store.byAccessHash
    ensures var answer := Introspect(store, client, hash, verified, now);
            if && hash in store.byRefreshHash
               && var id := store.byRefreshHash[hash];
                  && id in store.sessions && id in store.states && store.sessions[id].clientId == client
                  && store.states[id].refreshExpiresAt.Some? && now < store.states[id].refreshExpiresAt.value
                  && InForce(store, store.sessions[id])
            then var id := store.byRefreshHash[hash];
                 answer == ActiveRefresh(store.sessions[id].scope, client, store.states[id].refreshExpiresAt.value)
            else answer == Inactive
  {
  }

  predicate UserNotEntitled(store: Store, found: Option<Family>) {
    found.Some? ==>
      var s := found.value.session;
      s.user.Some? && (s.organization.Some? ==> !Entitled(store.identities, s.user.value, s.organization.value))
  }

  /** A user who is deactivated, unverified, gone, or no longer in the organization is refused by both
      judges, with every access token and every refresh token of the session. */
  lemma IneligibleUserIsRefused(store: Store, client: ClientId, hash: string, verified: Option<Claims>, now: Time)
    requires UserNotEntitled(store, FamilyUnder(store, store.byAccessHash, hash))
    requires UserNotEntitled(store, FamilyUnder(store, store.byRefreshHash, hash))
    ensures ResolveBearer(store, hash, verified, now).Err?
    ensures Introspect(store, client, hash, verified, now) == Inactive
  {
  }

  /** A token that is not found as an access token never bears, whatever introspection says of it. */
  lemma OnlyAccessTokensBear(store: Store, hash: string, verified: Option<Claims>, now: Time)
    requires FamilyUnder(store, store.byAccessHash, hash).None?
    ensures ResolveBearer(store, hash, verified, now) == Err(AccessTokenInvalid)
    ensures forall client :: !Introspect(store, client, hash, verified, now).ActiveAccess?
  {
  }

  predicate Owns(store: Store, client: ClientId, hash: string) {
    || (FamilyUnder(store, store.byAccessHash, hash).Some?
        && FamilyUnder(store, store.byAccessHash, hash).value.session.clientId == client)
    || (FamilyUnder(store, store.byRefreshHash, hash).Some?
        && FamilyUnder(store, store.byRefreshHash, hash).value.session.clientId == client)
  }

  /** To any client but the owner, a live token looks exactly like one that does not exist. */
  lemma OtherClientsLearnNothing(store: Store, client: ClientId, hash: string, verified: Option<Claims>, now: Time)
    requires !Owns(store, client, hash)
    ensures Introspect(store, client, hash, verified, now) == Inactive
  {
  }

  predicate Stopped(store: Store, found: Option<Family>) {
    found.Some? ==> found.value.session.endedAt.Some? || found.value.session.clientId !in store.activeClients
  }

  /** Once the session a token belongs to has ended, or its client was deactivated, both judges
      refuse the token, as an access token and as a refresh token. */
  lemma EndingStopsBoth(store: Store, client: ClientId, hash: string, verified: Option<Claims>, now: Time)
    requires Stopped(store, FamilyUnder(store, store.byAccessHash, hash))
    requires Stopped(store, FamilyUnder(store, store.byRefreshHash, hash))
    ensures ResolveBearer(store, hash, verified, now).Err?
    ensures Introspect(store, client, hash, verified, now) == Inactive
  {
  }

  /** The two errors of the bearer judge tell a bad token from a bad session: the first means the
      token is unverified, unknown, expired, replaced, or its client is not active. */
  lemma BearerErrorsAreExact(store: Store, hash: string, verified: Option<Claims>, now: Time)
    ensures ResolveBearer(store, hash, verified, now) == Err(AccessTokenInvalid) <==>
              var found := FamilyUnder(store, store.byAccessHash, hash);
              !(&& verified.Some? && found.Some? && found.value.state.accessExpiresAt > now
                && found.value.state.jti == verified.value.jti && found.value.session.clientId in store.activeClients)
  {
  }

  // ---- Accepted tokens and the cleanup ---------------------------------------------------------------------------

  /** The token tables as the cleanup sees them. */
  function Tables(store: Store, history: map<string, SessionId>): Cleanup.Families {
    Cleanup.Families(
      store.states,
      map id | id in store.sessions :: Status.Session(store.sessions[id].clientId, store.sessions[id].endedAt),
      history)
  }

  /** No cleanup with a cutoff up to now removes a token that either judge accepts now. The premise
      on expiries holds in every reachable state: `TokenFamilyRuns.TokenStatesAreWellFormed`. */
  lemma AcceptedTokensSurviveCleanup(store: Store, history: map<string, SessionId>, client: ClientId, hash: string,
                                     verified: Option<Claims>, now: Time, cutoff: Time) returns (id: SessionId)
    requires forall s | s in store.states :: Families.AccessWithinRefresh(store.states[s])
    requires ResolveBearer(store, hash, verified, now).Ok? || Introspect(store, client, hash, verified, now) != Inactive
    requires cutoff <= now
    ensures (hash in store.byAccessHash && id == store.byAccessHash[hash])
         || (hash in store.byRefreshHash && id == store.byRefreshHash[hash])
    ensures Cleanup.Kept(Tables(store, history), cutoff, id)
    ensures id in Cleanup.PurgedFamilies(Tables(store, history), cutoff).states
  {
    id := if FamilyUnder(store, store.byAccessHash, hash).Some? then store.byAccessHash[hash] else store.byRefreshHash[hash];
  }
}
