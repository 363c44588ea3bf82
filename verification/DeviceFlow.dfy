/** app/oauth2/devices: the device authorization grant of RFC 8628. */
module DeviceTable {
  import opened Common
  import opened OAuth2Policy

  /** Hashes of the two codes; the hash is taken to be injective. */
  type DeviceCode = nat
  type UserCode = string

  datatype Grantee = Grantee(user: UserId, organization: OrganizationId)

  datatype Row = Row(
    userCode: UserCode, client: ClientId, scope: set<string>, expiresAt: Time, intervalSeconds: nat,
    lastPolledAt: Option<Time>, approvedAt: Option<Time>, deniedAt: Option<Time>, usedAt: Option<Time>,
    grantee: Option<Grantee>)
  {
    predicate Undecided() {
      approvedAt.None? && deniedAt.None? && usedAt.None?
    }
  }

  /** The rows by device code, and the unique index on user codes. */
  datatype Table = Table(rows: map<DeviceCode, Row>, index: map<UserCode, DeviceCode>)
  {
    ghost predicate Valid() {
      && (forall c | c in rows :: rows[c].userCode in index && index[rows[c].userCode] == c)
      && (forall u | u in index :: index[u] in rows && rows[index[u]].userCode == u)
    }

    function Set(c: DeviceCode, row: Row): Table {
      this.(rows := rows[c := row])
    }
  }

  datatype Settings = Settings(enabled: bool, lifetimeSeconds: nat, intervalSeconds: nat, createAttempts: nat)
  {
    predicate Valid() {
      lifetimeSeconds > 0 && intervalSeconds > 0 && createAttempts > 0
    }
  }

  const SLOW_DOWN_SECONDS: nat := 5

  datatype Decision = Approved(snapshot: Row) | Pending | SlowDown | Denied | Expired | Invalid

  predicate TooEarly(row: Row, now: Time) {
    row.lastPolledAt.Some? && now - row.lastPolledAt.value < row.intervalSeconds * SECOND
  }

  function Decide(row: Row, client: ClientId, now: Time): Decision {
    if row.client != client then Invalid
    else if row.expiresAt <= now then Expired
    else if row.deniedAt.Some? then Denied
    else if row.usedAt.Some? then Invalid
    else if TooEarly(row, now) then SlowDown
    else if row.approvedAt.None? || row.grantee.None? then Pending
    else Approved(row)
  }

  function Polled(row: Row, d: Decision, now: Time): Row {
    match d
    case SlowDown => row.(lastPolledAt := Some(now), intervalSeconds := row.intervalSeconds + SLOW_DOWN_SECONDS)
    case Pending => row.(lastPolledAt := Some(now))
    case _ => row
  }

  function PollAnswer(t: Table, c: DeviceCode, client: ClientId, now: Time): Decision {
    if c in t.rows then Decide(t.rows[c], client, now) else Invalid
  }

  function PollLeaves(t: Table, c: DeviceCode, client: ClientId, now: Time): Table {
    if c in t.rows then t.Set(c, Polled(t.rows[c], Decide(t.rows[c], client, now), now)) else t
  }

  predicate Decidable(t: Table, u: UserCode, now: Time) {
    u in t.index && t.index[u] in t.rows && t.rows[t.index[u]].expiresAt > now && t.rows[t.index[u]].Undecided()
  }

  function Chosen(row: Row, g: Grantee, approve: bool, now: Time): Row {
    row.(grantee := Some(g),
         approvedAt := if approve then Some(now) else None,
         deniedAt := if approve then None else Some(now))
  }

  function DecisionLeaves(t: Table, u: UserCode, g: Grantee, approve: bool, now: Time): Table {
    if Decidable(t, u, now) then t.Set(t.index[u], Chosen(t.rows[t.index[u]], g, approve, now)) else t
  }

  predicate Consumable(t: Table, c: DeviceCode, now: Time) {
    && c in t.rows && t.rows[c].usedAt.None? && t.rows[c].approvedAt.Some? && t.rows[c].deniedAt.None?
    && t.rows[c].expiresAt > now
  }

  function ConsumeLeaves(t: Table, c: DeviceCode, now: Time): Table {
    if Consumable(t, c, now) then t.Set(c, t.rows[c].(usedAt := Some(now))) else t
  }

  function Insert(t: Table, c: DeviceCode, row: Row): Table {
    Table(t.rows[c := row], t.index[row.userCode := c])
  }

  // ---- Policy: what the client and the user must be when a step is taken --------------------------

  /** `_allowed_interaction_client`, for a signed-in user of an organization. */
  predicate MayDecide(clients: Clients, row: Row, organization: OrganizationId) {
    && row.client in clients
    && var client := clients[row.client];
       client.active && client.deviceGrant && row.scope <= client.scopes && AllowsOrganization(client, organization)
  }

  datatype GrantError = ClientInvalid | ClientUnauthorized | ScopeInvalid | GrantInvalid

  /** `_reload_and_validate_device_client` and `_load_device_identity`, for an approved snapshot. */
  function Recheck(clients: Clients, identities: Identities, snapshot: Row): Result<Grantee, GrantError> {
    if snapshot.client !in clients || !clients[snapshot.client].active then Err(ClientInvalid)
    else if !clients[snapshot.client].deviceGrant then Err(ClientUnauthorized)
    else if !ScopeOk(clients[snapshot.client], snapshot.scope, false) then Err(ScopeInvalid)
    else if snapshot.grantee.None? then Err(GrantInvalid)
    else
      match EligibleIdentity(identities, Some(snapshot.grantee.value.user), Some(snapshot.grantee.value.organization))
      case None => Err(GrantInvalid)
      case Some(i) =>
        if AllowsOrganization(clients[snapshot.client], i.organization)
        then Ok(Grantee(snapshot.grantee.value.user, i.organization))
        else Err(GrantInvalid)
  }

  /** The checks of `create_device_authorization` before its loop. */
  function CreationRefusal(s: Settings, client: Client, scope: set<string>): Option<CreateError> {
    if !s.enabled then Some(UnsupportedGrant)
    else if !client.active || !client.deviceGrant then Some(UnauthorizedClient)
    else if !ScopeOk(client, scope, false) then Some(InvalidScope)
    else None
  }

  // ---- Creation with retries ---------------------------------------------------------------------

  datatype Draw = Draw(device: DeviceCode, user: UserCode)

  predicate Fits(t: Table, draw: Draw) {
    draw.device !in t.rows && draw.user !in t.index
  }

  /** A taken user code is retried; a taken device code is an error. */
  predicate Retried(t: Table, draw: Draw) {
    draw.device !in t.rows && draw.user in t.index
  }

  datatype CreateError = UnsupportedGrant | UnauthorizedClient | InvalidScope | CodesExhausted | DeviceCodeTaken

  /** The attempt that ends the loop decides. */
  ghost predicate CreationOutcome(t: Table, draws: seq<Draw>, result: Result<Draw, CreateError>) {
    || (result == Err(CodesExhausted) && forall k | 0 <= k < |draws| :: Retried(t, draws[k]))
    || exists i :: 0 <= i < |draws| && EndsAt(t, draws, i, result)
  }

  predicate EndsAt(t: Table, draws: seq<Draw>, i: nat, result: Result<Draw, CreateError>)
    requires i < |draws|
  {
    && (forall k | 0 <= k < i :: Retried(t, draws[k]))
    && !Retried(t, draws[i])
    && result == if Fits(t, draws[i]) then Ok(draws[i]) else Err(DeviceCodeTaken)
  }

  function NewRow(s: Settings, client: ClientId, scope: set<string>, u: UserCode, now: Time): Row {
    Row(u, client, scope, now + s.lifetimeSeconds * SECOND, s.intervalSeconds, None, None, None, None, None)
  }

  // ---- The code ------------------------------------------------------------------------------------

  class DeviceAuthorizations {
    var table: Table
    var clients: Clients
    var identities: Identities

    /** `create_device_authorization`. `draws` are the random codes, one pair an attempt. It inserts
        nothing unless it succeeds, and then exactly one undecided row. */
    method CreateDeviceAuthorization(s: Settings, id: ClientId, client: Client, scope: set<string>, now: Time, draws: seq<Draw>)
      returns (result: Result<Draw, CreateError>)
      requires table.Valid() && |draws| == s.createAttempts
      modifies `table
      ensures table.Valid()
      ensures result == Err(UnsupportedGrant) <==> !s.enabled
      ensures result == Err(UnauthorizedClient) <==> s.enabled && !(client.active && client.deviceGrant)
      ensures result == Err(InvalidScope) <==>
                s.enabled && client.active && client.deviceGrant && !(scope <= client.scopes && "openid" !in scope)
      ensures CreationRefusal(s, client, scope).None? ==> CreationOutcome(old(table), draws, result)
      ensures match result
              case Ok(draw) =>
                && Fits(old(table), draw)
                && table == Insert(old(table), draw.device, NewRow(s, id, scope, draw.user, now))
                && table.rows[draw.device].Undecided() && table.rows[draw.device].usedAt.None?
                && table.rows[draw.device].userCode == draw.user && table.rows[draw.device].client == id
                && table.rows[draw.device].scope == scope && table.rows[draw.device].lastPolledAt.None?
                && table.rows[draw.device].expiresAt == now + s.lifetimeSeconds * SECOND
                && table.rows[draw.device].intervalSeconds == s.intervalSeconds
              case Err(_) => table == old(table)
    {
      if !s.enabled {
        return Err(UnsupportedGrant);
      }
      if !client.active {
        return Err(UnauthorizedClient);
      }
      if !client.deviceGrant {
        return Err(UnauthorizedClient);
      }
      if !(scope <= client.scopes) || "openid" in scope {
        return Err(InvalidScope);
      }
      for i := 0 to s.createAttempts
        invariant table == old(table)
        invariant forall k | 0 <= k < i :: Retried(table, draws[k])
      {
        var draw := draws[i];
        if draw.device in table.rows {
          assert EndsAt(table, draws, i, Err(DeviceCodeTaken));
          return Err(DeviceCodeTaken);
        }
        if draw.user !in table.index {
          assert EndsAt(table, draws, i, Ok(draw));
          table := Insert(table, draw.device, NewRow(s, id, scope, draw.user, now));
          return Ok(draw);
        }
      }
      return Err(CodesExhausted);
    }

    /** `evaluate_device_poll`: one transaction under the writer lock. */
    method EvaluateDevicePoll(c: DeviceCode, client: ClientId, now: Time) returns (d: Decision)
      requires table.Valid()
      modifies `table
      ensures table.Valid()
      ensures d == PollAnswer(old(table), c, client, now)
      ensures d.Approved? <==>
                && c in old(table).rows && old(table).rows[c].client == client && now < old(table).rows[c].expiresAt
                && old(table).rows[c].approvedAt.Some? && old(table).rows[c].grantee.Some?
                && old(table).rows[c].deniedAt.None? && old(table).rows[c].usedAt.None?
                && (old(table).rows[c].lastPolledAt.Some? ==>
                      now - old(table).rows[c].lastPolledAt.value >= old(table).rows[c].intervalSeconds * SECOND)
      ensures d.Approved? ==> d.snapshot == old(table).rows[c]
      ensures table == PollLeaves(old(table), c, client, now)
    {
      if c !in table.rows {
        return Invalid;
      }
      var row := table.rows[c];
      assert table.rows == table.rows[c := row];
      if row.client != client {
        return Invalid;
      }
      if row.expiresAt <= now {
        return Expired;
      }
      if row.deniedAt.Some? {
        return Denied;
      }
      if row.usedAt.Some? {
        return Invalid;
      }
      if row.lastPolledAt.Some? {
        if now - row.lastPolledAt.value < row.intervalSeconds * SECOND {
          table := table.Set(c, row.(lastPolledAt := Some(now), intervalSeconds := row.intervalSeconds + 5));
          return SlowDown;
        }
      }
      if row.approvedAt.None? || row.grantee.None? {
        table := table.Set(c, row.(lastPolledAt := Some(now)));
        return Pending;
      }
      return Approved(row);
    }

    /** `_allowed_interaction_client`. */
    method AllowedInteractionClient(row: Row, organization: OrganizationId) returns (allowed: bool)
      ensures allowed == MayDecide(clients, row, organization)
    {
      if row.client !in clients {
        return false;
      }
      var client := clients[row.client];
      if !client.active || !client.deviceGrant {
        return false;
      }
      return row.scope <= client.scopes && AllowsOrganization(client, organization);
    }

    /** `decide_device_authorization`. `seenAt` is the clock when the pending row was looked up. */
    method DecideDeviceAuthorization(u: UserCode, g: Grantee, approve: bool, seenAt: Time, now: Time)
      returns (decided: bool)
      requires table.Valid() && seenAt <= now
      modifies `table
      ensures table.Valid()
      ensures decided == (Decidable(old(table), u, now)
                          && MayDecide(clients, old(table).rows[old(table).index[u]], g.organization))
      ensures table == if decided then DecisionLeaves(old(table), u, g, approve, now) else old(table)
    {
      if !Decidable(table, u, seenAt) {
        return false;
      }
      var allowed := AllowedInteractionClient(table.rows[table.index[u]], g.organization);
      if !allowed {
        return false;
      }
      decided := Decidable(table, u, now);
      if decided {
        var row := table.rows[table.index[u]];
        table := table.Set(table.index[u], row.(grantee := Some(g),
                                                approvedAt := if approve then Some(now) else None,
                                                deniedAt := if approve then None else Some(now)));
      }
    }

    /** `_consume_device_authorization`; false is the invalid-grant error. */
    method ConsumeDeviceAuthorization(c: DeviceCode, now: Time) returns (consumed: bool)
      requires table.Valid()
      modifies `table
      ensures table.Valid()
      ensures consumed == Consumable(old(table), c, now)
      ensures table == ConsumeLeaves(old(table), c, now)
    {
      consumed := Consumable(table, c, now);
      if consumed {
        table := table.Set(c, table.rows[c].(usedAt := Some(now)));
      }
    }

    /** The second half of `handle_device_code_grant`, after an approved poll: what the poll saw is
        checked against the client and the user as they are now, and then the code is consumed. */
    method FinishDeviceGrant(c: DeviceCode, snapshot: Row, now: Time) returns (result: Result<Grantee, GrantError>)
      requires table.Valid()
      modifies `table
      ensures table.Valid()
      ensures result == Err(ClientInvalid) <==> !(snapshot.client in clients && clients[snapshot.client].active)
      ensures result == Err(ClientUnauthorized) <==>
                snapshot.client in clients && clients[snapshot.client].active && !clients[snapshot.client].deviceGrant
      ensures result == Err(ScopeInvalid) <==>
                && snapshot.client in clients && clients[snapshot.client].active && clients[snapshot.client].deviceGrant
                && !(snapshot.scope <= clients[snapshot.client].scopes && "openid" !in snapshot.scope)
      ensures result.Ok? ==>
                Entitled(identities, result.value.user, result.value.organization)
      ensures result == match Recheck(clients, identities, snapshot)
                        case Err(e) => Err(e)
                        case Ok(g) => if Consumable(old(table), c, now) then Ok(g) else Err(GrantInvalid)
      ensures table == if result.Ok? then ConsumeLeaves(old(table), c, now) else old(table)
    {
      if snapshot.client !in clients || !clients[snapshot.client].active {
        return Err(ClientInvalid);
      }
      var client := clients[snapshot.client];
      if !client.deviceGrant {
        return Err(ClientUnauthorized);
      }
      if !ScopeOk(client, snapshot.scope, false) {
        return Err(ScopeInvalid);
      }
      if snapshot.grantee.None? {
        return Err(GrantInvalid);
      }
      var g := snapshot.grantee.value;
      var identity := EligibleIdentity(identities, Some(g.user), Some(g.organization));
      if identity.None? || !AllowsOrganization(client, identity.value.organization) {
        return Err(GrantInvalid);
      }
      var consumed := ConsumeDeviceAuthorization(c, now);
      return if consumed then Ok(Grantee(g.user, identity.value.organization)) else Err(GrantInvalid);
    }
  }
}
