/** What the grant flows look up about a client and about a user before they act. */
module OAuth2Policy {
  import opened Common

  type ClientId = nat
  type UserId = nat
  type OrganizationId = nat

  /** `organizations` is absent for a client that every organization may use. */
  datatype Client = Client(
    active: bool, redirectUris: set<string>, codeGrant: bool, deviceGrant: bool, scopes: set<string>,
    requiresConsent: bool, organizations: Option<set<OrganizationId>>)

  type Clients = map<ClientId, Client>

  /** `validate_requested_scope` and `validate_oidc_scope_enabled`; scopes are sets of names. */
  predicate ScopeOk(client: Client, scope: set<string>, oidcEnabled: bool) {
    scope <= client.scopes && ("openid" in scope ==> oidcEnabled)
  }

  /** `ensure_client_allows_user_organization`. */
  predicate AllowsOrganization(client: Client, organization: OrganizationId) {
    client.organizations.Some? ==> organization in client.organizations.value
  }

  /** A user row joined with its membership and organization. Public ids are unique text. */
  datatype Identity = Identity(
    organization: OrganizationId, userPublicId: string, organizationPublicId: string,
    active: bool, emailVerified: bool)

  type Identities = map<UserId, Identity>

  /** `load_eligible_oauth2_user_identity`. */
  function EligibleIdentity(identities: Identities, user: Option<UserId>, organization: Option<OrganizationId>): Option<Identity> {
    if user.None? || organization.None? || user.value !in identities then None
    else
      var i := identities[user.value];
      if i.organization == organization.value && i.active && i.emailVerified then Some(i) else None
  }

  // ---- What the look-ups promise, without them ------------------------------------------------------

  /** No list of organizations, or one that has this one. */
  predicate Admits(client: Client, organization: OrganizationId) {
    client.organizations == None || organization in client.organizations.value
  }

  /** The user exists, is active and verified, and is a member of the organization. */
  predicate Entitled(identities: Identities, user: UserId, organization: OrganizationId) {
    && user in identities && identities[user].active && identities[user].emailVerified
    && identities[user].organization == organization
  }

  /** Registered scopes only, and OpenID only where it is enabled. */
  predicate Grants(client: Client, scope: set<string>, oidcEnabled: bool) {
    (forall name | name in scope :: name in client.scopes) && (oidcEnabled || "openid" !in scope)
  }

  lemma LookupsKeepTheirPromise(client: Client, identities: Identities, user: Option<UserId>, organization: Option<OrganizationId>,
                                scope: set<string>, oidcEnabled: bool)
    ensures EligibleIdentity(identities, user, organization).Some? <==>
              user.Some? && organization.Some? && Entitled(identities, user.value, organization.value)
    ensures EligibleIdentity(identities, user, organization).Some? ==>
              EligibleIdentity(identities, user, organization).value == identities[user.value]
    ensures organization.Some? ==> (AllowsOrganization(client, organization.value) <==> Admits(client, organization.value))
    ensures ScopeOk(client, scope, oidcEnabled) <==> Grants(client, scope, oidcEnabled)
  {
  }
}
