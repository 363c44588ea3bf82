# Zero Auth Lite: a verified model of its state machines

Zero Auth Lite keeps its promises with small state machines over SQL rows: conditional updates,
ordering rules and clock arithmetic, most of which no database constraint enforces. This project
models eight of them and proves what they promise, over every input, every reachable state and
every interleaving.

`dafny verify dfyconfig.toml` checks the whole project.

## How the model is built

- A table is a map from ids to rows (or a sequence in insertion order); an `ORDER BY ... LIMIT`
  is a set of lowest or newest ids, see `RowOrder` and `BrowserSessions`.
- A database transaction is one atomic step. SQLite has one writer, so two writing transactions
  never overlap (app/db/engine.py:30-67), and a failed one leaves nothing behind
  (app/db/dependencies.py:29-44): an aborted or refused step changes nothing.
- Between two transactions of one request or worker any other step may run.
- Time is a natural number of microseconds that never decreases. A clock reading taken before
  the writer lock may be older than the commit it leads to; where the code reads the clock
  early, so does the model.
- Classes hold the tables and have the code's methods. Each method is proved against functions on
  values, and the run theorems are about those functions.
- Digests, MACs and challenges are free constructors or arbitrary functions. New random handles
  have never been seen before.

| file | what it models |
|---|---|
| `Common.dfy` | instants, options, and rows chosen by ascending id |
| `OAuth2Cleanup.dfy` | when a token family is current; bounded cleanup passes with cascades, and the drain |
| `OAuth2Families.dfy` | token families: issue, refresh rotation, replay, expiry, revocation and cleanup, and every interleaving of them |
| `OutboxLease.dfy`, `OutboxRuns.dfy` | the outbox lease statements; any number of dispatchers over one outbox |
| `WorkflowKeyring.dfy`, `WorkflowTokens.dfy` | derivation keys; single-use tokens, at most one usable per address and purpose |
| `OAuth2Policy.dfy` | what every grant looks up about a client and a user before it acts |
| `DeviceFlow.dfy`, `DeviceRuns.dfy` | device codes: create, poll, decide, consume, and their interleavings |
| `BrowserSessions.dfy`, `SessionRuns.dfy` | sliding sessions, the session cap, keep-alive |
| `Identity.dfy`, `IdentityLifecycle.dfy`, `IdentityService.dfy`, `IdentityRuns.dfy`, `IdentitySessions.dfy`, `IdentityEffects.dfy` | users, addresses, administrators and their sessions; every mutation and every run of them |
| `TokenJudges.dfy` | bearer resolution against introspection |
| `AuthorizationFlow.dfy`, `AuthorizationRuns.dfy` | interactions, codes and their exchange |

## Where the code and its documentation differ

- docs/guides/external-authentication-ui.md:113-119 offers approve and deny. A denial is checked only
  while the client still requires consent (app/oauth2/authorization/request.py:196-202). If an
  operator drops that requirement of a confidential client while the consent page is open, a denied
  interaction issues a code. `AuthorizationRuns.DeniedYetIssued` is such a run,
  `AuthorizationRuns.DenialIsHonouredExactlyWhen` the exact condition. Of a public client with the
  code grant the requirement cannot be dropped (app/oauth2/clients/management/policy.py:74-82);
  the model's client has no field for that.

## What the schema alone does not promise

docs/operations/oauth2-cleanup.md:28-29 bounds one cleanup transaction by one batch from each
category. The schema alone does not give that for token states, since it admits an ended session
that holds one (`OAuth2Cleanup.CascadeCanExceedTheBatch`). Ending a session together with its token
state does: `TokenFamilyRuns.OneBatchPerTransaction` proves the bound for every reachable state.

## Model

| member | source | states |
|---|---|---|
| TokenFamilyStatus.StatusRulesAgree | app/oauth2/sessions/status.py:14-42 | the Python rule, its SQL predicate in three-valued logic, and the cleanup's expiry clause never disagree on a family |
| OAuth2Cleanup.LowerIdsFillTheBatch | app/oauth2/maintenance.py:141-197 | if expired ids are left over, the second lowest-id selection over a superset of the first cannot reach them |
| OAuth2Cleanup.CascadeNeverOvertakes | app/oauth2/maintenance.py:141-197 | no expired token state leaves by session cascade before its own batch has counted it |
| OAuth2Cleanup.VerdictsAreStable | app/oauth2/maintenance.py:141-197 | a pass takes only sessions that were dead before it and changes the verdict on no other |
| OAuth2Cleanup.PassKeepsGoal | app/oauth2/maintenance.py:82-211 | a pass of any batch size leaves the outcome of a complete cleanup unchanged, and orphans nothing |
| OAuth2Cleanup.PassPaysBacklog | app/oauth2/maintenance.py:82-211 | what a pass reports plus what remains is what was there, table by table |
| OAuth2Cleanup.ShortPassFinishes | app/oauth2/maintenance.py:63-74 | a pass that fills no batch leaves no backlog in any of the five tables |
| OAuth2Cleanup.UnlimitedPassIsComplete | app/oauth2/maintenance.py:82-211 | the pass without limits is the complete cleanup and reports the whole backlog |
| OAuth2Cleanup.CompleteCleanupMeaning | app/oauth2/maintenance.py:153-234 | afterwards a session exists exactly when its family was current at the cutoff; its session, token state and every history row keep their values, no row is new, nothing is orphaned, and repeating changes nothing |
| OAuth2Cleanup.CompleteCleanupOfArtifacts | app/oauth2/maintenance.py:82-211 | afterwards a code or an interaction is left exactly if unused and unexpired, a device code exactly if undenied as well, each untouched |
| OAuth2Cleanup.TransactionSize | app/oauth2/maintenance.py:141-211 | on any rows, how many token states one transaction removes: the reported batch plus those cascaded from ended sessions, at most twice the batch |
| OAuth2Cleanup.BatchBoundHoldsExactlyWhen | app/oauth2/maintenance.py:141-211 | on any rows the foreign keys admit, at most one batch of token states leaves if and only if the expired batch and the ended sessions that hold a live state, among the lowest leaving ones, together fit it |
| OAuth2Cleanup.BatchBoundWithoutEndedStates | app/oauth2/maintenance.py:141-211 | which is so whenever no ended session has kept its token state |
| OAuth2Cleanup.CascadeCanExceedTheBatch | app/db/models/oauth2_token_state.py:35-39 | the schema alone does not give the bound: it admits rows, which no code path leaves, for which a batch of one removes two token states |
| OAuth2Cleanup.RoundMakesProgress | app/oauth2/maintenance.py:46-74 | a round keeps reported plus remaining equal to the original backlog, and either shrinks the backlog or ends with none |
| OAuth2Cleanup.DrainedEqualsOnePass | app/oauth2/maintenance.py:214-234 | a drained database and its totals are those of one unlimited pass |
| OAuth2Cleanup.OAuth2Store.RunCleanup | app/oauth2/maintenance.py:82-211 | the five deletes with their cascade leave and report exactly what the specification of a pass says |
| OAuth2Cleanup.OAuth2Store.Round | app/oauth2/maintenance.py:223-233 | one turn of the drain loop: progress, running total, and the verdict whether to go on |
| OAuth2Cleanup.OAuth2Store.Drain | app/oauth2/maintenance.py:214-234 | for every batch size the drain terminates; without a stop it ends with the database and the totals of one unlimited pass, and stopped anywhere, reported plus remaining is the original backlog |
| TokenFamilies.IssuedWithinRefresh | app/oauth2/tokens/access.py:90-102 | an issued access token never outlives the refresh token of its family and lasts at least a second |
| TokenFamilies.TokenFamilyStore.IssueNewSession | app/oauth2/tokens/issuance.py:71-114 | a session that has not ended and its token state come in together |
| TokenFamilies.TokenFamilyStore.RotateTokenState | app/oauth2/tokens/refresh.py:57-87 | replaces the state exactly if its refresh hash is still the presented one |
| TokenFamilies.TokenFamilyStore.RotateRefreshFamily | app/oauth2/tokens/refresh.py:275-345 | the new state and the spent hash in the history, or neither |
| TokenFamilies.TokenFamilyStore.EndSessions | app/security/session_revocation.py:47-63 | sessions not yet ended are ended, and the token states of all named ones are gone |
| TokenFamilies.TokenFamilyStore.RevokeReusedRefreshFamily | app/oauth2/tokens/refresh.py:90-126 | a spent hash of a family that still has tokens ends it and nothing else |
| TokenFamilies.TokenFamilyStore.ExpireRefreshFamily | app/oauth2/tokens/refresh.py:135-158 | ends the family exactly if the presented hash is current and past its deadline |
| TokenFamilyRuns.StepKeepsInv | app/oauth2/tokens/refresh.py:350-398 | every grant, load, rotation, replay, expiry, revocation, deletion and cleanup pass of any size keeps the invariant, in particular that an ended session has no token state |
| TokenFamilyRuns.OneBatchPerTransaction | app/oauth2/maintenance.py:141-211 | in every reachable state one cleanup transaction removes exactly the token states it reports, at most one batch and all expired |
| TokenFamilyRuns.TokenStatesAreWellFormed | app/db/models/oauth2_token_state.py:19-52 | in every reachable state a token state has a session that has not ended, both refresh columns or neither, and an access expiry within the refresh expiry |
| TokenFamilyRuns.CurrentExactlyWhen | app/oauth2/sessions/status.py:14-42 | over every run a family is current if and only if its deadline lies ahead and no revocation, replay or deletion has named its session since it was issued |
| TokenFamilyRuns.RotatedAtMostOnce | app/oauth2/tokens/refresh.py:57-87 | over every run each refresh token is exchanged at most once |
| TokenFamilyRuns.RotationWinsExactlyWhen | app/oauth2/tokens/refresh.py:57-87 | before the deadline, a request that loaded a token rotates it if and only if nobody has rotated it and its family is not closed |
| TokenFamilyRuns.RefreshHashesAreUnique | app/db/models/oauth2_token_state.py:45-63 | a current refresh hash belongs to one state and is not in the history, so no uniqueness rule is ever met |
| TokenFamilyRuns.ReplayRevokesExactlyWhen | app/oauth2/tokens/refresh.py:90-126 | presenting a hash revokes a family if and only if it was spent, any number of rotations ago, and its own family still has tokens; it is that family |
| TokenFamilyRuns.NothingRevivesAFamily | app/oauth2/tokens/refresh.py:350-398 | a closed family never holds a token state again and none of its tokens is exchanged, not even by a request that loaded it before |
| TokenFamilyRuns.ReplayEndsTheFamily | app/oauth2/tokens/refresh.py:90-126 | so after a replay, whatever follows, the family is over (section 4.14.2 of RFC 9700) |
| TokenFamilyRuns.DeadlineNeverMoves | app/oauth2/tokens/access.py:90-102 | no number of rotations moves a family's deadline, and no access token passes it |
| TokenFamilyRuns.GrantedAsComputed | app/oauth2/tokens/issuance.py:71-114 | when a grant succeeds, and the session and token state it writes, field by field, with both expiries in terms of the clock reading and the configured seconds |
| TokenFamilyRuns.RefreshedAsComputed | app/oauth2/tokens/refresh.py:275-345 | when a rotation succeeds, and what it writes: the new handles under the old deadline, the access token cut off there, the old hash in the history |
| OutboxLease.RetryDelayIsCappedDoubling | app/notifications/lease.py:17-21 | the delay is min(maximum, 2^attempt) for every attempt, despite the bit-length shortcut, and never shrinks |
| OutboxLease.ClaimTakesTheLowestDue | app/notifications/lease.py:33-50 | which rows may be claimed, and that the lowest ones are, as many as a positive limit or the batch size allows |
| OutboxLease.OutboxTable.ClaimPending | app/notifications/lease.py:24-67 | claims exactly the lowest claimable ids up to the limit, in order, and touches no other row |
| OutboxLease.OutboxTable.ClaimEach | app/notifications/lease.py:51-67 | the loop of guarded updates claims every candidate: none is lost to an earlier turn |
| OutboxLease.OutboxTable.RenewLease | app/notifications/lease.py:161-185 | renews only an unprocessed row the worker still owns |
| OutboxLease.OutboxTable.FinalizeClaim | app/notifications/lease.py:116-158 | succeeds exactly when the worker owns the unprocessed row, and then releases it processed with this instant, outcome and error; every other row is unchanged |
| OutboxLease.OutboxTable.Reschedule | app/notifications/lease.py:86-113 | an owned row is released, counted and put off by the capped delay; otherwise nothing changes |
| OutboxRuns.OwnershipIsCurrent | app/notifications/dispatcher.py:84-134 | a worker that owns its row owns it through its own, newest claim on the event it claimed |
| OutboxRuns.StepKeepsInv | app/notifications/dispatcher.py:84-244 | every step of any worker, publisher, heartbeat or cleanup keeps the protocol invariant |
| OutboxRuns.FinalizedAtMostOnce | app/notifications/lease.py:133-158 | over every interleaving an event is finalized at most once |
| OutboxRuns.FinalizeIsExclusive | app/notifications/lease.py:133-158 | a successful finalize implies nobody claimed the row since the finalizer's claim, and each outcome has its cause under it: a completed send, mail disabled, no target, or a permanent error |
| OutboxRuns.ProcessedRowsTellTheTruth | app/notifications/lease.py:133-158 | over every run a processed row reports instant and outcome of the one finalization of its event, and a row that says delivered has a completed send in the history |
| OutboxRuns.EveryDiscardHasItsEnd | app/notifications/dispatcher.py:104-134 | a reading that finds mail disabled or no target ends as a discard that says which |
| OutboxRuns.EveryFailedReadingHasItsEnd | app/notifications/dispatcher.py:184-223 | a permanent error on reading fails the event for good, any other puts it off |
| OutboxRuns.EveryFailedSendHasItsEnd | app/notifications/dispatcher.py:184-223 | and so does an error on sending |
| OutboxRuns.RescheduleNeverRevives | app/notifications/lease.py:86-113 | no event is rescheduled after it was finalized, although the update does not test for it |
| OutboxRuns.NothingIsLost | app/notifications/lease.py:33-63 | every published event is finalized or has a row that is claimable after at most one lease or one maximal back-off |
| OutboxRuns.LeaseBoundary | app/notifications/lease.py:33-63 | an owned row can be claimed again from exactly its last renewal plus the lease |
| OutboxRuns.RowsFollowBackOff | app/notifications/lease.py:86-113 | attempts count the postponements, and availability is the last of them plus the capped power of two, or the event's own time before the first |
| OutboxRuns.HeartbeatsExclude | app/notifications/lease.py:161-185 | while heartbeats are late by less than the rest of the lease, nobody else claims the row, however long the delivery takes |
| OutboxRuns.OneStepExcludes | app/notifications/lease.py:170-185 | one step of anybody leaves an owned row with a live lease to its worker |
| OutboxRuns.ClaimNextIsClaimPending | app/notifications/dispatcher.py:148-165 | the claim of a dispatcher is the claim statement with limit one |
| OutboxRuns.Dispatcher.ProcessClaimed | app/notifications/dispatcher.py:84-134 | whatever runs at each await, the worker ends idle and reports a finalization exactly when it made one; with the row still owned, a rendered message and no error the event is sent and delivered |
| OutboxRuns.Dispatcher.DispatchPendingOnce | app/notifications/dispatcher.py:137-244 | whatever runs before each claim, read, send and finish, and however old the clock readings of its writes, it returns exactly the number of events this worker finalized during the call, at most the batch size |
| WorkflowKeyring.LookupIsExact | app/workflow_tokens/settings.py:61-84 | in a validated keyring the lookup finds exactly the configured secrets, whatever their order |
| WorkflowKeyring.RotationRetainsEveryKey | app/workflow_tokens/settings.py:61-84 | a rotation that keeps the old key keeps the keyring valid and every lookup |
| OAuth2Policy.LookupsKeepTheirPromise | app/oauth2/user_identity.py:13-43 | the look-ups of user, organization and scope return exactly what their reference conditions say: existing, active, verified and a member; admitted; registered scopes, OpenID only if enabled |
| TokenText.MessageIsInjective | app/workflow_tokens/service.py:119-142 | no two event, address and purpose triples share a derivation message, even if event ids contain colons |
| TokenText.LessIsTotal | app/workflow_tokens/service.py:205-222 | the text order that breaks ties between events is total |
| WorkflowTokens.WorkflowTokenTable.ReplaceActive | app/workflow_tokens/service.py:94-113 | the unused rows of the pair get this instant, every other row is unchanged, and the new row comes last |
| WorkflowTokens.WorkflowTokenTable.IssueTokenForEvent | app/workflow_tokens/service.py:155-243 | branch by branch the result and the rows of an issue, an error leaving the rows alone |
| WorkflowTokens.WorkflowTokenTable.ConsumeToken | app/workflow_tokens/service.py:245-270 | marks exactly the row that accepts the token, or reports an invalid token and changes nothing |
| WorkflowTokens.WorkflowTokenTable.InvalidateAllActiveTokens | app/workflow_tokens/service.py:46-59 | afterwards no token of these addresses is unused |
| WorkflowTokens.WorkflowTokenTable.InvalidateActiveCredentialTokens | app/workflow_tokens/service.py:29-43 | afterwards no invite or reset token of these addresses is unused, those that were get this instant, and every other row is unchanged |
| WorkflowTokens.ApplyKeepsInv | app/workflow_tokens/service.py:94-113 | every operation keeps: within a pair later rows come from newer events and only the last may be unused |
| WorkflowTokens.OneNewestActiveToken | app/workflow_tokens/service.py:164-243 | in every reachable state a pair has at most one unused token, and it is newer than every other row of the pair, used or not |
| WorkflowTokens.UniqueColumnsHold | app/workflow_tokens/service.py:94-142 | event ids and token hashes are distinct in every reachable state, so no uniqueness rule is ever met |
| WorkflowTokens.ConsumedOnce | app/workflow_tokens/service.py:245-288 | a consumed token is refused after any later operations, for any purpose, at any time |
| WorkflowTokens.IssuedTokenIsAccepted | app/workflow_tokens/service.py:164-288 | every token handed out is accepted at that moment, by its own event's row |
| WorkflowTokens.IssuedTokenLifetime | app/workflow_tokens/service.py:144-204 | a token is accepted up to and not from its expiry: the lifetime of its purpose after the issue, or after the renewal of an expired row |
| WorkflowTokens.RedeemedExactlyWhen | app/workflow_tokens/service.py:245-288 | a token redeems if and only if an unused, unexpired row of a wanted purpose was hashed from it |
| WorkflowTokens.ReissueAnswersExactly | app/workflow_tokens/service.py:164-204 | the answer to an event that has a row: another pair, used, underivable, or its own token |
| WorkflowTokens.FirstIssueAnswersExactly | app/workflow_tokens/service.py:205-243 | the answer to an event that has none: nothing if and only if its pair has a newer event |
| WorkflowTokens.RetryReproducesToken | app/workflow_tokens/service.py:164-204 | a retry gives the same token under any keyring that still resolves the row's key, or none once it is used |
| WorkflowTokens.NewestEventWins | app/workflow_tokens/service.py:94-113 | from any reachable table, events of a pair handled in any order with any repetitions, among any traffic on other tokens: one row carries the newest of the events on record or handled, no other token of the pair is unused, and this one is unless it was used before |
| WorkflowTokens.OrderDoesNotMatter | app/workflow_tokens/service.py:164-243 | two runs from the same table that handled the same set of events leave the same winner, unused in both or in neither |
| WorkflowTokens.UnusedIsNewest | app/workflow_tokens/service.py:164-270 | after any operations at all, redemptions and invalidations of the pair included, an unused token of a pair is the one of the newest event on record or handled |
| DeviceTable.DeviceAuthorizations.CreateDeviceAuthorization | app/oauth2/devices/authorization.py:71-137 | refuses in the order of the checks, retries exactly on taken user codes, and inserts one undecided row or nothing |
| DeviceTable.DeviceAuthorizations.EvaluateDevicePoll | app/oauth2/devices/polling.py:77-141 | the answer and the row of one poll, in the order of the checks |
| DeviceTable.DeviceAuthorizations.AllowedInteractionClient | app/oauth2/devices/authorization.py:170-201 | the client, scope and organization policy of a decision |
| DeviceTable.DeviceAuthorizations.DecideDeviceAuthorization | app/oauth2/devices/authorization.py:156-255 | decides exactly a live undecided row whose client is active and allowed the grant, the scope and the user's organization; the look-up before it never changes the answer |
| DeviceTable.DeviceAuthorizations.ConsumeDeviceAuthorization | app/oauth2/devices/polling.py:213-233 | consumes exactly an approved, unused, unexpired row |
| DeviceTable.DeviceAuthorizations.FinishDeviceGrant | app/oauth2/devices/polling.py:158-233 | what an approved poll saw is checked again against client and user, each failure with its error, and only then the code is consumed |
| DeviceRuns.StepKeepsInv | app/oauth2/devices/polling.py:287-346 | every step of any interleaving keeps rows, requests in flight and history consistent |
| DeviceRuns.DecidedAtMostOnce | app/oauth2/devices/authorization.py:203-255 | a code is decided at most once |
| DeviceRuns.IssuedAtMostOnce | app/oauth2/devices/polling.py:213-233 | a code issues tokens at most once |
| DeviceRuns.IssuedAsApproved | app/oauth2/devices/polling.py:236-346 | tokens go to the client and scope of the creation and to the user and organization of the approval, with a clock reading before the expiry |
| DeviceRuns.SnapshotStillHolds | app/oauth2/devices/polling.py:320-346 | the row still has the client, scope, user and organization the approved poll saw |
| DeviceRuns.CreatedExactlyWhen | app/oauth2/devices/authorization.py:71-137 | in every run a code is created if and only if grant, client, scope and both codes allow it |
| DeviceRuns.DecidedExactlyWhen | app/oauth2/devices/authorization.py:156-255 | in every run a decision takes effect if and only if the code is alive and nobody has decided it, and client, grant, scope and organization allow it |
| DeviceRuns.IssuedExactlyWhen | app/oauth2/devices/polling.py:158-233 | in every run an approved request is issued tokens if and only if the code is alive and not redeemed, and client and user pass the policy of that moment |
| DeviceRuns.StepsFollowPolicy | app/oauth2/devices/polling.py:158-210 | in every run, whoever decides a code or is issued tokens passes the client, scope, organization and user policy of that moment |
| DeviceRuns.StoredInterval | app/oauth2/devices/polling.py:110-126 | the stored interval is the initial one plus five seconds per slow_down answer |
| DeviceRuns.SlowDownExactly | app/oauth2/devices/polling.py:110-141 | a poll is answered slow_down if and only if a pending or slow_down answer lies less than the tracked interval back (section 3.5 of RFC 8628) |
| DeviceRuns.AnswersExactly | app/oauth2/devices/polling.py:77-141 | over every run each of the six answers is given if and only if the history calls for it: client, lifetime, decision, issue and polling interval (section 3.5 of RFC 8628); an approval carries the client, scope and grantee on record |
| DeviceRuns.PoliteClientIsNotSlowed | app/oauth2/devices/polling.py:110-126 | a client that waits its own tracked interval after each pending and slow_down answer gets no slow_down, whatever refusals others are given meanwhile |
| DeviceRuns.PendingAnswersAreBounded | app/oauth2/devices/polling.py:127-141 | a code gets at most 1 + lifetime / interval pending answers |
| BrowserSessions.SlideBounds | app/browser_sessions/lifecycle.py:72-109 | sliding buys at least slide and at most ttl seconds, never shortens, never passes the absolute expiry |
| BrowserSessions.SlideRenews | app/browser_sessions/lifecycle.py:72-109 | in its last slide seconds a session gets the full ttl again up to the absolute expiry, before that nothing; the request is noted exactly if the expiry grew or slide seconds have passed |
| BrowserSessions.CookieEndsWithSession | app/browser_sessions/lifecycle.py:132-138 | the cookie lifetime ends with the session, less than a second early, and is zero once it is over |
| BrowserSessions.OverflowIsTheTail | app/browser_sessions/authentication.py:240-252 | the rank definition of the overflow is the sorted listing with its first rows skipped |
| BrowserSessions.KeptAreTheNewest | app/browser_sessions/authentication.py:240-258 | exactly min(k, n) rows are kept, each newer than each that goes |
| BrowserSessions.LoginEvictsTheOldest | app/browser_sessions/authentication.py:223-258 | a login keeps its session and removes only the user's oldest active ones |
| BrowserSessions.LoginFillsTheCap | app/browser_sessions/authentication.py:240-258 | after a login exactly as many sessions are active as fit |
| BrowserSessions.SessionStore.LockIfLoginStateUnchanged | app/browser_sessions/authentication.py:88-126 | stores the upgraded hash, and changes no other account, exactly when hash, activation and verified current address are still the verified ones |
| BrowserSessions.SessionStore.Login | app/browser_sessions/authentication.py:182-269 | inserts and evicts exactly when the login state is unchanged; otherwise nothing changes |
| BrowserSessions.SessionStore.LoadSession | app/browser_sessions/lifecycle.py:56-70 | finds exactly the sessions that are active now |
| BrowserSessions.SessionStore.SlideSession | app/browser_sessions/lifecycle.py:72-109 | leaves the slid row and reports an extension exactly when expires_at grew |
| BrowserSessions.SessionStore.Logout | app/browser_sessions/revocation.py:35-56 | revokes the one session, once |
| BrowserSessions.SessionStore.RevokeUserSessions | app/browser_sessions/revocation.py:58-88 | afterwards no session of the user is active at any time, but for the excluded one, and the count is exact |
| SessionRuns.RequestKeepsCap | app/browser_sessions/lifecycle.py:56-109 | a request that revives a session which expired while it ran keeps the cap, because that session was counted when the request began |
| SessionRuns.SessionCapHolds | app/browser_sessions/authentication.py:200-263 | in every reachable state, at every time from then on, each user has at most the configured number of active sessions |
| SessionRuns.IdleSessionsEnd | app/browser_sessions/lifecycle.py:72-109 | expires_at never passes the absolute expiry nor ttl seconds after the last accepted request, and a session idle that long is over |
| SessionRuns.StepNeverShortens | app/browser_sessions/lifecycle.py:72-109 | no step decreases expires_at, moves the other bounds, or lifts a revocation |
| SessionRuns.VisitsKeepAlive | app/browser_sessions/settings.py:109-114 | visits with gaps below slide seconds keep a session active up to its absolute expiry, whatever else happens to the table |
| SessionRuns.VisitsAreAccepted | app/browser_sessions/lifecycle.py:56-109 | and none of these visits is refused |
| SessionRuns.LoginStartsFresh | app/browser_sessions/authentication.py:200-239 | a new session meets the premise of the two theorems above |
| SessionRuns.VisitBuysFullTtl | app/browser_sessions/lifecycle.py:72-109 | an accepted request in the last slide seconds makes the session good for the full ttl |
| SessionRuns.LoginBuysFullTtl | app/browser_sessions/authentication.py:200-239 | and so does a login for its new session, which is its user's |
| EmailText.NormalizeMeaning | app/identity/users/emails.py:30-32 | the canonical form is the address without the white space around it, every capital replaced |
| EmailText.NormalizeIsStable | app/identity/users/emails.py:30-32 | normalizing a normalized or a stripped address changes nothing, on which availability checks and inserts rely |
| Identity.IndexesEnforceRules | app/db/models/user.py:133-173 | the three partial unique indexes keep every two rows apart |
| Identity.OwnershipIsWellFormed | app/identity/users/emails.py:70-127 | a user has exactly one current and at most one pending address, and no address is in use twice |
| Identity.CountingRowsCountsOperators | app/identity/services/access_invariants.py:57-71 | the joined row count is the number of live operators |
| Identity.CountingRowsCountsAdmins | app/identity/services/access_invariants.py:32-55 | the joined row count is the number of live administrators of the organization |
| Identity.WithoutEmailRulesTheCountLies | app/identity/services/access_invariants.py:57-71 | with two current addresses one operator counts twice |
| Identity.RetiringSpendsTokens | app/identity/users/emails.py:114-127 | a retired address has no unused token |
| IdentityLifecycle.PlansAreSound | app/identity/services/email_lifecycle.py:93-144 | an address that passed the checks is in use by nobody, and only an unverified address is replaced |
| IdentityLifecycle.ClearedHasRoom | app/identity/services/email_lifecycle.py:115-144 | before each insert the indexes are consistent and have room: no write meets a uniqueness rule |
| IdentityLifecycle.MovedKeepsValid | app/identity/services/email_lifecycle.py:93-144 | a change of address keeps exactly one current address per user |
| IdentityLifecycle.MovedKeepsVerified | app/identity/services/email_lifecycle.py:93-144 | a change of address makes nobody verified and unverifies nobody |
| IdentityService.LiveAfterUpdate | app/identity/services/access_invariants.py:73-108 | only the target's standing can change, and the two flags of the guard say exactly when it is lost |
| IdentityService.UpdateGuardIsExact | app/identity/services/access_invariants.py:73-108 | an update is refused if and only if it would end the last live operator, or else the last live administrator of an organization |
| IdentityService.DeleteGuardIsExact | app/identity/services/access_invariants.py:110-167 | a delete of any set of users is refused if and only if it would leave a scope that has somebody with nobody |
| IdentityService.CreateKeepsValid | app/identity/users/creation.py:16-67 | creating a user keeps ownership well formed |
| IdentityService.ConfirmKeepsValid | app/workflow_tokens/confirmation_service.py:113-150 | so does promoting or verifying an address |
| IdentityRuns.IdentityStore.CreateUser | app/identity/services/lifecycle.py:80-118 | reserves a free address for the new user or writes nothing; no unique violation can surface |
| IdentityRuns.IdentityStore.RetireEmail | app/identity/users/emails.py:114-127 | spends the tokens and retires the address, once |
| IdentityRuns.IdentityStore.CreateUserEmail | app/identity/users/emails.py:70-98 | inserts exactly when no unique index objects |
| IdentityRuns.IdentityStore.ReplaceCurrent | app/identity/services/email_lifecycle.py:121-133 | retiring both addresses first, the insert never fails |
| IdentityRuns.IdentityStore.ReplacePending | app/identity/services/email_lifecycle.py:134-144 | retiring the pending address first, the insert never fails |
| IdentityRuns.IdentityStore.ApplyUpdate | app/identity/services/email_lifecycle.py:93-163 | reports a taken address and changes nothing, or follows the plan; no unique violation can surface |
| IdentityRuns.IdentityStore.ProtectUpdate | app/identity/services/access_invariants.py:73-108 | the guard in its order of checks |
| IdentityRuns.IdentityStore.RevokeUserSecuritySessions | app/security/session_revocation.py:33-70 | the user's sessions are gone and nobody else's |
| IdentityRuns.IdentityStore.WriteChanges | app/identity/services/lifecycle.py:177-235 | columns, sessions and tokens after an update, and the notification read back from the row |
| IdentityRuns.IdentityStore.ApplyChanges | app/identity/services/lifecycle.py:160-236 | a taken address changes nothing; otherwise addresses, columns, sessions and tokens change together |
| IdentityRuns.IdentityStore.Update | app/identity/services/lifecycle.py:146-236 | refused updates change nothing; accepted ones keep ownership well formed, revoke sessions as decided, and announce the user's own new address or nothing |
| IdentityRuns.IdentityStore.FindOrphaned | app/identity/services/access_invariants.py:146-167 | the loop over organizations finds one without a remaining administrator exactly when there is one |
| IdentityRuns.IdentityStore.ProtectDelete | app/identity/services/access_invariants.py:110-167 | the guard for several targets at once |
| IdentityRuns.IdentityStore.Delete | app/identity/services/lifecycle.py:289-313 | deletes all targets with what belongs to them, or nothing |
| IdentityRuns.IdentityStore.ConfirmEmail | app/workflow_tokens/confirmation_service.py:113-150 | promotes or verifies exactly the address its token names and revokes the user's sessions, or leaves everything as it was |
| IdentityRuns.IdentityStore.SetPassword | app/workflow_tokens/confirmation_service.py:152-222 | reset and invitation: password, verification, spent credential tokens and revoked sessions together, or nothing |
| IdentityRuns.IdentityStore.ChangePassword | app/identity/services/lifecycle.py:251-287 | writes only over the hash that was verified, of an active user, and then revokes the user's sessions and credential tokens |
| IdentityRuns.OwnershipHolds | app/identity/services/email_lifecycle.py:93-163 | in every reachable state address ownership is well formed |
| IdentityRuns.StepEndsNobody | app/identity/services/lifecycle.py:146-313 | no accepted operation ends the last operator or the last administrator of any organization |
| IdentityRuns.SomebodyCanAlwaysAct | app/identity/services/access_invariants.py:32-167 | once there is an active verified operator there always is one, and so per organization, over all runs |
| IdentityRuns.RetirementSpendsTokens | app/workflow_tokens/confirmation_service.py:124-146 | whichever operation takes an address out of use leaves no unused token for it |
| IdentityRuns.NewPasswordSpendsTokens | app/workflow_tokens/confirmation_service.py:152-222 | after a new password no invitation or reset token is unused for any address of the user |
| IdentityRuns.DeactivationSpendsTokens | app/identity/services/lifecycle.py:146-214 | deactivation leaves no unused token of any purpose, for old and new addresses alike |
| IdentitySessions.UpdateRevokesExactlyWhen | app/identity/services/lifecycle.py:119-144 | an update ends the user's sessions if and only if activation, operator right, role, organization, current address or verification really changes, and nobody else's ever |
| IdentitySessions.ChangeEndsSessions | app/identity/services/lifecycle.py:146-313 | whichever operation changes any of these or the password, the user holds no session afterwards |
| IdentitySessions.CredentialsEndSessions | app/workflow_tokens/confirmation_service.py:113-222 | a new password and a confirmed address end every session of the user even if nothing differs |
| IdentitySessions.SessionsKeepStanding | app/security/session_revocation.py:33-70 | over every run a session lasts only while its user has the standing and the password of the sign-in |
| IdentityEffects.PasswordSetExactlyWhen | app/workflow_tokens/confirmation_service.py:152-222 | which token sets a password, by token, address, user and invitation |
| IdentityEffects.PasswordIsStored | app/workflow_tokens/confirmation_service.py:152-222 | the new password is stored, the invitation ended, the address that received the token verified, the token used, and no other user or address changed |
| IdentityEffects.ChangedPasswordIsStored | app/identity/services/lifecycle.py:251-287 | a changed password is stored if and only if the user is active and the hash is the verified one; nothing else of any user changes |
| IdentityEffects.ConfirmedExactlyWhen | app/workflow_tokens/confirmation_service.py:113-150 | which token confirms an address |
| IdentityEffects.ConfirmedIsCurrent | app/workflow_tokens/confirmation_service.py:113-150 | the named address is its user's current one and verified, and the token is used |
| IdentityEffects.ConfirmedChangeReplaces | app/workflow_tokens/confirmation_service.py:113-150 | a confirmed change retires the address it replaces and leaves none pending |
| IdentityEffects.AddressTakenExactlyWhen | app/identity/services/email_lifecycle.py:93-120 | a change of address is refused if and only if somebody else uses that address |
| IdentityEffects.UpdateMovesAddress | app/identity/services/email_lifecycle.py:93-144 | an accepted update leaves the user the address asked for: unchanged if known, current if policy and verification allow it, else pending |
| IdentityEffects.AnnouncedExactlyWhen | app/identity/services/lifecycle.py:212-235 | which notification an update publishes, if any |
| IdentityEffects.UpdatedAsAsked | app/identity/services/lifecycle.py:177-205 | an accepted update sets exactly the columns it gives, and those of its target only |
| IdentityEffects.CreatedAsAsked | app/identity/users/creation.py:16-67 | a user is created if and only if nobody uses the address, with the flags, membership and address asked for |
| IdentityEffects.DeletedEntirely | app/identity/services/lifecycle.py:289-313 | a deletion leaves nothing of its targets and everything of everybody else |
| TokenJudges.JudgesAgree | app/oauth2/tokens/introspection.py:41-104 | for a token found as an access token, introspection by a client is active exactly when bearer resolution succeeds and the session is that client's, and names the same client, subject and token id with the scope of the token |
| TokenJudges.BearerAcceptedExactlyWhen | app/oauth2/principal.py:62-181 | a verified token is accepted if and only if it is the current, unexpired access token of a session in force whose client and subject its claims name; a user context names an entitled user |
| TokenJudges.RefreshReportedExactlyWhen | app/oauth2/tokens/introspection.py:67-136 | a refresh token is reported active to a client if and only if it is the current, unexpired one of that client's session in force, with the session's scope and its deadline |
| TokenJudges.IneligibleUserIsRefused | app/oauth2/user_identity.py:38-43 | a user who is gone, deactivated, unverified or no longer a member is refused by both judges |
| TokenJudges.OnlyAccessTokensBear | app/oauth2/principal.py:138-167 | a token not found as an access token never resolves as a bearer token |
| TokenJudges.OtherClientsLearnNothing | app/oauth2/tokens/introspection.py:67-136 | to a client that does not own it a live token looks like none (section 2.2 of RFC 7662) |
| TokenJudges.EndingStopsBoth | app/oauth2/principal.py:62-136 | a token whose session has ended or whose client is inactive is refused by both judges, whatever else the store holds |
| TokenJudges.BearerErrorsAreExact | app/oauth2/principal.py:62-181 | which of the two errors a bearer token gets |
| TokenJudges.AcceptedTokensSurviveCleanup | app/oauth2/principal.py:138-167 | no cleanup with a cutoff up to now removes the family of a token that either judge accepts now |
| AuthorizationFlow.AuthorizationServer.BindToUser | app/oauth2/authorization/transaction.py:74-103 | binds exactly a live transaction that is free or already this user's |
| AuthorizationFlow.AuthorizationServer.ConsumeTransaction | app/oauth2/authorization/transaction.py:54-72 | consumes exactly a live transaction bound to this user and organization |
| AuthorizationFlow.AuthorizationServer.AuthorizeValidated | app/oauth2/authorization/request.py:172-248 | inserts a code exactly when organization policy and consent allow it |
| AuthorizationFlow.AuthorizationServer.ContinueInteraction | app/oauth2/authorization/interaction.py:60-111 | the store and the answer for every path, including the refusals after a binding |
| AuthorizationFlow.AuthorizationServer.DecideInteraction | app/oauth2/authorization/interaction.py:113-143 | the store and the answer for every decision |
| AuthorizationFlow.AuthorizationServer.ExchangeCode | app/oauth2/authorization/code_exchange.py:220-255 | redeems exactly a code that passes every check, for a user who is still active, verified and in the organization; a failed exchange leaves the store unchanged, and its error is exact |
| AuthorizationRuns.StepKeepsInv | app/oauth2/authorization/interaction.py:60-143 | every step keeps rows and history consistent |
| AuthorizationRuns.OnePrincipalPerTransaction | app/oauth2/authorization/transaction.py:40-103 | a transaction is opened for, bound to, consumed by and yields a code for one user and organization only |
| AuthorizationRuns.ConsumedAtMostOnce | app/oauth2/authorization/transaction.py:54-72 | a transaction is consumed at most once |
| AuthorizationRuns.OneCodePerTransaction | app/oauth2/authorization/interaction.py:60-143 | and yields at most one code |
| AuthorizationRuns.ExchangedAtMostOnce | app/oauth2/authorization/code_exchange.py:120-133 | a code is exchanged at most once (section 4.1.2 of RFC 6749) |
| AuthorizationRuns.ExchangeFitsItsCode | app/oauth2/authorization/code_exchange.py:68-117 | an exchange has the client, redirect URI, user and PKCE challenge the code was issued with, at a clock reading before it expired |
| AuthorizationRuns.CodeFitsItsRequest | app/oauth2/authorization/request.py:206-228 | a code from an interaction carries client, redirect URI, scope, nonce and challenge of the request that opened it |
| AuthorizationRuns.ExchangeGoesBackToItsRequest | app/oauth2/authorization/code_exchange.py:68-255 | over every run an exchange goes back to the one issue of its code, before it expired, and from there to the request that opened the interaction, with its client, redirect URI, challenge and user |
| AuthorizationRuns.ExchangesFollowPolicy | app/oauth2/authorization/code_exchange.py:52-158 | whoever exchanges a code passes the client, scope, organization and user policy of that moment |
| AuthorizationRuns.ValidatedExactlyWhen | app/oauth2/authorization/request.py:99-171 | which requests are refused outright, answered with an error, or valid |
| AuthorizationRuns.ContinuedExactlyWhen | app/oauth2/authorization/interaction.py:60-111 | when continuing an interaction gives a code, the consent page or an error, and what the code says |
| AuthorizationRuns.DecidedExactlyWhen | app/oauth2/authorization/interaction.py:113-143 | when a decision gives a code or an error, what the code says, and that the transaction is used |
| AuthorizationRuns.ExchangedExactlyWhen | app/oauth2/authorization/code_exchange.py:52-158 | an exchange succeeds if and only if client, code, redirect URI, verifier, scope, organization and user allow it |
| AuthorizationRuns.ExchangeErrorsAreExact | app/oauth2/authorization/code_exchange.py:52-117 | which error a refused exchange gets |
| AuthorizationRuns.CodesAreIssuedWithConsent | app/oauth2/authorization/request.py:99-228 | whichever step issues a code, its client is active, the redirect URI registered, the challenge, scope and organization allowed, and a client that requires consent was approved |
| AuthorizationRuns.DenialIsHonouredExactlyWhen | app/oauth2/authorization/request.py:183-206 | a denial yields no code if and only if the request is invalid by then, the organization is not allowed, or the client still requires consent |
| AuthorizationRuns.DeniedYetIssued | app/oauth2/authorization/interaction.py:113-143 | a run in which a denied interaction issues a code |

## Left out

- Cryptography, JWT verification, password hashing and random generation: free constructors, arbitrary functions and fresh handles stand for them, and two different inputs are taken to have different digests.
- Concurrent writers during a drain: the drain is modelled for rows that no one else changes, with one cutoff; a stop event may end it anywhere.
- The deletion of browser sessions in batches: one step removes any set of sessions that are terminal at its cutoff.
- Fairness between outbox rows and exactly-once mail delivery, which the code does not promise: a row may be sent more than once.
- A heartbeat whose clock reading is older than the claim it renews: one process's clock is taken never to fall behind its own earlier readings.
- Stale reads before a write: SQLite refuses to let a transaction write once what it read has changed, so a request that loads a session and slides it is one step whose first clock reading follows the last commit. app/db/engine.py:48-55 opens transactions that way.
- OAuth2Cleanup.OAuth2Store.Drain: when the stop event is set it promises only that reported plus remaining is the original backlog, because where it stops is not the drain's choice.
- WorkflowTokens.NewestEventWins: the operations in between redeem no token that signs a message of this pair under its purpose and invalidate nothing of the pair, because either would use the winner; `WorkflowTokens.UnusedIsNewest` is the statement without that premise.
- WorkflowTokens.WorkflowTokenTable.IssueTokenForEvent: takes one clock reading where the code takes several in the same transaction, because nothing depends on their difference.
- Rows of workflow tokens without source-event columns: the schema allows them, no code writes them.
- Deletion of workflow tokens with their user: in the token ledger rows only grow; the identity model has the cascade.
- DeviceTable.DeviceAuthorizations.CreateDeviceAuthorization: a draw in which both codes are taken counts as a taken device code, because the database decides which index it reports.
- Refusals of a token request before its device poll, which touch no row.
- DeviceRuns.IssuedAsApproved: bounds the clock reading of the consumption, not its commit; the reading is taken before the writer lock, so tokens may be issued just after the code expired.
- Display names, the two line-break checks, the organization rows themselves and the publishing of notifications: an update returns what it announces.
- IdentityRuns.IdentityStore.RevokeUserSecuritySessions: browser sessions and token families are one map of unrevoked sessions there; the mark sessions_invalid_before, which refuses the same sessions once more, and the reasons of a revocation are not part of this model.
- Revocation of sessions for a whole organization, client or server in the identity model, where it is a sign-out of any set of sessions; in `TokenFamilyRuns` it is an end of any set of sessions.
- Normalization of addresses beyond ASCII white space and letters.
- Client management: client rows change arbitrarily.
- TokenFamilies.TokenFamilyStore.RotateRefreshFamily: the checks of client, scope and identity before a rotation are not part of this model, since each only refuses; the theorems hold for whichever requests pass. Access hashes and token ids are taken to be new.
- The lookup by token of the revocation endpoint, whose effect is an end of one session.
- TokenJudges.AcceptedTokensSurviveCleanup: its premise on expiries is what `TokenFamilyRuns.TokenStatesAreWellFormed` proves of reachable states.
- TokenJudges.JudgesAgree: the two judges read the same state at the same time; the scope that introspection reports is the token's claim, which neither judge compares with the session.
- AuthorizationFlow.AuthorizationServer.ExchangeCode: building and storing the tokens is not part of this model; the expiry is compared with a clock reading that may be older than the commit.
- Routers, forms, templates, CSRF, cookies, logging and settings loading.
