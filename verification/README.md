# Verified model of the IAM platform's token, grant and export logic

The platform issues RS256 access tokens, rotates its signing key without an outage, lets any number of
services verify those tokens from a cached key set, revokes sessions, hands clients their grants, and prints
and parses a few text formats around all of this. This project models that logic and proves what it is for.
`dafny verify dfyconfig.toml` checks everything.

| file | what it models |
|---|---|
| `KeyRotation.dfy`, `RotationProtocol.dfy` | the three rotation planners, and the signer as a state machine over a clock in milliseconds |
| `JwksVerifier.dfy`, `VerifierProgress.dfy`, `Claims.dfy` | the verifier with its cached key set and shared fetch; the closed claim set and its acceptance window |
| `RotationSystem.dfy`, `RotationGuarantee.dfy`, `RotationLimits.dfy` | one signer and any number of verifiers, composed, and what a deployment may promise of them |
| `Revocation.dfy` | the expiring store, the revocation cache and the guard |
| `TokenClient.dfy`, `TokenTransport.dfy`, `TokenProgress.dfy` | the client's token session wired to its transport, under every interleaving |
| `ResolveCache.dfy` | the client's grants cache |
| `Scopes.dfy` | path coverage, minimal covering sets, the authorization decision, the browser's copy |
| `AuditExport.dfy`, `KeyMapCodec.dfy`, `CompactJws.dfy` | the CSV writer with a reader to hold it to, the key-map variable, compact JWS over base64url |
| `ProvisioningTenant.dfy`, `Paging.dfy`, `RolePicker.dfy` | nested tenant contexts in a transaction, paginated walks, the permission picker |
| `Common.dfy`, `Text.dfy` | wrappers, published constants, `split` and `join` |

How it is built:

- An object whose methods update its fields is a class. Each method runs the code between two `await`s and is
  proved equal to a specification function on the object's whole state; runs are sequences of such steps, so
  any other task may act at every `await`. Where a promise's `then` and `finally` run apart, they are two steps.
- Fields described as history (when a kid was published, which tokens were presented, which load an entry came
  from) are recorded for the statements only; no step reads them to decide.
- The wall clock, HTTP answers, store failures, the contents of documents and the bodies of callbacks are
  parameters of the steps. JSON and RSA appear as pairs of functions with an inverse law. A locale's collation
  appears as a rank of strings.
- What the operator owes is a predicate on steps (`RotationProtocol.Honest`): no forced step, times no earlier
  than the true ones, the private key that pairs with the published public key, non-empty kids and identities,
  lifetimes as configured. `accessTtl` stands for the larger of the two configured token lifetimes. A run starts
  from a signer that was published a propagation wait ago and has issued nothing yet (`RotationProtocol.Init`).

## What the proofs found

- **Retention.** The retention wait is built on the constant of 900 s, while the environment schema bounds the
  configured lifetime only from below. The guarantee holds in every run if and only if the configured lifetime
  is at most the constant (`RotationProtocol.RetentionIffLifetimeBounded`).
- **Propagation.** On one clock a cache that has not expired is always sufficient if and only if its max-age and the
  age of the answers an intermediary may serve are together at most the propagation wait, 360 s. The endpoint marks
  its answers public for 300 s: behind a shared cache that honours this, the verifier's own 300 s no longer fit
  (`RotationSystem.FreshCacheSufficesIff`).
- **End to end.** Where no fetch fails and each is over within a bound, every `verify` of a genuine live token accepts,
  whatever is rotated meanwhile, if and only if max-age and relay age fit the propagation wait together, and so do the
  duration of a fetch and the relay age. A forced refetch does not save the rest: where a kid is reused, the older key
  is found under it, and no refetch is made (`RotationLimits.EveryVerifyAcceptsIff`).
- **Refetch floor.** The floor spaces successful fetches only. Comments speak of a floor on the trigger; after a
  request has settled the next lookup of the same kind fetches again if and only if it failed, or the age that
  applies has been reached (`JwksVerifier.FailureDoesNotThrottle`).
- **Revocation.** At one instant nothing falls between the entry and `exp`. The guard reads the clock twice, and
  a request slips through only if the two readings are further apart than the revocation was from the issue of
  the token; bounding them by that delay is exactly what a deployment needs (`Revocation.GuardIsTightIff`).
- **Refresh tokens.** No refresh token is presented twice if and only if the store never refuses to be cleared
  and only unspent tokens are adopted (`TokenClient.PresentedOnceIff`). A burst of 401s may still cost a second
  exchange, contrary to the comment on `reauthorize` (`TokenClient.LateReaderRefreshesAgain`).
- **Logout and login.** `clear()` empties the store and leaves an exchange under way, whose pair may then be stored
  without anybody logging in. A logout sticks if and only if no exchange has read a token and may still succeed
  (`TokenProgress.LogoutSticksIff`). A login is exposed the same way: an older exchange
  that succeeds after it puts the previous identity's pair in its place, and one that fails clears it. A login sticks,
  until it renews itself, if and only if no exchange has read another pair's token and is still to settle
  (`TokenProgress.LoginSticksIff`).
- **Grants cache.** A value dropped by `clear()` can still be handed out between the two callbacks of the load
  that produced it, and at no other time (`ResolveCache.DroppedServedIff`). A load still under way at `clear()`
  reaches later callers and repopulates the cache for them; a drop leaves nothing behind for a key if and only if
  no load of that key was under way (`ResolveCache.DropIsCleanIff`). The unfiltered grant set and an
  application named `*` share a key (`ResolveCache.KeyOfCollisions`).
- **Compact JWS.** The comments promise that no two strings decode to the same bytes. The alphabet check does not
  give that: every token that parses has another spelling that parses exactly alike
  (`CompactJws.EveryTokenRespells`). With the signature segment canonical there is none
  (`CompactJws.CanonicalTokensAreUnique`), and what the signer writes is canonical.
- **Provisioning tenant.** An unset tenant setting is restored as the empty string, not as unset
  (`ProvisioningTenant.SettingRestoredIff`).
- **Browser coverage.** The browser's point check never looks at the list of held permissions, and never lets the
  empty path cover anything; it agrees with the server in all other cases (`Scopes.BrowserAgreesIff`).
- **Permission picker.** The change test is exact if and only if the mapping lists no id twice
  (`RolePicker.SelectionChangedIff`).

## Model

| member | source | states |
|---|---|---|
| KeyRotation.PlanPublish | libs/config/src/key-rotation.ts:159-194 | publishing is refused exactly when the kid is already in JWKS; otherwise JWKS gains that one entry and the signer does not move |
| KeyRotation.PlanActivate | libs/config/src/key-rotation.ts:205-253 | the edits of the local copy amount to the specified switch, with its three outcomes and the next earliest time |
| KeyRotation.PlanRetire | libs/config/src/key-rotation.ts:259-299 | the edits of the local copy amount to the specified withdrawal, with its four outcomes |
| KeyRotation.ActivateKeepsPublished | libs/config/src/key-rotation.ts:220-252 | activation leaves the published kid-to-key map unchanged exactly when the kid is not the signer's own or names the same key, and keeps the signer out of the retained map exactly when the kid is not its own |
| KeyRotation.RetireWithdrawsOneKey | libs/config/src/key-rotation.ts:266-298 | retiring withdraws exactly the named key from JWKS and touches nothing else |
| KeyRotation.RefusalsInOrder | libs/config/src/key-rotation.ts:205-299 | which refusal a switch or withdrawal meets, with the two waits in milliseconds, and that only these can be forced |
| KeyRotation.ScheduleIsAccepted | libs/config/src/key-rotation.ts:140-299 | waiting until each step's printed earliest time makes the next step succeed, and a whole rotation ends with the new signer and the retained map it began with |
| RotationProtocol.StepKeepsInv | libs/config/src/key-rotation.ts:159-299 | every honest step keeps the inductive invariant: coherent environment, propagated signer, every live token's key retained, every document covering the tokens it must |
| RotationProtocol.RetireKeepsInv | libs/config/src/key-rotation.ts:266-298 | when a key may be withdrawn every token it signed is past `exp` plus the leeway |
| RotationProtocol.IssueAnswersAsked | apps/iam-api/src/auth/token.service.ts:98-121 | issuing adds one token, under the current key, whose seven claims are written out member by member from the request and the clock |
| RotationProtocol.IssueKeepsInv | apps/iam-api/src/auth/token.service.ts:98-121 | a new token is covered by every document less than one propagation wait old |
| RotationProtocol.DocumentCoverage | libs/config/src/key-rotation.ts:76-84 | in every run a key document holds the right key for every token issued less than one propagation wait after it was served and still live then, across repeated rotations, kid reuse and re-activation |
| RotationProtocol.RetentionTheorem | libs/config/src/key-rotation.ts:86-96 | in every run every token a verifier would still accept has its kid in the published set, mapped to the key it was signed under |
| RotationProtocol.LongLifetimeStrands | libs/config/src/env.schema.ts:619-622 | for every configured lifetime above the constant, an honest run that withdraws the key of a token still acceptable |
| RotationProtocol.RetentionIffLifetimeBounded | libs/config/src/key-rotation.ts:95-96 | the retention guarantee holds in all runs exactly when the configured lifetime is at most the constant |
| RotationProtocol.RetentionWaitIsTight | libs/config/src/key-rotation.ts:86-96 | a token issued in the millisecond its key stopped signing is live until the retention wait ends, less the part of a second lost by the floor, and no longer |
| Claims.ReaderInvertsSigner | libs/auth-kit/src/claims.ts:82-154 | the reader accepts a payload as a claim set exactly when it is what the signer writes for that set and its text claims are non-empty; the signer's check passes all of them |
| Claims.LifetimeIsExact | libs/auth-kit/src/claims.ts:167-189 | despite the floor to seconds a token is over from its issue plus lifetime plus leeway on, and not more than the rounding earlier |
| JwksVerifier.ImportKeys | libs/auth-kit/src/jwks-verifier.ts:195-200 | the loop over a document builds the specified key map |
| JwksVerifier.ImportedIsLastUsable | libs/auth-kit/src/jwks-verifier.ts:215-255 | a kid is known exactly when a usable entry names it, and its key is that of the last such entry |
| JwksVerifier.KnownKeysAreSound | libs/auth-kit/src/jwks-verifier.ts:239-255 | a known kid has a public RSA signing entry of at least 2048 bits, and any such entry is imported |
| JwksVerifier.PublishedDocumentRoundTrips | apps/iam-api/src/auth/keys.service.ts:111-144 | importing the published document, in any order, gives back exactly the signer's published map |
| JwksVerifier.Verifier.constructor | libs/auth-kit/src/jwks-verifier.ts:96-103 | a verifier starts empty with the configured or default max-age and floor in milliseconds |
| JwksVerifier.Verifier.KeyForKid | libs/auth-kit/src/jwks-verifier.ts:142-158 | a lookup answers from the cache or joins the one fetch, and the whole next state is the specified one |
| JwksVerifier.Verifier.Refresh | libs/auth-kit/src/jwks-verifier.ts:161-171 | a request is started only when none is in flight |
| JwksVerifier.Verifier.FetchSettled | libs/auth-kit/src/jwks-verifier.ts:162-200 | a landed fetch replaces the cache, stamped with the time it was started; a failed one leaves it |
| JwksVerifier.Verifier.FetchReleased | libs/auth-kit/src/jwks-verifier.ts:167-169 | the release frees the slot and hands the waiters what landed |
| JwksVerifier.Verifier.VerifyStart | libs/auth-kit/src/jwks-verifier.ts:106-109 | `verify` up to its first suspension |
| JwksVerifier.Verifier.VerifyResume | libs/auth-kit/src/jwks-verifier.ts:110-140 | `verify` from a lookup's answer: one forced lookup for an unknown kid, then the verdict |
| JwksVerifier.FetchDiscipline | libs/auth-kit/src/jwks-verifier.ts:106-201 | in every run of one verifier: one HTTP fetch at a time, successful fetches stamped at least the smaller of max-age and floor apart, no request begun sooner than that after the last success, no call waiting for nothing, none joining more than two fetches |
| JwksVerifier.UnknownKidIsLookedUpAgain | libs/auth-kit/src/jwks-verifier.ts:109-119 | in every run a finished call whose key set lacked its kid, and which joined no fetch, consulted keys younger than the floor |
| JwksVerifier.VerdictAcceptsIff | libs/auth-kit/src/jwks-verifier.ts:121-139 | a token is accepted exactly when it is RS256 under the selected key, carries exactly the seven claims, is of this issuer, and is within a minute of its issue and its end |
| JwksVerifier.VerdictReasons | libs/auth-kit/src/jwks-verifier.ts:114-139 | the exact condition of every other outcome, in the order of the checks |
| VerifierProgress.CallBegins | libs/auth-kit/src/jwks-verifier.ts:106-109 | a call begins exactly for a token that parses, about that token and that instant |
| VerifierProgress.EveryVerifyEnds | libs/auth-kit/src/jwks-verifier.ts:106-171 | in every run an unfinished call has an event that advances it, at most six such events lie ahead, and whatever the endpoint keeps answering it can finish, about its own token and instant |
| JwksVerifier.FailureKeepsKeys | libs/auth-kit/src/jwks-verifier.ts:183-193 | a failed fetch neither removes nor restamps the keys held and hands them to every waiter; with nothing held the waiter is refused |
| JwksVerifier.RequestStartedIff | libs/auth-kit/src/jwks-verifier.ts:142-171 | a lookup starts a request exactly when none is in flight and what is held, if anything, has reached the age that applies |
| JwksVerifier.FailureDoesNotThrottle | libs/auth-kit/src/jwks-verifier.ts:149-171 | after a request has settled a later lookup of the same kind starts another exactly when it failed or the age that applies has been reached |
| RotationSystem.EventKeepsNode | libs/auth-kit/src/jwks-verifier.ts:106-201 | every verifier step keeps it holding only documents the signer served, each unfinished call with the key those documents give |
| RotationSystem.NoSpuriousRejection | libs/auth-kit/src/jwks-verifier.ts:106-140 | in every run of signer and verifiers a finished `verify` of a genuine live token answers its claims, unless no key set was to be had or the one consulted was served a whole propagation wait before the token or after its end |
| RotationSystem.FreshCacheSuffices | libs/auth-kit/src/jwks-verifier.ts:142-158 | with max-age and relay age together within the propagation wait an unexpired cache accepts every genuine live token with no fetch at all |
| RotationSystem.FreshCacheSufficesIff | libs/config/src/key-rotation.ts:76-84 | that holds in all runs exactly when the max-age and the age of relayed answers together are at most the propagation wait; the published 300 s fit alone and not twice |
| RotationSystem.LateCacheMisses | apps/iam-api/src/auth/jwks.controller.ts:46-52 | for all ages that do not fit, a reachable state in which a fresh cache lacks the signer's key |
| RotationSystem.FetchedKeySetAccepts | libs/auth-kit/src/jwks-verifier.ts:106-171 | with a stale or empty cache and an endpoint that answers, the waiting call accepts the genuine token when it resumes |
| RotationSystem.UnknownKidRecovers | libs/auth-kit/src/jwks-verifier.ts:109-113 | a call whose kid is not among keys as old as the floor goes back to the endpoint and accepts the genuine token when that answers |
| RotationGuarantee.RunKeepsYoung | libs/auth-kit/src/jwks-verifier.ts:106-201 | in a smooth run whose ages and fetches fit, every key set a call looked into, and the one held meanwhile, was served less than a propagation wait before the call |
| RotationGuarantee.EveryVerifyAccepts | libs/auth-kit/src/jwks-verifier.ts:106-140 | there every finished `verify` of a genuine token issued and acceptable by its start answers its claims, if the token was live when the consulted document was served, and these are the subject, tenant and session it was asked for |
| RotationLimits.EveryVerifyAcceptsIff | libs/config/src/key-rotation.ts:76-84 | over all runs with bounded fetches that never fail, every finished `verify` of a genuine live token accepts exactly when max-age and relay age, and fetch duration and relay age, each fit the propagation wait |
| RotationLimits.FreshCacheRejects | libs/auth-kit/src/jwks-verifier.ts:142-158 | for all ages that do not fit, a run in which a reused kid makes a fresh cache reject |
| RotationLimits.SlowFetchRejects | libs/auth-kit/src/jwks-verifier.ts:161-171 | for all fetch durations that do not fit, a run in which a call joins a fetch begun too long ago and rejects |
| RotationSystem.AcceptedWasPublished | libs/auth-kit/src/jwks-verifier.ts:106-140 | whatever a verifier accepts was signed under a key the signer once published under that kid, and the claims are exactly the payload's |
| Revocation.RevocationCache.constructor | apps/iam-api/src/auth/revocation.provider.ts:28-34 | an entry's lifetime is one access-token lifetime plus the leeway |
| Revocation.RevocationCache.Revoke | libs/auth-kit/src/revocation-cache.ts:88-93 | revoking writes the session's entry and restarts its clock |
| Revocation.RevocationCache.IsRevoked | libs/auth-kit/src/revocation-cache.ts:96-98 | a session is revoked exactly while its entry is live |
| Revocation.BearerTokenMeaning | libs/auth-kit/src/auth.guard.ts:216-229 | a token is taken exactly from a single header made of a scheme `bearer` in any case, one space and a non-empty token without spaces, verbatim |
| Revocation.AskRevoked | libs/auth-kit/src/auth.guard.ts:175-203 | the cache decides when it answers, the database only when it could not, the policy only when neither could |
| Revocation.CanActivate | libs/auth-kit/src/auth.guard.ts:139-173 | claims reach the request exactly when it is an HTTP request to a protected route with a bearer token that verified and is not known or presumed revoked |
| Revocation.StepKeepsInv | libs/auth-kit/src/revocation-cache.ts:88-98 | issuing, revoking and time passing keep each dead session's entry ending one lifetime and leeway after its last revocation |
| Revocation.NoInstantBetween | libs/auth-kit/src/revocation-cache.ts:88-98 | in every run, at every instant, a token of a revoked session meets the live entry or its own `exp` |
| Revocation.GapIsOnlyInFlight | libs/auth-kit/src/auth.guard.ts:158-169 | over the guard's two readings of the clock, the exact condition under which such a token passes both checks, that it has expired by then, and that the readings were further apart than revocation and issue |
| Revocation.GapExample | libs/auth-kit/src/auth.guard.ts:158-169 | for every delay between issue and revocation, a run from the start in which a token passes with readings one millisecond further apart than that |
| Revocation.GuardIsTightIff | libs/auth-kit/src/auth.guard.ts:158-169 | where sessions are revoked no sooner than a delay after issue, no token ever gets through exactly when the guard's two readings are never further apart than that delay |
| TokenClient.TokenSession.constructor | libs/iam-client/src/auth.ts:105-117 | a session starts with nothing stored and nothing pending, and the configured or default renewal leeway |
| TokenClient.TokenSession.Refresh | libs/iam-client/src/auth.ts:185-192 | joins the pending exchange or starts the one and only |
| TokenClient.TokenSession.RunRefreshPresent | libs/iam-client/src/auth.ts:194-201 | presents the refresh token just read, or gives up without one |
| TokenClient.TokenSession.AdoptWritten | libs/iam-client/src/auth.ts:202-207 | the new pair replaces the store, or a refused write leads to forgetting |
| TokenClient.TokenSession.ForgetWritten | libs/iam-client/src/auth.ts:204-235 | a failed exchange clears the store if the store lets it, and settles as an error either way |
| TokenClient.TokenSession.Adopt | libs/iam-client/src/auth.ts:211-220 | what is stored after a login, refresh or service exchange |
| TokenClient.RequestsOnlyAdvance | libs/iam-client/src/http.ts:147-170 | every request's own step lowers its rank, of at most eleven, and no other step touches it |
| TokenProgress.StepsShorten | libs/iam-client/src/auth.ts:185-208 | one measure over a request, the exchange it waits for and that exchange's own request: every step of theirs lowers it and no other step changes it |
| TokenProgress.SomeStepAdvances | libs/iam-client/src/client.ts:130-144 | no unfinished request is ever stuck: it, the awaited exchange, or that exchange's own request can step, whatever the surroundings |
| TokenProgress.EveryRequestEnds | libs/iam-client/src/http.ts:147-170 | from every reachable client an unfinished request has an advancing step, no run holds more than 95 of them, and some run of no more finishes it |
| TokenProgress.LogoutSticksIff | libs/iam-client/src/auth.ts:194-235 | after `clear` the store stays empty in every run without a login or restore exactly when no exchange has read a token and may still succeed |
| TokenProgress.LoginSticksIff | libs/iam-client/src/auth.ts:194-235 | in every run without another login, restore or logout a login's pair stays until its own token is presented, exactly when no exchange has read another pair's token and is still to settle |
| TokenProgress.SuccessOverwritesLogin | libs/iam-client/src/auth.ts:199-207 | an exchange begun before a login and succeeding after it leaves the older identity's renewed pair in the store |
| TokenProgress.FailureClearsLogin | libs/iam-client/src/auth.ts:204-235 | the failing half of that: from every such state the login's pair, never presented, can be cleared |
| TokenClient.TransportDiscipline | libs/iam-client/src/http.ts:147-170 | over every interleaving: one exchange under way, at most two attempts, the second only after a 401 and a successful reauthorize, at most three refreshes asked, and the exchange's own request never asks for one |
| TokenTransport.ReplyMeaning | libs/iam-client/src/http.ts:151-159 | only a 401 to a bearer request's first attempt asks for new authority, any other answer is the result |
| TokenTransport.OtherAnswersStand | libs/iam-client/src/http.ts:151-159 | in every run an answer other than a 401 ends the request with that very answer, for good |
| TokenTransport.SecondAttemptNeeds401 | libs/iam-client/src/http.ts:147-170 | in every run a request is answered at most twice, and a second time only if the first answer was a 401, read off the steps alone |
| TokenTransport.ReadsTheStore | libs/iam-client/src/auth.ts:120-122 | every read answers with the store as it is at that moment |
| TokenTransport.ResumeMeaning | libs/iam-client/src/auth.ts:136-175 | which token a resumed request sends, and when a refused one is sent again |
| TokenTransport.SentTokensWereGranted | libs/iam-client/src/http.ts:149-168 | in every run a request carries only an access token that a login, a restore or a reply brought in as one |
| TokenTransport.ExchangeSucceedsIff | libs/iam-client/src/auth.ts:199-207 | an exchange succeeds exactly on a reply in the two-hundreds that holds a pair, and fails otherwise |
| TokenTransport.RenewalIsTimely | libs/iam-client/src/auth.ts:211-239 | a pair adopted with a lifetime in seconds is renewed exactly from its end less the leeway on |
| TokenClient.StepKeepsSpendInv | libs/iam-client/src/auth.ts:185-235 | in sound surroundings every step keeps whatever may be presented next unspent |
| TokenClient.PresentedOnce | libs/iam-client/src/auth.ts:185-235 | in sound surroundings no refresh token is presented twice in any run |
| TokenClient.PresentedTwice | libs/iam-client/src/auth.ts:194-235 | with either assumption dropped, a run that presents one twice |
| TokenClient.PresentedOnceIff | libs/iam-client/src/auth.ts:185-235 | single presentation holds in all runs exactly when the store always lets itself be cleared and only unspent tokens are adopted |
| TokenClient.RefreshAskedIff | libs/iam-client/src/auth.ts:136-175 | a request asks for a refresh exactly when the pair it read is renewable and about to expire, or renewable and still the one refused; a replaced token costs no exchange |
| TokenClient.LateReaderRefreshesAgain | libs/iam-client/src/auth.ts:152-175 | a request that read the old pair just before it was replaced starts a second exchange |
| ResolveCache.Cache.GetGrants | libs/iam-client/src/resolve-cache.ts:69-80 | a get hits, joins or starts a load, and the whole next state is the specified one |
| ResolveCache.Cache.ReloadGrants | libs/iam-client/src/resolve-cache.ts:83-101 | a reload joins the key's load or registers a new one |
| ResolveCache.Cache.LoadSettled | libs/iam-client/src/resolve-cache.ts:88-94 | a load stores its grants only on success and at a positive TTL |
| ResolveCache.Cache.LoadReleased | libs/iam-client/src/resolve-cache.ts:95-97 | a finished load frees its key |
| ResolveCache.Cache.Invalidate | libs/iam-client/src/resolve-cache.ts:110-116 | drops one application's entry, or all |
| ResolveCache.Cache.Clear | libs/iam-client/src/resolve-cache.ts:119-121 | drops every entry and leaves loads under way |
| ResolveCache.KeyOfCollisions | libs/iam-client/src/resolve-cache.ts:43-44 | two queries share a key exactly when equal, or when one is unfiltered and the other names `*` |
| ResolveCache.StepKeepsInv | libs/iam-client/src/resolve-cache.ts:69-121 | every step keeps the registered loads exactly the unreleased ones under their own keys, and each entry its own load's answer since the last drop |
| ResolveCache.OneLoadPerKey | libs/iam-client/src/resolve-cache.ts:69-101 | over every interleaving at most one load per key, a joined load is the key's own, nothing is stored at TTL zero |
| ResolveCache.HitIsYoungAndCurrent | libs/iam-client/src/resolve-cache.ts:69-121 | a cached answer was loaded for that key, settled strictly less than one TTL ago and after the last drop that concerned the key |
| ResolveCache.DroppedServedIff | libs/iam-client/src/resolve-cache.ts:76-121 | after a drop a get hands out a value settled before it exactly while that load's `finally` is outstanding |
| ResolveCache.DroppedServedExample | libs/iam-client/src/resolve-cache.ts:88-121 | such a moment is reachable |
| ResolveCache.DropIsCleanIff | libs/iam-client/src/resolve-cache.ts:103-121 | after `clear` or `invalidate`, whatever follows, a later get of a dropped key can hand out grants of an earlier load exactly when one was under way for it then, and can find them stored exactly when it had not settled, under a positive TTL |
| ResolveCache.DropSparesOthers | libs/iam-client/src/resolve-cache.ts:110-116 | a drop of one application is not felt by any other key |
| ResolveCache.ReloadAlwaysLoads | libs/iam-client/src/resolve-cache.ts:82-101 | a reload never answers from the store, it joins the key's load or starts one |
| ResolveCache.SettledAnswersForOneTtl | libs/iam-client/src/resolve-cache.ts:69-94 | what a load answered is what every get of its key answers for one TTL, whatever other keys and their drops, failing loads and reloads do meanwhile |
| Scopes.WithinIffLabelPrefix | libs/auth-kit/src/scope-resolver.ts:70-77 | the string test holds exactly when the prefix's label list is a prefix of the path's, for all strings |
| Scopes.WithinIsTreeOrder | libs/auth-kit/src/scope-resolver.ts:70-77 | "beneath" is a partial order in which two ancestors of one path are comparable |
| Scopes.BrowserCopyDiffersIff | libs/web-kit/src/scope-coverage.ts:38-41 | the browser's copy differs exactly on an empty granted path reaching an empty target or one led by a dot |
| Scopes.BrowserAgreesIff | libs/web-kit/src/scope-coverage.ts:65-72 | the browser agrees with the server exactly when, the permission held, the empty path is not all that covers the target, or, not held, no other path does |
| Scopes.DroppingKeepsCoverage | libs/contracts/src/grants.ts:24-28 | dropping paths that lie within another, some or all, changes no coverage |
| Scopes.ReducedIsTheMinimalCover | libs/contracts/src/grants.ts:24-28 | the fully reduced set is an antichain with the same coverage, and the only one |
| Scopes.MinimizationIsInvisible | libs/auth-kit/src/scope-resolver.ts:93-122 | no point check, decision or row narrowing can tell a grant set from one with redundant paths dropped |
| Scopes.DecideMeaning | libs/auth-kit/src/scope-resolver.ts:276-329 | allowed exactly when a listed key is held and covers what must be covered, naming the first such key; denied for permission exactly when none is held, naming all; otherwise denied for scope, naming exactly the held ones |
| Scopes.SeveralKeysAreAnyKey | libs/auth-kit/src/scope-resolver.ts:276-329 | several keys allow exactly when one of them alone would |
| AuditExport.ReadRow | apps/iam-api/src/audit/audit-csv.ts:76-89 | reading a printed row and its line break gives one record of the guarded cells |
| AuditExport.ExportReadsBack | apps/iam-api/src/audit/audit-csv.ts:100-131 | a reader of section 2 of RFC 4180 reads the export as the header and one nine-field record per input, each of the nine values, written out, guarded under its own literal column name, and no field read back starts with one of the six leads |
| AuditExport.ExportsAppend | apps/iam-api/src/audit/audit-csv.ts:114-131 | pages of an export may be appended: the export of two lists is that of the first and then the second's without its header |
| AuditExport.GuardCollisions | apps/iam-api/src/audit/audit-csv.ts:55-83 | the exact pairs of cells the guard cannot tell apart |
| KeyMapCodec.UnescapeOfEscape | libs/config/src/key-rotation.ts:302-311 | escaping then unescaping is unescaping alone up to line breaks, even where a backslash precedes one |
| KeyMapCodec.ReadBack | libs/config/src/env.schema.ts:250-285 | what any key map reads back as |
| KeyMapCodec.RoundTripIff | libs/config/src/env.schema.ts:250-285 | trimmed PEMs read back with line breaks normalised exactly when none holds a literal backslash-n |
| KeyMapCodec.EscapedIsOneLine | libs/config/src/key-rotation.ts:305-311 | an escaped value holds no line feed, and one without any is written as it is |
| KeyMapCodec.ParseMeaning | libs/config/src/env.schema.ts:250-285 | blank is the empty map; an issue exactly when not blank and no JSON object of texts; otherwise that object, unescaped and trimmed |
| KeyMapCodec.TrimMeaning | libs/config/src/env.schema.ts:281 | trimming takes white space off both ends and nothing else |
| CompactJws.DecodeOfEncode | libs/auth-kit/src/jws.ts:85-87 | base64url decoding undoes encoding bit for bit, within the alphabet |
| CompactJws.DigitsOfTheAlphabet | libs/auth-kit/src/jws.ts:57-58 | the 64 digits by code point, and the alphabet the check admits |
| CompactJws.DigitsAreBigEndian | libs/auth-kit/src/jws.ts:85-87 | three bytes and their four digits spell the same 24-bit number, and the tails likewise |
| CompactJws.EncodeOfDecodeIff | libs/auth-kit/src/jws.ts:95-98 | re-encoding a decoded segment gives it back exactly when its left-over bits are zero and no single digit is left over |
| CompactJws.CanonicalSegmentsAreUnique | libs/auth-kit/src/jws.ts:95-98 | two segments decode to the same bytes exactly when they differ in unused bits and left-over digits only; so canonical ones with the same bytes are the same segment |
| CompactJws.RespellingExample | libs/auth-kit/src/jws.ts:95-98 | `AB` is accepted, is not canonical, and decodes as `AA` does |
| CompactJws.EveryTokenRespells | libs/auth-kit/src/jws.ts:30-36 | every token that parses has a different one that parses exactly alike |
| CompactJws.CanonicalTokensAreUnique | libs/auth-kit/src/jws.ts:30-36 | tokens whose signature segments are canonical parse alike only if they are the same token |
| CompactJws.CanonicalSpellingIff | libs/auth-kit/src/jws.ts:139-177 | a parsed token has a canonical spelling exactly when its signature is not empty |
| CompactJws.SignedIsCanonical | libs/auth-kit/src/jws.ts:120-129 | what the signer writes is canonical |
| CompactJws.ParseOfSign | libs/auth-kit/src/jws.ts:120-201 | a signed token parses exactly when its kid is non-empty, to its header, its payload and the signature over the input parsed, and verifies under the paired key |
| CompactJws.VerifiesIff | libs/auth-kit/src/jws.ts:186-201 | a signature counts exactly under RS256, every other header is refused |
| CompactJws.ParsesIff | libs/auth-kit/src/jws.ts:95-177 | a token parses exactly when it is three dot-joined segments of the alphabet, two of them JSON objects, the header with a text `alg` and a non-empty `kid`; the signed document is then sliced from the token itself |
| ProvisioningTenant.Transaction.WithProvisioningTenant | libs/db/src/rls-context.ts:227-268 | the stepwise set, run and restore on both paths equals the specified outcome |
| ProvisioningTenant.NestedVisits | libs/db/src/rls-context.ts:227-268 | for any tree of nested visits that write, throw, catch or abort: the tenant reads as on entry or the transaction is aborted, the platform flag never moves, every row is written under its own body's tenant, an aborted exit throws, and without a platform context nothing changes |
| ProvisioningTenant.VisitsAreLexical | libs/db/src/rls-context.ts:227-268 | setting and restoring one variable implements lexical scoping: for any tree the rows of a visit are those of its body, in order, each under the tenant of the body it is written in, and it aborts and throws exactly when its body says so |
| ProvisioningTenant.CleanVisitWritesAll | libs/db/src/rls-context.ts:256-267 | a tree in which nothing fails writes all its rows and returns |
| ProvisioningTenant.SettingRestoredIff | libs/db/src/rls-context.ts:244-248 | the setting itself is restored exactly when it was set on entry |
| Paging.Limit | apps/admin-web/src/lib/paging.ts:59 | the page size is the one asked for, brought between one and a hundred, and a hundred where none is asked for |
| Paging.MaxPages | apps/admin-web/src/lib/paging.ts:60 | the cap is the one asked for, at least one, and a hundred where none is asked for |
| Paging.WalkPages | apps/admin-web/src/lib/paging.ts:54-78 | against any server the loop performs the specified walk, in at most the capped number of fetches |
| Paging.CollectPages | apps/admin-web/src/lib/paging.ts:81-90 | collecting is the walk whose visitor appends |
| Paging.FindInPages | apps/admin-web/src/lib/paging.ts:96-109 | finding is the walk whose visitor stops at a match |
| Paging.CollectsTheList | apps/admin-web/src/lib/paging.ts:81-90 | against a fixed list the rows collected are the list in order, cut at the cap, and so the whole list exactly when it fits |
| Paging.FindsFirstMatch | apps/admin-web/src/lib/paging.ts:92-109 | against a fixed list the answer is the first match under the cap, and the walk stops at the page that holds it |
| Paging.CollectsUntilItStops | apps/admin-web/src/lib/paging.ts:54-90 | against any server the walk stops at the first page that is short, reaches the claimed total or is at the cap, and what was collected is the pages up to it |
| Paging.FindsUntilItStops | apps/admin-web/src/lib/paging.ts:92-109 | against any server a search ends at the first page with a match or where a collection would |
| RolePicker.MergeById | apps/admin-web/src/lib/role-permissions.ts:86-92 | the two loops over catalog and mapping build the specified entries |
| RolePicker.GroupRows | apps/admin-web/src/lib/role-permissions.ts:94-115 | the loop over entries builds the specified groups in place |
| RolePicker.BuildPicker | apps/admin-web/src/lib/role-permissions.ts:80-121 | merge, grouping and order together are the specified picker |
| RolePicker.SortIsStable | apps/admin-web/src/lib/role-permissions.ts:117-121 | the order is a stable permutation: tied groups keep their order |
| RolePicker.PickerGroups | apps/admin-web/src/lib/role-permissions.ts:94-121 | one group for each application, holding exactly that application's entries in order and titled by the first, before and after sorting |
| RolePicker.EveryIdIsShown | apps/admin-web/src/lib/role-permissions.ts:86-115 | exactly the ids of the catalog or the mapping have a row |
| RolePicker.RowIsUnique | apps/admin-web/src/lib/role-permissions.ts:86-115 | no id has two rows, in one group or in two |
| RolePicker.RowsAreTrue | apps/admin-web/src/lib/role-permissions.ts:86-115 | each row carries the catalog's last word on its id, else the mapping's first, stands under its own application, is selected exactly when mapped, and gives the right reason when inert |
| RolePicker.LiveGroupsFirst | apps/admin-web/src/lib/role-permissions.ts:112-121 | a group is inert exactly when all its rows are, live groups come first, and names are in collation order within each part |
| RolePicker.PickerKeepsCatalogOrder | apps/admin-web/src/lib/role-permissions.ts:72-79 | rows stand in the order in which their ids first appear in catalog and mapping, and tied groups in that of their first rows |
| RolePicker.UntouchedSaveKeepsTheMapping | apps/admin-web/src/lib/role-permissions.ts:20-25 | the rows checked before any change are exactly the mapped ids |
| RolePicker.SelectionChangedIff | apps/admin-web/src/lib/role-permissions.ts:172-178 | the change test is exact for every choice if and only if the mapping lists no id twice |

## Left out

- Forced activation and retirement in the runs: they give up the guarantee on purpose. The planners model the flag.
- Clock skew between processes: signer and verifiers read one clock; the leeway is spent on `exp`.
- An intermediary that serves a document older than the age it is given: that age is a parameter of the deployment.
- Several signing processes deployed one after another: an environment takes effect at once.
- Service tokens whose lifetime exceeds the user lifetime in the revocation runs: their sessions are not revocable.
- RSA, JSON, UTF-8 and `fetch` themselves: pairs of functions with an inverse law, or answers given to a step.
- Kids, permission keys and map keys that name members of `Object.prototype`, which plain objects inherit.
- The token store failing to read, and `onSessionEnded`; a write that fails is modelled.
- A transport without the `authorize` and `reauthorize` hooks; headers, timeouts, query strings and body parsing.
- Log lines, error messages and the wording of refusals; a refusal is a value here.
- An expiring store that loses entries early, or a process that stops between two commands.
- The server's refresh-token rotation, its grants computation and its minimization code; their published contracts are used.
- `applyRlsContext`, the policies and the database; only the two settings, the aborted flag and the writes are kept.
- A restoring statement failing in a transaction that is not aborted, such as a lost connection.
- `filterPicker` and `matchesSearch`: Unicode case folding and one-pass filters.
- Case folding of the bearer scheme beyond ASCII letters.
- Screens, hooks, providers, command-line parsing and deployment scripts.
- `anyPathCovers`, `grantsFor`, `allowedPaths`, `covers`: single calls of members that are modelled.
