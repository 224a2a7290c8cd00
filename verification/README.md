# Eveland: verified protocols

Eveland runs AI agents for teams. An API service owns projects, sessions and credentials; a gateway
is the one public listener and routes requests to agent deployments; both keep their state in one
database and may run as several instances. This project models the parts whose correctness depends
on the order in which things happen, or on exact text and arithmetic, and proves what they keep.

| Files | What is modelled |
|---|---|
| `CredentialStore`, `RefreshProtocol`, `RefreshInvariant`, `RefreshTheorems`, `RefreshOutcomes`, `RefreshProgress`, `RefreshStaleRun` | OIDC credentials shared by any number of instances: resolution, refresh under a lease, 401 recovery, sign-in callbacks, configuration changes |
| `Routing`, `GatewayRouting`, `GatewayOutcomes`, `GatewaySticky` | weighted routing over 10,000 buckets; operation and session bindings under concurrent requests, from a create to its continuations |
| `ActivationLease` | the lease of one proxied request, under any interleaving of pulls, timer ticks and cancellation |
| `TeamAdmins`, `TeamRows`, `DeviceCodes` | racing demotions and removals that must not lose the last admin; the trim of device codes |
| `Lines`, `EveEvents`, `StreamMonitor`, `GatewayTransport` | newline-delimited JSON: heartbeats put in by the gateway, lines split and projected by the API |
| `TranscriptEvents`, `TranscriptReading`, `TranscriptFold`, `TranscriptStatus`, `TranscriptCalls`, `TranscriptBuilder`, `TranscriptSlots`, `TranscriptForest`, `TranscriptPlaces`, `TranscriptCircles`, `TranscriptDisplay` | session transcripts: the event fold over shared mutable turns and calls, child sessions hung on calls, grouping for display |
| `PlaygroundRoute` | the requests of one playground turn and the settling of its session |
| `Limiter`, `CallerTokens` | the sliding-window limiter and the caller-token cache |
| `Slugs`, `Base64Url`, `AuthEnvelope`, `AffinityCookie` | slugs and their claiming, base64url, credential envelopes, affinity cookies |

Two shapes recur. Code that several processes run against shared rows is a step system: a state, an
event for what one process does between two awaits, and lemmas over all runs. Code that changes its
own objects is a class, each method proved against a function on values, with lemmas about that
function. Clocks, random identifiers and what other systems answer are parameters and are not
constrained unless a row says so.

## Results that contradict expectations

Each is a run or an input, and beside it the exact condition.

- A credential's `rotationSeq` restarts at 0 when a deleted row is inserted again
  (`packages/db/src/postgres-agent-auth-store.ts:78-103`), while `oidc.ts` deletes and compares by
  that number alone. A second recovery attempt can therefore delete a credential newer than the one
  rejected: `RefreshStaleRun.StaleRejectionDestroysNewer` is a run of two requests that share a
  refresh, are both rejected again, and straddle two new sign-ins. What is deleted is the rejected
  credential exactly if the key was never without a row since: `RefreshTheorems.DiscardsRejectedIff`.
  The same holds of the delete after an `invalid_grant` answer (`oidc.ts:398-401`), which also compares
  the number alone, after the lease has been given back.
  The model gives each insert an `incarnation`, which stands for what the row would need to tell.
- `bindSession` overwrites (`packages/db/src/postgres-deployment-routing-store.ts:908-940`), so a
  session id that two deployments report moves to the second, and its continuations with it:
  `GatewaySticky.ReusedIdMovesSession`. It stays exactly as long as no other deployment reports it:
  `GatewaySticky.SessionKeptIff`.
- The activation lease stays with its time to live when the failure-observation read rejects or the
  response cannot be built; `ActivationLease.Execute` states the exact condition.
- "Never a lockout" (`apps/api/src/auth.ts:412-418`) fails exactly by a permitted write on a target
  that was listed as no admin, while nobody else is one and no mutation is about to restore one:
  `TeamAdmins.RunKeepsIff`, with nothing assumed of the library. Such a write needs a check that is
  not atomic with it, or a promotion in between; each alone gives a run that ends without an admin:
  `TeamAdmins.AtomicCheckNeeded` and `TeamAdmins.NoPromotionNeeded`.
- A device code that expires exactly at the sweep is neither swept nor live, but can be evicted in
  place of a live one (`DeviceCodes.TieSpoilsCount`), and claimed codes can crowd live ones off the
  list. `DeviceCodes.LimitMetIff` and `DeviceCodes.MetInEveryOrderIff` are the exact conditions, for
  one order of the query and for all.
- A heartbeat is not invisible wherever it falls; each that cuts a line adds one:
  `GatewayTransport.HeartbeatsInvisibleIff`.
- Nodes that name each other as parents are missing from the transcript if each finds an open call
  (`TranscriptCircles.MutualParentsVanish`), and are detached and shown if none does
  (`TranscriptCircles.MutualParentsWithoutCalls`). A node is shown whatever the events are exactly if
  its named parents never lead into a circle: `TranscriptCircles.AlwaysShownIff`.
- decodeBase64Url accepts several texts for the same bytes: `Base64Url.EncodeDecoded`.
- The unnumbered slug candidate can equal a numbered one, exactly if it is long enough and ends in
  that number (`Slugs.CoincideIff`); then k refused slugs defeat k + 1 attempts
  (`Slugs.FewerRefusalsSuffice`).

## Model

| member | source | states |
|---|---|---|
| CredentialStore.ExtendsTransitive | packages/db/src/postgres-agent-auth-store.ts:78-262 | what store writes keep (versions immutable, rows only move forward, no lease or incarnation reused) composes over runs |
| CredentialStore.PutExtends | packages/db/src/postgres-agent-auth-store.ts:78-103 | an upsert starts a new incarnation or the next rotation; every earlier version keeps its contents and never returns |
| CredentialStore.RotateExtends | packages/db/src/postgres-agent-auth-store.ts:127-200 | replacing or completing keeps all earlier versions as they were |
| CredentialStore.DeleteExtends | packages/db/src/postgres-agent-auth-store.ts:114-125 | a delete removes one key's row and leaves all other rows and all history |
| CredentialStore.ClaimExtends | packages/db/src/postgres-agent-auth-store.ts:149-171 | a claim changes the lease alone, under a new lease id |
| CredentialStore.ReleaseExtends | packages/db/src/postgres-agent-auth-store.ts:202-223 | a release changes the lease alone |
| CredentialStore.DeleteStaleExtends | packages/db/src/postgres-agent-auth-store.ts:250-262 | the sweep drops rows of older revisions of one connection and keeps all history |
| CredentialStore.SweepLeavesTheRest | packages/db/src/postgres-agent-auth-store.ts:250-262 | a row is left exactly if it is of another connection or of no older revision |
| RefreshInvariant.StepKeeps | packages/agent-auth/src/oidc.ts:329-751 | every step of every process keeps the invariant that ties program counters to rows, leases, history and grants |
| RefreshInvariant.RunKeeps | packages/agent-auth/src/oidc.ts:329-751 | so does every interleaving of any number of instances, with any clocks; any store write may be made, or not, without its reply arriving |
| RefreshTheorems.VersionsGrow | packages/agent-auth/src/oidc.ts:350-404 | over any run a key's stored version only grows |
| RefreshTheorems.OneCommitPerVersion | packages/agent-auth/src/oidc.ts:374-387 | no version is committed by two refreshes |
| RefreshTheorems.CommitNeedsLease | packages/agent-auth/src/oidc.ts:356-387 | only the completion of the flight whose lease is on the row commits, and it commits the next rotation |
| RefreshTheorems.TakenOverNeverCommits | packages/agent-auth/src/oidc.ts:388-404 | a process whose lease was taken over never commits and never reaches the invalid_grant delete, however the run goes on |
| RefreshTheorems.SingleFlight | packages/agent-auth/src/oidc.ts:406-430 | one instance never runs two refreshes of one key |
| RefreshTheorems.ResolutionBounded | packages/agent-auth/src/oidc.ts:432-566 | at most three passes and at most two awaited refreshes |
| RefreshTheorems.ResolutionSound | packages/agent-auth/src/oidc.ts:303-566 | every envelope carries the active, verified token of the version it names, issued under the connection's revision, with more than 30 s left at the check, whatever callbacks and configuration changes race |
| RefreshOutcomes.RefusedExactlyBecause | packages/agent-auth/src/oidc.ts:432-566 | over any run a resolution ends with a failure exactly if one of that failure's causes came up: sign-in is asked for exactly if a read found no row, the credential in hand was expiring without a refresh token, or the awaited refresh asked for reauthorization; likewise for the three other failures |
| RefreshOutcomes.RefusedIff | packages/agent-auth/src/oidc.ts:432-566 | and each step refuses exactly for those causes |
| RefreshOutcomes.AnsweredIff | packages/agent-auth/src/oidc.ts:476-566 | a step answers with an envelope exactly if the credential it has read or just stored is not expiring: that token, version and clock reading |
| RefreshOutcomes.AwaitsIff | packages/agent-auth/src/oidc.ts:406-430 | an expiring credential with a refresh token, before the third pass, makes the resolution wait, for its instance's flight of that key or a new one about that version; nothing else does |
| RefreshProgress.RefreshAnswers | packages/agent-auth/src/oidc.ts:356-566 | from every state with an expiring, refreshable, free row, the undisturbed run whose provider issues an accepted token with more than 30 s left ends in an envelope with that token, one sequence number up |
| RefreshProgress.VerificationAnswers | packages/agent-auth/src/oidc.ts:476-517 | a pending credential that the verifier accepts is stored as active and answered, one sequence number up |
| RefreshOutcomes.FlightIff | packages/agent-auth/src/oidc.ts:329-404 | a flight succeeds exactly by its commit, or by seeing another's commit or the end of its lease; it fails with an error exactly for that error's causes |
| RefreshOutcomes.GrantedIff | packages/agent-auth/src/oidc.ts:356-372 | a flight refreshes exactly if the row is still the one it read and no live lease is on it; otherwise it waits, and no row changes |
| RefreshOutcomes.IssuedIff | packages/agent-auth/src/oidc.ts:356-387 | what a flight goes on to store is exactly what the provider issued and the verifier did not refuse: active if it was accepted, else awaiting verification |
| RefreshOutcomes.CommitStores | packages/db/src/postgres-agent-auth-store.ts:173-196 | a commit stores that at the next number and frees the lease; a lost completion changes no row |
| RefreshOutcomes.ReleaseGivesBack | packages/agent-auth/src/oidc.ts:388-404 | a failed flight gives its own live lease back, and goes on to a delete exactly after an invalid grant with such a lease |
| RefreshOutcomes.RecoveryIff | packages/agent-auth/src/oidc.ts:670-749 | a recovery tells its request to retry, gives up, or goes on to delete, each exactly for its causes |
| RefreshOutcomes.CallbackGoesOnIff | packages/agent-auth/src/oidc.ts:612-656 | a callback goes on exactly with what the provider issued and the verifier did not refuse, and to its store write exactly if the revision is unchanged |
| RefreshOutcomes.ChangeNeedsNewSignIn | packages/db/src/postgres-agent-auth-store.ts:250-262 | after a configuration change nothing stored before is answered: a resolution asks for sign-in |
| RefreshTheorems.WhoRemoves | packages/agent-auth/src/oidc.ts:670-749 | which events can remove a row, and at which sequence number; recovery only on attempt 1 and at the rejected one |
| RefreshTheorems.RejectedStaysGone | packages/agent-auth/src/oidc.ts:670-749 | after attempt 1 settles the rejected version is not stored, then or later |
| RefreshTheorems.SameNumberIff | packages/agent-auth/src/oidc.ts:695-714 | when a row again has the number of an earlier version, it is that version exactly if the key had a row at every point between |
| RefreshTheorems.DiscardsRejectedIff | packages/agent-auth/src/oidc.ts:388-404 | what attempt 1 deletes, whether or not its reply arrives, and what an invalid grant deletes, is the version it is about exactly if the key was never without a row since that was current; otherwise it is a newer one |
| RefreshStaleRun.StaleRejectionDestroysNewer | packages/agent-auth/src/oidc.ts:670-749 | a run from no credentials, of two requests that each make attempt 0 and then attempt 1, in which the second deletes a credential signed in after the rejected one |
| Routing.HashRound | packages/core/src/routing.ts:34-37 | a signed 32-bit round (`^=` then Math.imul) equals the unsigned modular round |
| Routing.AffinityBucket | packages/core/src/routing.ts:32-39 | the signed loop computes the unsigned FNV-1a fold modulo 10,000 |
| Routing.XorBit | packages/core/src/routing.ts:35 | bit k of the exclusive or is 1 exactly if bit k of one operand is |
| Routing.EveryUnitMatters | packages/core/src/routing.ts:32-39 | keys that differ in exactly one unit, wherever it is, have different 32-bit hashes |
| Routing.RevisionsRehash | packages/core/src/routing.ts:49-58 | two revisions of one route are hashed as different keys |
| Routing.SelectWeighted | packages/core/src/routing.ts:49-66 | an invalid route throws, and otherwise the target owning the bucket is returned |
| Routing.SelectWeightedTarget | packages/core/src/routing.ts:32-66 | hash and choice composed: the target that owns FNV-1a of `routeId:revision:key`, or of the key alone, modulo 10,000 |
| Routing.OwnerUnique | packages/core/src/routing.ts:59-63 | no bucket has two owners |
| Routing.SelectionIsChosen | packages/core/src/routing.ts:49-66 | the owner of a bucket is the one the closed form chooses |
| Routing.BucketsPerTarget | packages/core/src/routing.ts:15-66 | a target has exactly `weight` of the 10,000 buckets |
| Routing.RaisingMovesToward | packages/core/src/routing.ts:49-66 | raising the first target's weight moves buckets only toward it |
| Routing.BoundGoesThere | apps/gateway/src/gateway-routing.ts:19-52 | a binding resolves to its own deployment, or to nothing exactly when that deployment cannot serve |
| Routing.UnboundFindsEligible | apps/gateway/src/gateway-routing.ts:53-67 | for any targets, without a binding the answer is null exactly when none is eligible, and an error exactly when all are but they form no valid route |
| Routing.DegradedFailsOver | apps/gateway/src/gateway-routing.ts:53-67 | with all targets eligible the weights decide; with one of two down the other takes all |
| GatewayOutcomes.ResolveIs | apps/gateway/src/gateway-routing.ts:19-67 | a request finds nothing exactly if nothing serves it, and an error exactly if all targets serve but form no valid route; else its binding's deployment, or an eligible target |
| GatewayOutcomes.DrainingKeepsItsOwn | apps/gateway/src/gateway-routing.ts:19-67 | a draining deployment keeps what is bound to it and gets nothing new |
| GatewayOutcomes.StoppedIsWoken | apps/gateway/src/gateway-routing.ts:19-67 | a stopped one gets requests exactly if it may be woken |
| GatewayRouting.RunKeeps | apps/gateway/src/gateway-request-lifecycle.ts:135-285 | over any interleaving of requests, operation rows never change and pinned requests stay pinned |
| GatewayRouting.CreatesAgree | apps/gateway/src/gateway-request-lifecycle.ts:156-200 | all creates with one operation key that reach activation, now or later, reach the deployment of the one operation row (that they do reach it: `GatewayOutcomes.CreateReaches`) |
| GatewayOutcomes.CreateReaches | apps/gateway/src/gateway-request-lifecycle.ts:135-285 | from every state, the undisturbed create with a serving target, a supported version and a granted activation ends with its key's row stored and has reached that row's deployment: the row found, untouched, or a new one for the target chosen, other rows untouched |
| GatewayOutcomes.LoserFollows | apps/gateway/src/gateway-request-lifecycle.ts:175-200 | the create that lost the race reaches the deployment of the row that was there first |
| GatewayOutcomes.RespondBinds | apps/gateway/src/gateway-session-lifecycle.ts:94-129 | a create that is answered with a session id binds it to the deployment reached |
| GatewayOutcomes.ContinuationReaches | apps/gateway/src/gateway-session-lifecycle.ts:44-74 | an undisturbed continuation of a bound session whose deployment serves reaches it |
| GatewayOutcomes.EndsIff | apps/gateway/src/gateway-request-lifecycle.ts:135-285 | a step ends a request with a status exactly for its reason: 503 if nothing serves or the activation is refused, 500 for an invalid route, 409 if the version is unsupported, 410 if the binding is inactive or gone, 404 if a playground session has none, 200 by its answer |
| GatewayOutcomes.EndedBecause | apps/gateway/src/gateway-request-lifecycle.ts:135-285 | over any run, whatever status a request ended with, one of its events had that reason |
| GatewayRouting.SessionBoundToOperation | apps/gateway/src/gateway-session-lifecycle.ts:94-129 | the session such a create makes is bound to that same deployment |
| GatewayRouting.ContinuationsFollow | apps/gateway/src/gateway-session-lifecycle.ts:44-74 | a continuation that found its binding reaches its session's deployment or none, while ids are not reported by two deployments |
| GatewaySticky.SessionKeptIff | packages/db/src/postgres-deployment-routing-store.ts:908-940 | over any run a bound session keeps its deployment at every point exactly if no create answered by another deployment reports its id |
| GatewaySticky.ReusedIdMovesSession | packages/db/src/postgres-deployment-routing-store.ts:908-940 | a run from no requests in which two deployments report one id and a continuation on the first one's route is activated on the second |
| GatewaySticky.CreateSticks | apps/gateway/src/gateway-session-lifecycle.ts:44-129 | end to end: once a create with an operation key has bound its session, every continuation that looks it up later reaches the deployment of the operation's row or ends without activation, if no other deployment reports the id after that create |
| ActivationLease.ManagedBody.Finalize | apps/gateway/src/gateway-request-lifecycle.ts:404-409 | releases once and stops the renewals; later calls do nothing |
| ActivationLease.ManagedBody.Drive | apps/gateway/src/gateway-request-lifecycle.ts:389-436 | any schedule of reads, cancellations and ticks makes the calls of `BodyCalls` |
| ActivationLease.BodyReleasesOnce | apps/gateway/src/gateway-request-lifecycle.ts:389-436 | those release at most once, as the last call, and exactly once when the body is over |
| ActivationLease.NoRenewalAfterRelease | apps/gateway/src/gateway-request-lifecycle.ts:400-409 | no renewal starts after the release |
| ActivationLease.Execute | apps/gateway/src/gateway-request-lifecycle.ts:202-317 | which worlds throw, answer and stream; on every path after activation the lease is released exactly once, unless the named condition leaves it to its time to live |
| ActivationLease.LeaseLives | apps/gateway/src/gateway-request-lifecycle.ts:389-436 | a lease is renewed at each tick until the body ends, and released exactly if it does |
| TeamAdmins.StepKeepsIff | apps/api/src/auth.ts:430-497 | a step keeps "zero admins implies a mutation between its write and its compensation" exactly if it is no uncounted losing write while nobody else is an admin, or a mutation can still restore one after it; whose rows these are: `TeamRows` |
| TeamAdmins.RunKeepsIff | apps/api/src/auth.ts:430-497 | over any run the invariant holds in every state exactly if no step falls into that gap; nothing is assumed of the library's check |
| TeamAdmins.AtomicRunKeepsIff | apps/api/src/auth.ts:447-497 | with an atomic check the gap is a promotion of the target between listing and write, and nothing else |
| TeamAdmins.NeverLockedOut | apps/api/src/auth.ts:412-497 | starting with an admin, any interleaving without a step into the gap leaves one whenever no mutation is half done |
| TeamRows.UntouchedKeepsRoles | apps/api/src/auth.ts:430-497 | over any run a user's rows change only by a permitted write or a restoring compensation of a mutation that targets that user, or by a join of that user |
| TeamRows.WriteGives | apps/api/src/auth.ts:469-480 | a permitted write gives the target's row exactly the asked role, or removes that row; any other changes nothing and refuses the mutation |
| TeamRows.CompensationRestores | apps/api/src/auth.ts:482-493 | a compensation makes its target an admin again whenever there is a row to restore, and changes no other user's rows |
| TeamRows.SnapshotListed | apps/api/src/auth.ts:447-468 | whether a mutation takes its target for an admin is what one listing during the run showed |
| TeamRows.RefusedKeepsRole | apps/api/src/auth.ts:482-497 | the step that refuses a mutation changes no member, or is its own compensation, whose target was listed as an admin and is one again if there is a row to restore |
| TeamRows.AloneDoesWhatIsAsked | apps/api/src/auth.ts:430-497 | a mutation that nobody interferes with ends exactly as asked if its caller may ask for it, the library permits it and it would not take the last admin, else refused with the members as they were |
| TeamAdmins.ZeroAdminsIsTransient | apps/api/src/auth.ts:412-497 | while no admin is left a restoring compensation is pending and no other write is permitted |
| TeamAdmins.AtomicCheckNeeded | apps/api/src/auth.ts:447-450 | a run that loses every admin when the library's check is not atomic with its write |
| TeamAdmins.NoPromotionNeeded | apps/api/src/auth.ts:469-497 | a run that loses every admin when a target seen as a member is promoted before the write |
| DeviceCodes.DeviceCodeTable.Trim | apps/api/src/auth.ts:206-235 | the adapter calls leave exactly the rows of `Trimmed` |
| DeviceCodes.ProtectedSurvive | apps/api/src/auth.ts:200-235 | no live claimed or non-pending code is evicted, and nothing is added or changed |
| DeviceCodes.OldestGoFirst | apps/api/src/auth.ts:219-234 | an evicted code expires no later than any surviving unclaimed pending one |
| DeviceCodes.LiveAfterTrim | apps/api/src/auth.ts:206-235 | the exact live count after any trim, from the unclaimed listed codes that are live and that expire at the sweep |
| DeviceCodes.LimitMetIff | apps/api/src/auth.ts:206-235 | the count is the larger of the limit and the protected codes exactly if the listed codes that expire at the sweep leave enough evictions and enough unclaimed live codes are listed |
| DeviceCodes.MetInEveryOrderIff | apps/api/src/auth.ts:219-234 | the tables on which that holds whatever the order among equal expiries |
| DeviceCodes.TieSpoilsCount | apps/api/src/auth.ts:208-235 | a table with one such code on which the limit is missed |
| Lines.TrimIgnoresBlank | apps/api/src/app-support.ts:230-243 | blank text around a line does not change its trimmed form |
| Lines.Append | apps/api/src/app-support.ts:240-256 | text that follows is split after the unfinished last line, however it arrives |
| Lines.InsertNewline | apps/api/src/app-support.ts:240-256 | a newline inserted anywhere leaves the projected lines as they were exactly when one side of the line it cuts is blank |
| EveEvents.FoldConcat | packages/core/src/eve.ts:532-563 | folding events in two parts is folding them at once |
| EveEvents.AwaitsApprovalIff | packages/core/src/eve.ts:532-563 | a session awaits approval exactly if something was asked for and nothing since has resumed or ended it |
| EveEvents.EndsIff | packages/core/src/eve.ts:532-563 | it is completed, failed or waiting exactly as the last fact that decides says |
| EveEvents.MovedBy | packages/core/src/eve.ts:532-563 | a fact moves the status exactly if it decides, or resumes a session that awaits approval |
| StreamMonitor.ProjectLine | apps/api/src/app-support.ts:267-305 | a line leaves the fold of its facts, and writes it once exactly if a fact moves the status, with the last failing fact when it failed |
| StreamMonitor.Monitor.OnChunk | apps/api/src/app-support.ts:237-256 | a chunk is forwarded unchanged and completes exactly the lines it ends |
| StreamMonitor.RunMonitor | apps/api/src/app-support.ts:214-265 | however the text is cut, the lines, the writes and the final status are those of the whole text |
| StreamMonitor.LastWriteIsFinal | apps/api/src/app-support.ts:288-305 | the last status the store is told is the final one |
| GatewayTransport.HeartbeatStream.Pull | apps/gateway/src/gateway-transport.ts:157-190 | a pull whose timer wins sends a heartbeat and keeps the read for the next pull; otherwise it sends the next chunk, or ends the stream exactly after the last |
| GatewayTransport.Stream | apps/gateway/src/gateway-transport.ts:157-190 | the output of any schedule of races, the chunks in it, and exactly which schedules close it |
| GatewayTransport.OutputErased | apps/gateway/src/gateway-transport.ts:157-190 | erasing heartbeats leaves exactly as many of the source's chunks, in order, as reads won |
| GatewayTransport.SentTail | apps/gateway/src/gateway-transport.ts:157-190 | a heartbeat only ever cuts the unfinished line short |
| GatewayTransport.HeartbeatsInvisibleIff | apps/gateway/src/gateway-transport.ts:147-156 | of a whole output: one more projected line for each heartbeat with text before and after it on its line, and the source's own lines exactly if there is none |
| GatewayTransport.LineEndsHarmless | apps/gateway/src/gateway-transport.ts:147-156 | so it is for every schedule if every chunk ends a line |
| GatewayTransport.GatewayThenMonitor | apps/api/src/app-support.ts:214-265 | a streamed and then monitored session is where the text delivered so far leads, heartbeats or not; it closes, on the whole text, exactly when more reads win than there are chunks |
| GatewayTransport.ReadLimitedBody | apps/gateway/src/gateway-transport.ts:87-120 | the whole body exactly if it fits and the request is not aborted before its end; which error comes first otherwise |
| TranscriptFold.StepKeeps | packages/core/src/transcript.ts:150-584 | every event keeps turn ids unique, the indexes in agreement, and tasks among registered calls |
| TranscriptFold.TurnsAreDistinct | packages/core/src/transcript.ts:160-177 | only the first turn may lack an id, and no two turns share one |
| TranscriptFold.EnterKeeps | packages/core/src/transcript.ts:160-177 | the turn an event is about is the one with its id, or the last one; at most one turn is added, at the end |
| TranscriptFold.ItemsInOrder | packages/core/src/transcript.ts:179-581 | a turn's items are the log's entries for it, in event order: none lost, doubled or moved |
| TranscriptFold.EveryCallOnce | packages/core/src/transcript.ts:209-277 | every call is shown exactly once, in the order of creation |
| TranscriptFold.UsageConserved | packages/core/src/transcript.ts:312-319 | the turns' usage adds up to what the spending effects carry |
| TranscriptFold.TurnsUseWhatIsReported | packages/core/src/transcript.ts:477-488 | and to what the counted events report, whatever turns they name |
| TranscriptFold.ReceiptsDecideNothing | packages/core/src/transcript.ts:239-286 | once a task has started, erasing all action results for its id changes nothing in any later state |
| TranscriptFold.CancelSettlesTheTurn | packages/core/src/transcript.ts:335-351 | a cancelled turn has no pending call; other calls are as they were |
| TranscriptFold.MessagesAreFirstAndLast | packages/core/src/transcript.ts:181-197 | the messages kept beside a turn's items are the first user text and the last assistant text among them |
| TranscriptFold.OnlyNamedCallsChange | packages/core/src/transcript.ts:239-310 | an event changes no call but the one registered under its id, or the pending ones of the turn it cancels |
| TranscriptFold.EndedStaysEnded | packages/core/src/transcript.ts:320-371 | a turn that has ended is not reopened, and a failing session does not change how it ended |
| TranscriptStatus.TurnStatusIs | packages/core/src/transcript.ts:320-540 | a turn's status is that of the last event about it that completes, fails, cancels or settles turns; without one it is failed exactly if a session failed while it was the turn meant, else incomplete |
| TranscriptStatus.TurnUsageIs | packages/core/src/transcript.ts:312-319 | a turn's usage is the sum of what the counted events about it report, and is there exactly if there is one |
| TranscriptCalls.CallEndIs | packages/core/src/transcript.ts:239-466 | a call's status, output and error are those of the last event that settled it, be it its task's, its own or its action's result unless that is a receipt, or of a cancellation of its turn while it was pending; else it is pending |
| TranscriptCalls.CallOpensIs | packages/core/src/transcript.ts:239-476 | a call shows the session it last opened, and the usage of its last result that is no receipt |
| TranscriptCalls.KnownIsLastRequested | packages/core/src/transcript.ts:209-448 | the call that an id means is the last one requested under it |
| TranscriptCalls.IdentityKept | packages/core/src/transcript.ts:209-278 | a call keeps the id, name, input and time it was created with |
| TranscriptCalls.TasksAreSeen | packages/core/src/transcript.ts:279-286 | results are receipts exactly for ids that a started task named while they meant a call |
| TranscriptCalls.AgentsCallIs | packages/core/src/transcript.ts:209-295 | a call is an agent's exactly if it was created so, opened a session, or was started as an agent's task |
| TranscriptStatus.UserShown | packages/core/src/transcript.ts:181-190 | which events add a user text, and which text |
| TranscriptStatus.AssistantShown | packages/core/src/transcript.ts:191-425 | which events add an assistant text, and which text |
| TranscriptStatus.NoticesShown | packages/core/src/transcript.ts:320-583 | which events add a notice, and under which heading |
| TranscriptStatus.SignInsAreShown | packages/core/src/transcript.ts:541-583 | the end of an interaction is shown exactly if that interaction was last opened as a sign-in |
| TranscriptReading.TokensAreSummed | packages/core/src/transcript.ts:477-488 | what is reported is the sum, field by field, of the counted events' token numbers |
| TranscriptReading.ActionsAreAsked | packages/core/src/transcript.ts:209-238 | each action asked for becomes one call, in order, with its id, node, input and time, an agent's exactly if its kind says so |
| TranscriptReading.CapabilityIsAsked | packages/core/src/transcript.ts:426-448 | task controls are no calls; any other capability is one, an agent's exactly if its kind says so |
| TranscriptReading.MessageReads | packages/core/src/transcript.ts:682-693 | a message is the first text among three keys, else the texts of its parts |
| TranscriptReading.ErrorReads | packages/core/src/transcript.ts:695-704 | an error is a text, or has a message; else the reason tells, or the message beside it |
| TranscriptBuilder.Turn.Update | packages/core/src/transcript.ts:181-581 | the in-place update of a turn is that of the fold, and only appends items |
| TranscriptBuilder.ToolCall.Update | packages/core/src/transcript.ts:252-310 | the in-place update of a call is that of the fold and keeps its child |
| TranscriptBuilder.Builder.TurnFor | packages/core/src/transcript.ts:160-177 | finds or creates the turn object that stands for the fold's |
| TranscriptBuilder.Builder.CancelCalls | packages/core/src/transcript.ts:335-351 | cancels the pending calls of one turn through the shared objects, and no others |
| TranscriptBuilder.Builder.Handle | packages/core/src/transcript.ts:179-581 | one event, through the aliased turns and calls, is one step of the fold; objects are only added |
| TranscriptBuilder.BuildTurns | packages/core/src/transcript.ts:150-584 | the in-place algorithm computes the fold |
| TranscriptForest.FindCallThatOpened | packages/core/src/transcript.ts:657-667 | the first call without a child that opened the session, or null exactly when there is none |
| TranscriptForest.FindOpenSubagentCall | packages/core/src/transcript.ts:669-680 | the first open agent call, for the node if it is named, or null exactly when there is none |
| TranscriptForest.Hang | packages/core/src/transcript.ts:127-142 | a call that gets a child had none, and what hangs is the placement so far with one slot more |
| TranscriptForest.HangNext | packages/core/src/transcript.ts:131-145 | a node is hung, or else detached, exactly as `SlotFor` says on the calls without a child at that point |
| TranscriptForest.BuildSessionTranscript | packages/core/src/transcript.ts:90-148 | every view shows the fold of its own events; the children of all calls and the detached list are those of `Placement`, a function of nodes and events; the root is the first node without parent |
| TranscriptSlots.PlacedWhenOpen | packages/core/src/transcript.ts:131-145 | in that placement a node hangs nowhere exactly if it has no parent here or none of the parent's calls was open for it in its turn; else on the first that opened its session, or, if none did, on the first open agent call |
| TranscriptSlots.SlotOnce | packages/core/src/transcript.ts:657-680 | no call takes two nodes |
| TranscriptSlots.EventGoesTo | packages/core/src/transcript.ts:97-103 | an event is in the view of the node it names, and in the root's if it names none |
| TranscriptPlaces.PlacedOnce | packages/core/src/transcript.ts:127-142 | a node with a slot is the child of that call of its parent's view and of no other; one without is the child of none, and detached unless it is the root |
| TranscriptPlaces.DetachedOnce | packages/core/src/transcript.ts:127-142 | no node is detached twice |
| TranscriptPlaces.OneTop | packages/core/src/transcript.ts:90-148 | no node is under two of the root and the detached nodes |
| TranscriptPlaces.ShownOnce | packages/core/src/transcript.ts:90-148 | a node whose named parents lead into no circle is under exactly one of them |
| TranscriptPlaces.ShownUnlessCircle | packages/core/src/transcript.ts:127-142 | for a given placement a node is shown exactly if no node above it is above itself |
| TranscriptCircles.AlwaysShownIff | packages/core/src/transcript.ts:90-148 | a node is shown for every event list exactly if, in the nodes given, its named parents lead into no circle |
| TranscriptCircles.MutualParentsVanish | packages/core/src/transcript.ts:130-145 | two nodes that name each other, each with an open agent call: both are missing |
| TranscriptCircles.MutualParentsWithoutCalls | packages/core/src/transcript.ts:130-145 | the same two without events: both are detached and shown |
| TranscriptDisplay.GroupItems | packages/core/src/transcript.ts:594-619 | flattening the groups gives the items back; no group is empty or split; each has its status, only the last can trail |
| TranscriptDisplay.GroupingIsUnique | packages/core/src/transcript.ts:594-619 | no other grouping has those properties |
| TranscriptDisplay.StatusIs | packages/core/src/transcript.ts:621-651 | a failed call or notice outweighs a cancelled one, and that a pending call or the end of an incomplete turn, which is shown as running |
| TranscriptDisplay.CancelledIsNotRunning | packages/core/src/transcript.ts:621-651 | after a cancellation nothing of the turn is shown as running |
| PlaygroundRoute.Turn.Deliver | apps/api/src/app-canonical-playground-route.ts:228-317 | a reply is handed back exactly if no request was unreachable, a recovery led on with a fresh credential, and the second reply was not 401; it is the reply to the last request; the requests and recoveries are exactly those of `Course` |
| PlaygroundRoute.Turn.Run | apps/api/src/app-canonical-playground-route.ts:212-352 | the client gets that reply's status exactly then, else a refusal; a turn's session is settled exactly once, as taken exactly if the last reply is a 2xx, else as failed |
| PlaygroundRoute.CourseSends | apps/api/src/app-canonical-playground-route.ts:228-317 | at most two requests name the operation and one replay does not, with the last credential; a second only after a 401 and a recovery, with the credential resolved anew |
| PlaygroundRoute.CourseRecoveries | apps/api/src/app-canonical-playground-route.ts:252-300 | recoveries name attempts 0 and 1 and the version just rejected |
| Limiter.DeviceCodeRateLimiter.Allow | apps/api/src/app-control-plane-auth-boundary.ts:43-60 | allowed exactly if fewer than ten of the source's grants are in the window before; when that brings a 4097th source, the first of the map is forgotten |
| Limiter.SpacedSnoc | apps/api/src/app-control-plane-auth-boundary.ts:43-55 | a grant is at least a window after the tenth grant before it |
| Limiter.WindowHoldsTen | apps/api/src/app-control-plane-auth-boundary.ts:33-55 | hence no window holds more than ten |
| Limiter.RecentGrants | apps/api/src/app-control-plane-auth-boundary.ts:43-53 | the filtered list kept for a source is its whole history cut at the window |
| Limiter.Serve | apps/api/src/app-control-plane-auth-boundary.ts:33-61 | over any run with a clock that does not go back, every answer and every entry of the history is determined (`Answered`), and no source that was not forgotten gets more than ten in ten minutes |
| Limiter.ForgottenWhenFull | apps/api/src/app-control-plane-auth-boundary.ts:52-60 | in any such run a source is forgotten exactly when a new one is let through while there are 4096, and it is the least recently active; there are never more |
| CallerTokens.IdentityClient.CallerToken | apps/gateway/src/identity-client.ts:102-114 | a token read from the cache is not expired at the reading; null only under a retry floor; a mint starts only if none is in flight; nothing but null is served from a revoked project's cache |
| CallerTokens.IdentityClient.Respond | apps/gateway/src/identity-client.ts:66-99 | a usable token is stored at once, the oldest entries making room; other answers change no cache |
| CallerTokens.IdentityClient.Settle | apps/gateway/src/identity-client.ts:116-132 | success clears the floor; failure sets it to 5 s, or 60 s and an empty cache entry when access is off, and falls back on a cached token only if unexpired |
| CallerTokens.IdentityClient.Finish | apps/gateway/src/identity-client.ts:133-136 | all who wait get what the attempt came to, and only then may another start |
| CallerTokens.FloorsHold | apps/gateway/src/identity-client.ts:112-124 | a mint starts at least 5 s, or 60 s, after every earlier failure of its project |
| CallerTokens.OneAtATime | apps/gateway/src/identity-client.ts:109-136 | between two mints of one project the first has ended |
| CallerTokens.Run | apps/gateway/src/identity-client.ts:44-140 | the log and all values given are those of the actions, one by one (`CourseOf`); both properties above hold over every interleaving, with the cache within its bound; every value given was stored for its project and was unexpired when read from the cache, and after "inactive" only null is given until a token is stored |
| Slugs.SlugIsClean | packages/core/src/ids.ts:8-28 | a slug matches the pattern within 53 characters, with no two dashes in a row |
| Slugs.SlugIsWords | packages/core/src/ids.ts:16-28 | a slug is the folded name's words joined by dashes, cut at 53 characters, without a dash that the cut leaves at the end |
| Slugs.SlugExists | packages/core/src/ids.ts:16-28 | a name has a slug exactly if folding leaves a letter or digit |
| Slugs.SlugifyIsIdempotent | packages/core/src/ids.ts:16-28 | a slug is its own slug |
| Slugs.CandidateValid | packages/core/src/ids.ts:85-88 | a candidate is a valid slug exactly while its number leaves room for a letter |
| Slugs.CandidatesDiffer | packages/core/src/ids.ts:85-88 | numbered candidates are pairwise distinct, whatever is cut off |
| Slugs.ClaimProjectSlug | packages/core/src/ids.ts:78-92 | claims the first candidate not refused; k refused slugs cannot defeat k + 2 attempts |
| Slugs.CoincideIff | packages/core/src/ids.ts:85-88 | a numbered candidate is the unnumbered one exactly if the base has at least 52 characters and ends in that number |
| Slugs.FewerRefusalsSuffice | packages/core/src/ids.ts:78-92 | k refused slugs can defeat k + 1 attempts exactly if the base coincides with one of their candidates |
| Slugs.TwoAttemptsMayFail | packages/core/src/ids.ts:78-92 | refusing the base alone defeats two attempts exactly for such a base ending in 1 |
| Base64Url.EncodeBase64Url | packages/core/src/agent-auth.ts:114-120 | the sliced loop encodes the bytes, whatever the slice size |
| Base64Url.LetterAt | packages/core/src/agent-auth.ts:114-120 | each letter stands for six bits of the bytes, in order, and there are as many as it takes, without padding |
| Base64Url.RoundTrip | packages/core/src/agent-auth.ts:114-128 | decoding undoes encoding, for all byte strings |
| Base64Url.EncodeDecoded | packages/core/src/agent-auth.ts:122-128 | encoding undoes decoding exactly if the unused bits are zero |
| AuthEnvelope.CheckHeaders | packages/core/src/agent-auth.ts:71-90 | the seen-set check accepts exactly lists that name no header twice, whatever the case |
| AuthEnvelope.EnvelopeRoundTrip | packages/core/src/agent-auth.ts:104-112 | exactly valid envelopes are encoded, and they arrive as they were |
| AuthEnvelope.AcceptedIsValid | packages/core/src/agent-auth.ts:109-112 | what is accepted is valid and could have been sent |
| AffinityCookie.VerifyIffSigned | apps/gateway/src/gateway-routing.ts:116-134 | a cookie is accepted for a key exactly if it is the one signed for that non-empty key; keys may hold dots |
| AffinityCookie.CookieRoundTrip | apps/gateway/src/gateway-routing.ts:116-134 | verifying a signed key gives the key, or null for the empty one |

## Left out

- Refresh protocol: modelled on values as a step system, not as classes, because its claims are about
  interleavings of processes; the rows are the store's state. Sealing is an operation that opens only
  under the key it sealed for; the identity provider's and the verifier's answers are free.
- Refresh protocol: `agentIssuer` and `agentSubject`, connection secrets, the texts of failures and
  the one-use transactions behind a callback; a callback starts with the revision its transaction names.
- Lease ids are random UUIDs in the source; the model never repeats one.
- GatewayRouting.ContinuationsFollow: only while no session id is reported by two deployments, because
  `bindSession` overwrites; `GatewaySticky.SessionKeptIff` is exact for one session.
- GatewaySticky.CreateSticks: only while no other deployment reports the session's id after the create,
  which is exactly when the session stays bound.
- Gateway routing: hostnames, headers, MCP parsing and the Eve version lookup itself (its answer is a
  field of the event); idle policies are the event's `active` flag; nothing deletes binding rows.
- ActivationLease.Execute: requests without an activation client hold no lease and are not modelled;
  a release or renewal that fails is counted as made, as its error is dropped.
- TeamAdmins.NeverLockedOut: only for runs without a step into the gap, because the code does not exclude
  one; `TeamAdmins.RunKeepsIff` shows the condition to be exact.
- DeviceCodes.DeviceCodeTable.Trim: one atomic trim; interleaved trims are not modelled.
- Streams carry text: UTF-8 decoding across chunk borders and JSON parsing of a line (a parameter) are
  not modelled, nor are store writes that fail, whose errors are dropped.
- Transcripts: `JSON.stringify` is a parameter, numbers are reals (a value that is no finite number
  cannot occur in JSON), and a node's agent and status fields, which are copied, are left out.
- TranscriptForest.BuildSessionTranscript: node ids are distinct, as they are primary keys.
- TranscriptDisplay.GroupItems: works on the values that the fold computes, not on the heap's items.
- PlaygroundRoute.Turn.Run: store writes succeed, and what `reset` and streams do to a session is not
  part of it; an adopted session counts as settled.
- Limiter.Serve: eviction forgives a source, so the bound is for sources that were not forgotten.
- CallerTokens.IdentityClient.CallerToken: a callback that runs between two awaits is one method, and
  HTTP is the `Response` it is given.
- Slugs: Unicode normalization is a parameter that leaves slug characters alone; the claim is a set of
  refused slugs, and inferring slugs from Git URLs is left out.
- AuthEnvelope.EnvelopeRoundTrip: JSON and UTF-8 are a pair of functions that invert on valid envelopes.
- AffinityCookie.VerifyIffSigned: HMAC is a function, and the lenient base64url reader undoes the encoder.
- HTTP routing, CORS, schemas, user interface and SQL, the worker, schedulers, the agent observer and
  discovery: plumbing, or code that would only add easy members.
- The route cache and the Eve version cache of the gateway repeat the cache and limiter proofs in a
  weaker form.
