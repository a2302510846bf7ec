# Verified model of the Foundry MCP bridge

This project models, in Dafny 4.11, the hand-written state machines and graph walks of the Foundry MCP
server and of its Foundry module, and proves what they keep over every run. `dafny verify dfyconfig.toml`
checks everything.

## What is modelled

Every component that changes state is a class whose methods follow the program's methods branch by branch.
Each method is proved equal to a transition function on values (`Step`, `Received`, `Consumed`, ...), and the
properties are lemmas about those functions over all inputs, all runs and all interleavings.

The transition functions are pinned from outside as well: lemmas named `...Decides` and `...Meaning` say what one step does
in terms of the messages, keys, codes and times themselves, and relations such as `Answers`, `Way`, `Trail`, `SegmentOf`,
`IsTree` and `SawNobody` are defined without the functions they are proved to agree with.

| file | component |
|---|---|
| `BridgeServer.dfy`, `SessionRegistry.dfy` | the server as one transition system: any number of sockets, one registry, one capability cache, one map of pending requests; connects, messages, late close events, timers, `getActive`, routing, shutdown |
| `BridgeLaws.dfy` | what each of those events does, with every condition and close code spelled out; who can be authenticated, over all runs |
| `PendingRequests.dfy` | promises in flight with their timers |
| `RequestRouter.dfy` | the idempotency cache of promises |
| `RoutedBridge.dfy` | router and server together: what the cache means for the requests that reach a browser |
| `Deletion.dfy`, `TargetSet.dfy` | two-phase deletion and the canonical target set |
| `ObjectGraph.dfy` | finite graphs with sharing and cycles, on which the walks run |
| `CollectDocuments.dfy`, `Receipts.dfy` | the document search, the import listener, the receipt |
| `SafeData.dfy`, `SafeJson.dfy`, `JsonTree.dfy`, `SafetyAgreement.dfy` | the three safety checks, and how they agree |
| `RateLimiter.dfy` | the fixed-window limiter and its pruning |
| `ProfileLock.dfy` | the profile lock, any number of contenders |
| `LockRace.dfy` | the same lock between processes, one system call at a time |
| `BridgeClient.dfy`, `Heartbeat.dfy` | the reconnecting client, its backoff and its heartbeat |
| `Supervisor.dfy` | the headless supervisor's loop, cut at every `await`, with `stop` beside it |
| `Paging.dfy`, `Base64.dfy`, `Text.dfy` | cursor paging down to decimal printing and base64 |
| `Common.dfy` | shared vocabulary |

## Hypotheses

They are written as preconditions, or as the shape of an event.

- The clock does not run backwards (`RateLimiter.NonDecreasing`, `RequestRouter.GuardedRun`, `Deletion.Plausible`, `Heartbeat.Exact`).
- Confirmation tokens are fresh (`Deletion.Plausible`), and the target hash is injective (`Deletion.Injective`, needed by `ConfirmDeletesIff` only).
- A socket may deliver messages and one close event after `close()` was called on it (section 7.1.3 of RFC 6455).
- In `ProfileLock`, creating and writing the file is one step, and so is reading, judging and unlinking it. This is exact
  for contenders inside one Node process, where those calls are synchronous. `LockRace` drops the assumption. Process ids are not reused.
- HMAC, SHA-256, lower-casing and `Number` on texts other than plain digits are arbitrary functions, passed as parameters.

## Where a property one might expect is false

The code is kept as it is. Each case has a concrete counterexample and the exact condition that saves the property.

- "No session, no cached capabilities": `getActive` clears the session itself, so the close event that follows finds
  nothing to clear and leaves the cache (`EvictionLeavesTheCache`). When the current session is lost the cache is
  emptied if and only if the loss was its socket's close event (`CacheEmptiedIffClosed`).
- "One dispatch per idempotency key until it rejects or 15 minutes pass": a rejected promise deletes its key without
  looking whose entry it is. A callback that comes after its entry expired can forget the entry's successor, and the operation
  is then dispatched a third time (`LateCatchDispatchesTwice`). The next call is one dispatch too many unless, and only
  unless, the entry deleted is missing, is the promise's own, or has expired (`ForgettingIsSafeIff`, `NextCatchIsSafeIff`); every run
  whose callbacks meet that guard keeps the property (`DispatchedAtMostOnce`).
- "At most one live process holds the profile lock": between opening and writing, the lock file is empty, which reads as no pid, and
  between reading and unlinking, the file may have been replaced. Both windows let two processes hold the lock
  (`ReadingAnEmptyFileSharesTheLock`, `UnlinkingLateSharesTheLock`). A reader can take the lock beside another contender if and
  only if the file it is about to unlink has an owner (`TakeoverSharesTheLockIff`); every run in which none has keeps exclusion
  (`GuardedRunsAreExclusive`), and uninterrupted creations and reclaims are enough for that (`UninterruptedRunsAreExclusive`).
- "A preview that passes the check covers the requested targets": the check compares a length and memberships, so a preview that
  repeats a target can pass (`RepeatedPreviewPasses`). It is exact if and only if it repeats none (`MatchingPreviewIsExactIff`).
- "`start` is safe to call again": `BridgeClient.start` has no guard, and called twice it leaves a socket behind that nobody closed
  (`SecondStartLeavesALiveSocket`). A second call is safe if and only if it cannot connect, or no retry is armed and any
  current socket is already closing (`SecondStartIsSafeIff`). The module itself calls `start` once for each client
  (apps/foundry-module/src/lifecycle/ready.ts:16-17) and `restart` afterwards, so this is a misuse of the class and no run of the module.

## A sharper bound

A fixed window is usually said to admit at most `2 * limit` requests in any interval of one window length. The bound is
`2 * limit - 1`, and it is attained for every limit and every window of at least two milliseconds (`IntervalBound`, `IntervalBoundIsTight`).

## Model

| member | source | states |
|---|---|---|
| BridgeServer.EveryRunKeepsInv | apps/mcp-server/src/bridge/websocket-server.ts:71-143 | In every reachable state, whatever the interleaving: at most one registered session has an open socket and it is the registry's; every session belongs to a connection whose own proof verified, for the same user, the target world and a GM; a current session means the cache holds its registration; the pending requests are accounted for |
| BridgeServer.StepKeepsInv | apps/mcp-server/src/bridge/websocket-server.ts:80-140 | No single event of any kind, on any socket in any condition, breaks that invariant |
| BridgeServer.RoutesOnlyToAVerifiedSession | apps/mcp-server/src/bridge/request-router.ts:41-65 | After any run a routed request is written to the one live session, whose user proved the secret over its own nonce, and is pending afterwards; otherwise nothing is written and nothing is left pending |
| BridgeServer.ActiveIsTheOpenSession | apps/mcp-server/src/bridge/session-registry.ts:30-39 | In every reachable state `getActive` answers a session if and only if some registered session, by whatever history, has an open socket and was heard from within the timeout |
| BridgeServer.LateCloseChangesNothingElse | apps/mcp-server/src/bridge/websocket-server.ts:134-140 | The late close event of a replaced, evicted or never registered socket leaves the current session, the cache, the pending requests and every other socket alone |
| BridgeServer.CacheEmptiedIffClosed | apps/mcp-server/src/bridge/websocket-server.ts:134-140 | When the current session is lost, the cache becomes empty if and only if the cause was its socket's close event |
| BridgeServer.EvictionLeavesTheCache | apps/mcp-server/src/bridge/session-registry.ts:33-36 | Counterexample: after an eviction and the close event that follows there is no session, and the cache is still full |
| BridgeServer.JoiningWorks | apps/mcp-server/src/bridge/websocket-server.ts:80-112 | A connection with a verified proof and an admissible registration does become the current session, so the invariant is not about an empty set of states |
| BridgeLaws.AuthenticatedWasProved | apps/mcp-server/src/bridge/authentication.ts:19-30 | In every reachable state a connection with a user was sent, on its own socket, a proof with its own nonce, the target world and that user, whose digest is the HMAC of `nonce:world:user` under the secret |
| BridgeLaws.SessionsWereProved | apps/mcp-server/src/bridge/websocket-server.ts:83-112 | So was the socket of every registered session, for the user it registered; and it registered as a GM of the target world |
| BridgeLaws.ProofDecides | apps/mcp-server/src/bridge/websocket-server.ts:83-99 | One delivered proof authenticates an unauthenticated connection if and only if nonce, world and HMAC are right; every other proof closes the socket, with 4002 when malformed and 4003 when wrong or repeated, and changes nothing else |
| BridgeLaws.UnprovedIsRefused | apps/mcp-server/src/bridge/websocket-server.ts:80-103 | Before that, any other message closes the socket and does nothing else |
| BridgeLaws.RegistrationDecides | apps/mcp-server/src/bridge/websocket-server.ts:104-112 | A registration is accepted if and only if it is the first of its connection, for the proved user, the target world and a GM; the newcomer is current and cached, and the socket of another predecessor is closed with 4001 |
| BridgeLaws.LaterMessageDecides | apps/mcp-server/src/bridge/websocket-server.ts:100-132 | A session is dated by each of its messages, its pings only date it, its answers settle requests, and everything else closes the socket |
| BridgeLaws.LookDecides | apps/mcp-server/src/bridge/session-registry.ts:30-39 | `getActive` changes nothing while the current session has an open socket and was heard from within the timeout; otherwise it evicts it with code 4000 |
| BridgeLaws.DispatchDecides | apps/mcp-server/src/bridge/request-router.ts:46-65 | A request is delivered, to the current socket, if and only if the current session is live, the request meets its schema and its id is not in use; then it is pending until its deadline, else nothing is sent or left pending |
| BridgeLaws.CloseDecides | apps/mcp-server/src/bridge/websocket-server.ts:134-140 | A close event empties cache and pending requests, and leaves no current session, if and only if it is that of the current session's socket |
| BridgeLaws.AuthTimeoutDecides | apps/mcp-server/src/bridge/websocket-server.ts:77-78 | After any run, the authentication timer closes with 4003 exactly while it is armed, and never touches an authenticated connection |
| BridgeLaws.ConnectDecides | apps/mcp-server/src/bridge/websocket-server.ts:71-78 | A new connection has its own nonce, an open socket, an armed timer and no user, unless the server stopped accepting |
| BridgeLaws.ShutdownDecides | apps/mcp-server/src/index.ts:40-42 | Afterwards nothing is pending, nobody can connect, and no registered session has an open socket |
| BridgeServer.CapabilityCache.Set | apps/mcp-server/src/bridge/capability-cache.ts:6-8 | The cache holds the registration |
| BridgeServer.CapabilityCache.Clear | apps/mcp-server/src/bridge/capability-cache.ts:10-12 | The cache is empty |
| BridgeServer.Server.OnConnection | apps/mcp-server/src/bridge/websocket-server.ts:71-78 | A new connection starts unauthenticated with an armed authentication timer and nothing else changes |
| BridgeServer.Server.OnMessage | apps/mcp-server/src/bridge/websocket-server.ts:80-132 | Every message, well-formed or not and in any phase of its connection, takes the whole system to the state the transition system gives it |
| BridgeServer.Server.OnProof | apps/mcp-server/src/bridge/websocket-server.ts:83-99 | Takes the system to the state that `BridgeLaws.ProofDecides` speaks about: authenticated once, by a proof for this connection's own nonce, made with the secret; closed with 4002 on a malformed proof, with 4003 on a repeated or wrong one |
| BridgeServer.Server.OnRegister | apps/mcp-server/src/bridge/websocket-server.ts:104-112 | Registers one session per connection, for the authenticated user only, and fills the cache; otherwise closes with 4002 |
| BridgeServer.Server.OnClose | apps/mcp-server/src/bridge/websocket-server.ts:134-140 | Empties cache and pending requests only if the registry still held this connection's session |
| BridgeServer.Server.OnAuthTimeout | apps/mcp-server/src/bridge/websocket-server.ts:77-78 | Closes the socket only while its timer is armed |
| BridgeServer.Server.Dispatch | apps/mcp-server/src/bridge/request-router.ts:46-65 | Evicts, checks the request, waits and sends in that order; sends nothing without an active session, for a request that fails its schema, or with a request id in use |
| BridgeServer.Server.Shutdown | apps/mcp-server/src/index.ts:40-42 | Rejects everything pending, closes the current session and accepts no further connection |
| SessionRegistry.Sessions.Register | apps/mcp-server/src/bridge/session-registry.ts:16-28 | Refuses the wrong world and non-GMs without any change; otherwise the new session is current and a different predecessor's socket is closed with 4001 |
| SessionRegistry.Sessions.GetActive | apps/mcp-server/src/bridge/session-registry.ts:30-39 | Answers the current session, or evicts it when its socket is not open or it was silent too long |
| SessionRegistry.Sessions.Clear | apps/mcp-server/src/bridge/session-registry.ts:41-48 | Clears if and only if the given session is the current one, and says so |
| SessionRegistry.Sessions.Touch | apps/mcp-server/src/bridge/bridge-session.ts:24-26 | Dates exactly this session |
| SessionRegistry.Sessions.Shutdown | apps/mcp-server/src/bridge/session-registry.ts:50-53 | Closes the current session's socket and leaves no current session |
| SessionRegistry.Wire.Close | apps/mcp-server/src/bridge/bridge-session.ts:41-43 | An open socket starts closing with this code; a socket already closing keeps its first code |
| SessionRegistry.RegisteredKeepsOneOpen | apps/mcp-server/src/bridge/session-registry.ts:16-28 | Registering on a socket new to the registry leaves the newcomer as the only session with an open socket |
| SessionRegistry.ActiveKeepsOneOpen | apps/mcp-server/src/bridge/session-registry.ts:30-39 | Eviction closes the socket it forgets, so no session outside the registry keeps an open one |
| SessionRegistry.ShutDownKeepsOneOpen | apps/mcp-server/src/bridge/session-registry.ts:50-53 | After a shutdown no registered session has an open socket |
| PendingRequests.EveryRunIsAccounted | apps/mcp-server/src/bridge/pending-requests.ts:14-41 | Over every run of wait, settle, timer fire and rejectAll, with request ids reused at will: live timers and entries are in bijection; waits issued equal waits settled plus entries present; no promise is settled twice; answers reach the promise of their own request id |
| PendingRequests.FireRemovesItsOwnEntry | apps/mcp-server/src/bridge/pending-requests.ts:17-20 | A firing timer deletes by request id, and yet removes the very entry that armed it, whose promise was unsettled |
| PendingRequests.RejectAllEmpties | apps/mcp-server/src/bridge/pending-requests.ts:35-41 | Afterwards no entry and no timer is left, exactly the pending promises were rejected, and earlier outcomes stand |
| PendingRequests.DueTimersExpireOverdueEntries | apps/mcp-server/src/bridge/pending-requests.ts:14-24 | Firing the due timers, in whatever order, times out exactly the overdue promises: no entry outlives its timeout and none is cut short |
| PendingRequests.OutcomesAreCaused | apps/mcp-server/src/bridge/pending-requests.ts:14-41 | Over every run, a promise is answered only with a response that was received, times out only when a timer fires, and is disconnected only by `rejectAll` |
| PendingRequests.WaitAddsOne | apps/mcp-server/src/bridge/pending-requests.ts:14-24 | A wait adds one promise, pending under a live timer until its deadline, and disturbs no other; a request id in use changes nothing |
| PendingRequests.SettleDecides | apps/mcp-server/src/bridge/pending-requests.ts:26-33 | A response resolves the promise pending under its request id with the whole of it, stops its timer, and settles no other |
| PendingRequests.FireDecides | apps/mcp-server/src/bridge/pending-requests.ts:17-20 | A live timer times out the promise it was armed for and no other; a cleared one does nothing |
| PendingRequests.StepKeepsInv | apps/mcp-server/src/bridge/pending-requests.ts:14-41 | Each of the four operations alone keeps pairing, accounting and conservation |
| PendingRequests.Store.Await | apps/mcp-server/src/bridge/pending-requests.ts:14-24 | Fails exactly for an id in use, changing nothing; otherwise one new entry and one new timer |
| PendingRequests.Store.Settle | apps/mcp-server/src/bridge/pending-requests.ts:26-33 | True exactly for a known id, whose entry and timer go and whose promise gets this response |
| PendingRequests.Store.Fire | apps/mcp-server/src/bridge/pending-requests.ts:17-20 | The timer's entry goes and its promise times out |
| PendingRequests.Store.RejectAll | apps/mcp-server/src/bridge/pending-requests.ts:35-41 | The loop over the entries, in whatever order, amounts to rejecting all at once |
| PendingRequests.Store.Reject | apps/mcp-server/src/bridge/pending-requests.ts:36-39 | One round of that loop clears one timer and settles one promise |
| RequestRouter.DispatchedAtMostOnce | apps/mcp-server/src/bridge/request-router.ts:26-39 | In every run whose rejection callbacks find their entry missing, their own or expired, an operation is dispatched twice for one key only if the earlier promise had rejected or 15 minutes had passed |
| RequestRouter.RouteReusesTheShield | apps/mcp-server/src/bridge/request-router.ts:29-37 | A keyed call gets the very promise of the dispatch that still shields its operation and key, and dispatches if and only if there is none |
| RequestRouter.KeylessIsDispatched | apps/mcp-server/src/bridge/request-router.ts:26-39 | A safe call without a key is always dispatched, whatever is cached: one dispatch at that moment, its own promise, and no entry left behind |
| RequestRouter.KeyedIsCached | apps/mcp-server/src/bridge/request-router.ts:29-37 | A keyed dispatch is cached under `operation:key` for 900000 ms from its own clock reading; every other entry stays exactly until it expires |
| RequestRouter.UnsafeIsRefused | apps/mcp-server/src/bridge/request-router.ts:27 | An unsafe payload gets no promise and changes nothing, not even the expired entries |
| RequestRouter.ForgettingIsSafeIff | apps/mcp-server/src/bridge/request-router.ts:29-37 | After a rejection callback, the same call once more keeps at-most-once if and only if the entry that was deleted was missing, the promise's own, or expired |
| RequestRouter.NextCatchIsSafeIff | apps/mcp-server/src/bridge/request-router.ts:26-39 | The same after any run so far guarded, so that the guard is exact for the next callback of every such run |
| RequestRouter.HarmlessCatchKeepsInv | apps/mcp-server/src/bridge/request-router.ts:35 | A callback that meets the guard leaves every valid entry in place |
| RequestRouter.TimelyRunsAreGuarded | apps/mcp-server/src/bridge/request-router.ts:33-35 | Runs in which every rejection is handled before its entry expires are guarded |
| RequestRouter.TimelyCatchIsHarmless | apps/mcp-server/src/bridge/request-router.ts:35 | A callback that runs before its own entry expires meets the guard |
| RequestRouter.LateCatchDispatchesTwice | apps/mcp-server/src/bridge/request-router.ts:35 | Counterexample: a late callback lets an operation be dispatched again although its last promise never rejected and is 0 ms old |
| RequestRouter.CacheKeysAreInjective | apps/mcp-server/src/bridge/request-router.ts:30 | Two cache keys are equal if and only if operation and idempotency key are, colons in the latter included |
| RequestRouter.OperationsHaveNoColon | packages/protocol/src/bridge-messages.ts:53-72 | None of the protocol's operation names contains a colon |
| RequestRouter.Router.Route | apps/mcp-server/src/bridge/request-router.ts:26-39 | Payload check first, then pruning, then reuse or dispatch, as the transition function says that `KeylessIsDispatched`, `RouteReusesTheShield` and `UnsafeIsRefused` pin for each kind of call |
| RequestRouter.Router.PruneIdempotency | apps/mcp-server/src/bridge/request-router.ts:122-125 | Keeps exactly the unexpired entries |
| RequestRouter.Router.StartDispatch | apps/mcp-server/src/bridge/request-router.ts:41-45 | One more dispatch, named by its position |
| RequestRouter.Router.OnRejected | apps/mcp-server/src/bridge/request-router.ts:35 | Deletes by key, whoever's entry that is |
| RoutedBridge.SentOnceForOneKey | apps/mcp-server/src/bridge/request-router.ts:26-65 | Over every run of calls, rejections, callbacks and server events: two requests for one operation and key are written to browsers only if the first was settled and its promise rejected, or 15 minutes passed |
| RoutedBridge.NeverInFlightTogether | apps/mcp-server/src/bridge/request-router.ts:26-65 | With timeouts of at most 15 minutes, the second such request goes out only when the first was settled or is overdue |
| RoutedBridge.KeylessIsSent | apps/mcp-server/src/bridge/request-router.ts:26-65 | With a live session, a valid request and a fresh id, a safe call without a key adds exactly one dispatch, one delivery to that session and one wait |
| RoutedBridge.KeyedIsSentIff | apps/mcp-server/src/bridge/request-router.ts:26-65 | A keyed call does so if and only if no earlier dispatch of its pair, unexpired and not rejected, shields it; else nothing reaches a browser |
| RoutedBridge.UnsafeChangesNothing | apps/mcp-server/src/bridge/request-router.ts:27 | An unsafe call changes neither router nor server |
| RoutedBridge.TimedOutCallIsSentAgain | apps/mcp-server/src/bridge/request-router.ts:29-66 | A keyed call whose request timed out does not block its key: after the rejection and its callback the same call goes out again, as one new delivery |
| RoutedBridge.RejectionDecides | apps/mcp-server/src/bridge/request-router.ts:58-66 | The promise of a dispatch that was sent can reject if and only if its request was settled, any other at any time |
| RoutedBridge.StepKeepsLinks | apps/mcp-server/src/bridge/request-router.ts:41-66 | Deliveries, waits and dispatches stay in correspondence, and no promise rejects before its request was settled |
| RoutedBridge.Bridge.Route | apps/mcp-server/src/bridge/request-router.ts:26-65 | A call of `route` on router and server together: one delivery at most, and only for a new dispatch |
| Deletion.EveryDeleteIsAuthorised | apps/mcp-server/src/mcp/tools/deletion.ts:25-32 | Over every run of the two tools: each routed delete carries exactly the canonical targets of one earlier matched preview, came before its plan expired, and no token is used for two deletes |
| Deletion.ConfirmDeletesIff | apps/mcp-server/src/deletion/confirmation-store.ts:39-60 | After any run, with an injective hash, a confirmation deletes if and only if its token was issued, is unspent and unexpired, the supplied hash is the plan's, and the listed targets are the prepared set in any order |
| Deletion.RefusalIsInvisible | apps/mcp-server/src/deletion/confirmation-store.ts:39-56 | A refused confirmation, for whatever reason, changes no later run: the same deletes are routed and the same plans issued as without it |
| Deletion.MatchingPreviewIsExactIff | apps/mcp-server/src/deletion/prepare-deletion.ts:27-30 | A preview that passes the check names only requested targets, and all of them if and only if it repeats none |
| Deletion.RepeatedPreviewPasses | apps/mcp-server/src/deletion/prepare-deletion.ts:28 | Counterexample: a repeated target passes in place of a missing one |
| Deletion.HonestPreviewMatches | apps/foundry-module/src/operations/prepare-delete.ts:13-17 | When every document carries the uuid it was asked by, the preview of distinct targets always passes, and is exact |
| Deletion.PreparationDecides | apps/mcp-server/src/deletion/prepare-deletion.ts:21-39 | A plan is issued if and only if the preview is non-empty, has as many targets as there are different uuids and names requested ones only; it carries their canonical list, its hash and its deadline, and disturbs no unexpired plan |
| Deletion.PreparedWasIssued | apps/mcp-server/src/deletion/prepare-deletion.ts:21-39 | Over every run, a token has a plan if and only if one of its fitting previews issued it, with the uuids and the time of that preview |
| Deletion.DeletedWasConfirmed | apps/mcp-server/src/mcp/tools/deletion.ts:25-32 | Every delete of a run has a confirmation of that run with its token and its time |
| Deletion.FittingPreviewCanBeConfirmed | apps/mcp-server/src/deletion/confirmation-store.ts:39-60 | Whatever else happens before its deadline, an issued plan that is unspent can be confirmed, by its hash and its targets in any order, and one delete of the canonical targets is routed |
| Deletion.RefusalSaysWhy | apps/mcp-server/src/deletion/confirmation-store.ts:39-60 | After any run: a token never issued or already spent is unknown; an unspent one is refused as expired, or unknown once pruned, if and only if its deadline passed; a changed target set keeps an unexpired plan, a success spends it |
| Deletion.ConsequencesMeaning | apps/foundry-module/src/operations/prepare-delete.ts:18-20 | The consequences listed are exactly those that some listed document has |
| Deletion.PrepareDelete | apps/foundry-module/src/operations/prepare-delete.ts:4-23 | Refused if and only if the user is no GM, there are no or more than 50 entries, or one is not a non-blank string or names no document; otherwise one target per entry in order, with the consequences of exactly those documents |
| Deletion.DeletingKeepsInv | apps/mcp-server/src/deletion/confirmation-store.ts:39-60 | A confirmed delete spends its token and disturbs no other plan |
| Deletion.RefusingKeepsInv | apps/mcp-server/src/deletion/confirmation-store.ts:39-56 | A refusal drops expired plans only |
| Deletion.PrepareKeepsInv | apps/mcp-server/src/deletion/confirmation-store.ts:25-37 | A new plan under a fresh token drops only expired plans and changes no earlier authorisation |
| Deletion.ConfirmationStore.Create | apps/mcp-server/src/deletion/confirmation-store.ts:25-37 | The plan issued is the one stored, under its token, over the canonical targets |
| Deletion.ConfirmationStore.Consume | apps/mcp-server/src/deletion/confirmation-store.ts:39-60 | The four outcomes and the plans left by each; expired plans are deleted by their own refusal |
| Deletion.ConfirmationStore.Prune | apps/mcp-server/src/deletion/confirmation-store.ts:62-65 | Keeps exactly the unexpired plans |
| Deletion.Tools.PrepareDeletion | apps/mcp-server/src/deletion/prepare-deletion.ts:21-39 | Issues a plan if and only if the preview passes the check, else changes nothing |
| Deletion.Tools.ConfirmDeletion | apps/mcp-server/src/mcp/tools/deletion.ts:21-32 | Routes one delete, of the stored targets, if and only if the token was consumed |
| TargetSet.NormalizeIsCanonical | apps/mcp-server/src/deletion/confirmation-store.ts:12-14 | Two lists have the same normal form if and only if they have the same elements |
| TargetSet.NormalizeMeaning | apps/mcp-server/src/deletion/confirmation-store.ts:12-14 | The normal form is strictly increasing and has exactly the elements given |
| TargetSet.NormalizeIsIdempotent | apps/mcp-server/src/deletion/confirmation-store.ts:12-18 | Normalising twice changes nothing, so hashing a normalised list is hashing the list |
| TargetSet.IncreasingIsUnique | apps/mcp-server/src/deletion/confirmation-store.ts:12-14 | A strictly increasing list is determined by its elements |
| TargetSet.BeforeMeaning | apps/mcp-server/src/deletion/confirmation-store.ts:12-14 | The order is by the first code unit that differs, a proper prefix first |
| CollectDocuments.CollectFindsExactlyTheVisible | apps/foundry-module/src/integrations/plutonium/normalize-result.ts:76-89 | On any finite graph, shared or cyclic, the uuids collected are distinct and are exactly those of the documents that some way leads to: from an array to any entry, from an object without uuid to the value of any field but "actor", "destination", "options" and "importOpts", from a document nowhere; what the output held stays in place |
| CollectDocuments.CaptureFindsExactlyTheVisible | apps/foundry-module/src/integrations/plutonium/import-hooks.ts:8-30 | The same over any sequence of events, each with its own `seen` and all with one output |
| CollectDocuments.SeenIsReachable | apps/foundry-module/src/integrations/plutonium/normalize-result.ts:76-89 | The search marks exactly the objects that some way leads to |
| CollectDocuments.FollowsIsArrow | apps/foundry-module/src/integrations/plutonium/normalize-result.ts:81-88 | Single steps of a way, defined field by field without the search, are exactly the edges the search follows |
| CollectDocuments.WayIsReaches | apps/foundry-module/src/integrations/plutonium/normalize-result.ts:76-89 | Hence ways lead exactly where its edges lead |
| CollectDocuments.CollectExplores | apps/foundry-module/src/integrations/plutonium/normalize-result.ts:76-89 | From any `seen`, what is newly seen is reachable and closed under the edges that are followed |
| CollectDocuments.CollectReports | apps/foundry-module/src/integrations/plutonium/normalize-result.ts:81-83 | The output grows by newly seen documents only, misses none of their uuids, and stays duplicate-free |
| CollectDocuments.WellFormedIsClosed | apps/foundry-module/src/integrations/plutonium/normalize-result.ts:85-88 | Every graph without dangling references meets the precondition of these results |
| CollectDocuments.FollowedAreFields | apps/foundry-module/src/integrations/plutonium/normalize-result.ts:86-88 | The values followed are exactly those under keys that are not excluded |
| CollectDocuments.Search.Visit | apps/foundry-module/src/integrations/plutonium/normalize-result.ts:76-89 | The recursive method on the shared set and output terminates on cyclic graphs and computes the search |
| Receipts.ListsMeaning | apps/foundry-module/src/integrations/plutonium/normalize-result.ts:15-29 | Each list has distinct uuids and names exactly the documents shown by the summaries of its outcome; documents of failed summaries appear nowhere; event documents appear if and only if every summary completed and none showed a document |
| Receipts.StatusMeaning | apps/foundry-module/src/integrations/plutonium/normalize-result.ts:31-46 | Failed or skipped if and only if the batch is non-empty and all is; partial if and only if at least two of failed, skipped and successful occur; else completed |
| Receipts.PlacedMeaning | apps/foundry-module/src/integrations/plutonium/normalize-result.ts:15-25 | Conservation for each outcome: nothing shown is lost from its list, and nothing else gets into it |
| Receipts.AppendUniqueMeaning | apps/foundry-module/src/integrations/plutonium/normalize-result.ts:70-74 | Appending keeps uuids distinct and yields the union |
| Receipts.StandInCondition | apps/foundry-module/src/integrations/plutonium/normalize-result.ts:27-29 | Three empty lists and only completed outcomes mean exactly that no summary showed any document and all completed |
| Receipts.CountMeaning | apps/foundry-module/src/integrations/plutonium/normalize-result.ts:31-35 | A count is positive, or total, exactly when its outcome occurs, or is the only one |
| Receipts.OutcomeMeaning | apps/foundry-module/src/integrations/plutonium/normalize-result.ts:55-68 | A summary failed if and only if it is an object with "fail" or "error" standing in its status; else skipped by "skip" or "cancel"; else updated by "overwrite" or "update"; else it completed |
| Receipts.NormalizePlutoniumResult | apps/foundry-module/src/integrations/plutonium/normalize-result.ts:3-53 | The loops over summaries compute the receipt that the lemmas speak about |
| Receipts.CollectFrom | apps/foundry-module/src/integrations/plutonium/normalize-result.ts:16-17 | Each summary is searched with fresh `seen` and output |
| Receipts.CountOutcome | apps/foundry-module/src/integrations/plutonium/normalize-result.ts:31-32 | The filter counts the outcome |
| SafeData.AcceptedIffSafe | apps/foundry-module/src/operations/safe-data.ts:15-41 | On any finite graph, however shared, an object is accepted if and only if no trail of entries and field values from it meets a node twice and no field reachable along one has a forbidden segment between dots or ends of its key; each refusal names a defect that is there |
| SafeData.SplitMeaning | apps/foundry-module/src/operations/safe-data.ts:26-29 | Splitting a key gives exactly its stretches without a dot that are bounded on each side by a dot or an end of the key |
| ObjectGraph.LeadsIsReaches | apps/foundry-module/src/operations/safe-data.ts:22-41 | Trails, defined entry by entry and field by field, lead exactly where the edges of the walk lead |
| SafeData.AcceptedBoundsPaths | apps/foundry-module/src/operations/safe-data.ts:22-41 | Although arrays directly under an object are never marked, every path below an accepted object is at most twice as long as there are unmarked nodes, and clean |
| SafeData.RepeatingPathGrows | apps/foundry-module/src/operations/safe-data.ts:22-23 | A path that meets a node twice can be made as long as one likes |
| SafeData.WalkJustified | apps/foundry-module/src/operations/safe-data.ts:22-41 | A refusal inside the walk has a cycle or a forbidden key reachable from the root as its witness |
| SafeData.Walker.Visit | apps/foundry-module/src/operations/safe-data.ts:22-41 | The walk terminates on any finite graph and gives `seen` back unchanged when it does not throw |
| SafeData.Walker.VisitEntries | apps/foundry-module/src/operations/safe-data.ts:31-34 | So does its loop over the entries of an array under a key |
| SafeJson.PassesIffTree | apps/mcp-server/src/security/safe-json.ts:5-22 | On any finite graph the check passes if and only if the value is a tree (no two places hold the same object, none points back), no key reachable is unsafe and nothing lies deeper than the limit; each error names the one of the three that fails |
| SafeJson.PassedIsAcceptable | apps/mcp-server/src/security/safe-json.ts:8-19 | A passed check leaves a forest behind, hence the value is a tree, safe and shallow |
| SafeJson.SlotsVerdict | apps/mcp-server/src/security/safe-json.ts:8-19 | The loop over the slots of an object, met along any path with any part of the graph already visited, passes or names a defect that is there |
| SafeJson.VerdictIsJustified | apps/mcp-server/src/security/safe-json.ts:5-22 | The verdict on the whole value is justified in that sense, by a repeated object, an unsafe key or a path too long |
| SafeJson.Checker.Check | apps/mcp-server/src/security/safe-json.ts:5-22 | The recursive method with its one shared `seen` terminates by the depth limit and computes the verdict |
| JsonTree.FindIsExact | packages/protocol/src/schemas/common.ts:26-50 | Nothing is reported if and only if no dangerous key exists at any depth, and a reported path is the text of a real one |
| JsonTree.FoundIsReal | packages/protocol/src/schemas/common.ts:26-50 | A reported path leads, child by child, to an object with a dangerous key |
| JsonTree.NothingMissed | packages/protocol/src/schemas/common.ts:26-50 | Where nothing is reported there is no dangerous key at any position of any depth |
| JsonTree.OrderOfReports | packages/protocol/src/schemas/common.ts:26-50 | Which one is reported: an object's own first dangerous key before anything below it, and otherwise the report of its last child that has one |
| JsonTree.FindDangerousJsonPath | packages/protocol/src/schemas/common.ts:26-50 | The loop over the explicit stack terminates, because the total size of the pending values shrinks, and reports the first dangerous key in the order of a last-in-first-out search |
| SafetyAgreement.ChecksAgree | apps/mcp-server/src/security/safe-json.ts:5-22 | On a value that is a JSON tree, the server's check passes if and only if the protocol's search reports nothing and the depth is within the limit |
| SafetyAgreement.AcceptedDataHasNoDangerousKey | apps/foundry-module/src/operations/safe-data.ts:15-41 | What the browser's check accepts, the protocol's search finds nothing wrong with |
| SafetyAgreement.PassedJsonIsNotCyclic | apps/mcp-server/src/security/safe-json.ts:5-22 | What the server's check passes, the browser's check never calls cyclic |
| SafetyAgreement.DangerousIsForbidden | apps/foundry-module/src/operations/safe-data.ts:3-13 | Every dangerous key is a forbidden one once split at its dots |
| RateLimiter.PruningIsInvisible | apps/mcp-server/src/security/rate-limiter.ts:11-25 | The pruning limiter refines one that never prunes: verdict, remaining count and reset time are equal on every request sequence |
| RateLimiter.SimulationKeepsReplies | apps/mcp-server/src/security/rate-limiter.ts:23-25 | The simulation behind it: tables that differ only in expired buckets answer alike for ever |
| RateLimiter.WindowsAreExact | apps/mcp-server/src/security/rate-limiter.ts:7-22 | A request is rejected if and only if `limit` earlier ones of its client were accepted in its current window; the remaining count is the room left there; no window admits more than `limit` |
| RateLimiter.IntervalBound | apps/mcp-server/src/security/rate-limiter.ts:7-22 | In no half-open interval of one window length are `2 * limit` requests of a client accepted |
| RateLimiter.IntervalBoundIsTight | apps/mcp-server/src/security/rate-limiter.ts:7-22 | For every limit and window there is a sequence with `2 * limit - 1` accepted in such an interval |
| RateLimiter.RemembersStep | apps/mcp-server/src/security/rate-limiter.ts:10-15 | Each request keeps the table's memory exact: a bucket counts the requests accepted in its window, and no two windows of a client overlap |
| RateLimiter.PruningDecides | apps/mcp-server/src/security/rate-limiter.ts:23-25 | An accepted request that finds more than 1000 buckets leaves none expired; no live bucket is ever dropped, and no other request drops any |
| RateLimiter.Limiter.Handle | apps/mcp-server/src/security/rate-limiter.ts:7-27 | One call charges one bucket, and prunes only when accepted with more than 1000 buckets |
| RateLimiter.Limiter.Prune | apps/mcp-server/src/security/rate-limiter.ts:24 | Keeps exactly the live buckets |
| ProfileLock.EveryRunIsExclusive | apps/mcp-server/src/headless/chromium-profile-lock.ts:36-126 | In every interleaving of attempts, releases, failed writes and deaths, with creation and reclaim as single steps: a live holder's pid is the content of the file, at most one live attempt is between acquire and release, singleton files go only after two looks that saw nobody, and every acquired lock is released exactly once |
| ProfileLock.OnlyTheHolderRemoves | apps/mcp-server/src/headless/chromium-profile-lock.ts:43-47 | Whoever removes singleton files holds the lock, alone, and has looked twice: both probes could be made, named no owner, and named no holder alive on this host |
| ProfileLock.RemovalsAreJustified | apps/mcp-server/src/headless/chromium-profile-lock.ts:43-64 | After any run, an attempt that removed files had two such looks in its history, and one that was handed the profile a third that named no owner |
| ProfileLock.TwoChecksDecide | apps/mcp-server/src/headless/chromium-profile-lock.ts:44-46 | An attempt gets from its first check to the removal if and only if both probes saw nobody; otherwise the lock is released and nothing is removed |
| ProfileLock.ChecksDecide | apps/mcp-server/src/headless/chromium-profile-lock.ts:67-81 | One check goes on if and only if its probe could be made, has no owners and names no holder alive on this host |
| ProfileLock.RemovalDecides | apps/mcp-server/src/headless/chromium-profile-lock.ts:47-64 | A failed removal releases the lock, a successful one leads to the last look |
| ProfileLock.LastLookDecides | apps/mcp-server/src/headless/chromium-profile-lock.ts:48-60 | The profile is handed out if and only if the last probe could be made and named no owner; else the lock is released |
| ProfileLock.CreatesDecide | apps/mcp-server/src/headless/chromium-profile-lock.ts:96-126 | The lock is acquired if and only if there was no file and writing it worked, and the file then holds the pid in decimal; a file in the way is looked into, and any other failure or the deadline ends the attempt |
| ProfileLock.PreparedDecides | apps/mcp-server/src/headless/chromium-profile-lock.ts:43-64 | Once the lock is acquired, the profile is handed out if and only if both checks saw nobody, the files could be removed and the last look saw no owner; otherwise the lock is released |
| ProfileLock.ReclaimTakesOnlyStaleFiles | apps/mcp-server/src/headless/chromium-profile-lock.ts:128-147 | A reclaim removes the file if and only if it names no live process and can be read and unlinked, and then no live attempt held the lock |
| ProfileLock.LiveHolderIsNotStale | apps/mcp-server/src/headless/chromium-profile-lock.ts:133-143 | What a live holder wrote is never judged stale |
| ProfileLock.StaleLockIsTakenOver | apps/mcp-server/src/headless/chromium-profile-lock.ts:96-122 | A dead holder does not block: one conflict, one reclaim, one create, and the lock is held |
| ProfileLock.DeadLockIsTakenOver | apps/mcp-server/src/headless/chromium-profile-lock.ts:128-147 | In particular a lock that holds the pid of a dead process, or zero |
| ProfileLock.ReleasedLockIsFree | apps/mcp-server/src/headless/chromium-profile-lock.ts:105-117 | After a release the next contender to create the file holds the lock |
| ProfileLock.DeadHolderIsSucceeded | apps/mcp-server/src/headless/chromium-profile-lock.ts:96-147 | A holder that dies in any reachable state is succeeded by the next contender, in one conflict, one reclaim and one create |
| ProfileLock.ArrivalGetsTheLock | apps/mcp-server/src/headless/chromium-profile-lock.ts:96-117 | A process that arrives where no file is gets the lock |
| ProfileLock.ArrivalsDecide | apps/mcp-server/src/headless/chromium-profile-lock.ts:83-93 | An attempt of a live process begins at the creation and leaves the file alone |
| ProfileLock.ReleaseKeepsInv | apps/mcp-server/src/headless/chromium-profile-lock.ts:105-117 | Unlinking without looking is safe, because the releaser is the only live holder |
| ProfileLock.OwnerOfLockText | apps/mcp-server/src/headless/chromium-profile-lock.ts:100-134 | The pid written is the pid read back, for every positive pid |
| ProfileLock.OwnerOfFirstWord | apps/mcp-server/src/headless/chromium-profile-lock.ts:133-135 | Blanks around the pid and whatever follows them do not matter |
| ProfileLock.LockFile.TryCreate | apps/mcp-server/src/headless/chromium-profile-lock.ts:97-119 | Acquires if and only if there is no file and open and write succeed; a failed write leaves its file behind and throws |
| ProfileLock.LockFile.ReclaimStale | apps/mcp-server/src/headless/chromium-profile-lock.ts:128-147 | Unlinks, and says so, if and only if the file is stale and reading and unlinking it work |
| ProfileLock.LockFile.Unlink | apps/mcp-server/src/headless/chromium-profile-lock.ts:105-117 | There is no file afterwards |
| ProfileLock.Preparation.UnderLock | apps/mcp-server/src/headless/chromium-profile-lock.ts:43-64 | Two idle checks, removal, one last look: ready, or the lock is released by the failing step |
| ProfileLock.Preparation.AssertIdle | apps/mcp-server/src/headless/chromium-profile-lock.ts:67-81 | One check as `ChecksDecide` pins it: goes on only if the profile has no owner and Chromium's own lock names no live process of this host |
| ProfileLock.Preparation.Release | apps/mcp-server/src/headless/chromium-profile-lock.ts:105-117 | The attempt is over and the file is gone |
| ProfileLock.Preparation.RemoveSingletonFiles | apps/mcp-server/src/headless/chromium-profile-lock.ts:47-64 | A failed removal releases the lock |
| ProfileLock.Preparation.LookAgain | apps/mcp-server/src/headless/chromium-profile-lock.ts:48-60 | An owner that appeared meanwhile releases the lock |
| ProfileLock.Preparation.CheckTwice | apps/mcp-server/src/headless/chromium-profile-lock.ts:44-46 | Both idle checks must succeed |
| ProfileLock.Preparation.CleanUp | apps/mcp-server/src/headless/chromium-profile-lock.ts:47-64 | Removal and last look: ready, or released |
| LockRace.TakeoverSharesTheLockIff | apps/mcp-server/src/headless/chromium-profile-lock.ts:96-147 | System call by system call: a reader that is about to unlink can end up holding the lock beside another contender if and only if the file it is about to unlink has a live owner |
| LockRace.GuardedRunsAreExclusive | apps/mcp-server/src/headless/chromium-profile-lock.ts:96-147 | Every run, however its calls interleave, in which no reader unlinks a file that has an owner keeps the lock exclusive |
| LockRace.UninterruptedRunsAreExclusive | apps/mcp-server/src/headless/chromium-profile-lock.ts:96-147 | When no contender is interrupted between opening and writing, or between reading and unlinking, as inside one Node process, the lock is exclusive |
| LockRace.OwnerIsCondemnedIff | apps/mcp-server/src/headless/chromium-profile-lock.ts:98-143 | A reader finds an owner's file stale if and only if it reads between the owner's opening and writing it |
| LockRace.ReadingAnEmptyFileSharesTheLock | apps/mcp-server/src/headless/chromium-profile-lock.ts:98-137 | Counterexample: a reachable state in which two processes hold the lock, after one read the other's empty file |
| LockRace.UnlinkingLateSharesTheLock | apps/mcp-server/src/headless/chromium-profile-lock.ts:133-142 | Counterexample: the same after a late unlink of a file that had replaced the stale one |
| LockRace.ReclaimIsGuarded | apps/mcp-server/src/headless/chromium-profile-lock.ts:128-147 | Where nobody is in the middle of a creation, a reclaim meets the guard |
| LockRace.CreationDecides | apps/mcp-server/src/headless/chromium-profile-lock.ts:97-104 | Creating opens a new empty file or finds one in the way; writing reaches the file that was opened, and no other that took its path meanwhile |
| LockRace.ReclaimDecides | apps/mcp-server/src/headless/chromium-profile-lock.ts:128-147 | A reader goes on to unlink if and only if the file it reads names no live process; unlinking and releasing take whatever file then has the path |
| BridgeClient.OneStartIsSafe | apps/foundry-module/src/bridge/bridge-client.ts:25-60 | From one start on, through any restarts, stops, timer fires and close events however delivered: never a current socket and a live timer together, every other socket has been closed, nothing is left after a stop, and a client always able to connect keeps trying |
| BridgeClient.SecondStartIsSafeIff | apps/foundry-module/src/bridge/bridge-client.ts:25-28 | The exact condition under which a further start keeps that |
| BridgeClient.SecondStartLeavesALiveSocket | apps/foundry-module/src/bridge/bridge-client.ts:25-60 | Counterexample: two starts in a row leave two live sockets, of which the client knows one |
| BridgeClient.LateCloseIsInvisible | apps/foundry-module/src/bridge/bridge-client.ts:106-116 | The late close event of a replaced socket, which the client had closed, changes nothing in its future: whatever follows, the same sockets are made and the same timers armed as without it |
| BridgeClient.StoppedStaysQuiet | apps/foundry-module/src/bridge/bridge-client.ts:30-37 | After a stop, no socket is created and no timer armed until a restart, whatever else happens |
| BridgeClient.LostSocketIsReplaced | apps/foundry-module/src/bridge/bridge-client.ts:106-116 | Whenever a running client loses its current socket, exactly one timer is armed, and that timer brings it a new current socket |
| BridgeClient.CloseEventDecides | apps/foundry-module/src/bridge/bridge-client.ts:106-116 | Only the first close event of the current socket schedules a retry, and only when not stopped |
| BridgeClient.CloseDecides | apps/foundry-module/src/bridge/bridge-client.ts:22 | A socket being closed stays current until its close event, which may come at once and then schedules the retry |
| BridgeClient.RetryDecides | apps/foundry-module/src/bridge/bridge-client.ts:46-60 | An armed timer makes exactly one new socket, the current one, if and only if the client may connect |
| BridgeClient.StopAndRestartDecide | apps/foundry-module/src/bridge/bridge-client.ts:30-44 | A stop closes the current socket and disarms the retry; a restart then makes one new socket if it may |
| BridgeClient.DelayIsBounded | apps/foundry-module/src/bridge/reconnect.ts:9-12 | Every delay lies between 800 and 36000 ms, for any attempt count and any random draw |
| BridgeClient.BaseDoublesThenStays | apps/foundry-module/src/bridge/reconnect.ts:10 | The base delay is 1000 ms, doubles up to the fifth attempt and is 30000 ms from the sixth on |
| BridgeClient.DelayIsSpread | apps/foundry-module/src/bridge/reconnect.ts:9-12 | The delay is the base delay spread evenly by a fifth to either side, rounded to the nearest millisecond |
| BridgeClient.ReconnectBackoff.Next | apps/foundry-module/src/bridge/reconnect.ts:9-12 | Counts the attempt and answers a delay within the bounds |
| BridgeClient.ReconnectBackoff.Reset | apps/foundry-module/src/bridge/reconnect.ts:14-16 | Counts from zero again |
| BridgeClient.Client.Start | apps/foundry-module/src/bridge/bridge-client.ts:25-28 | Clears `stopped` and connects |
| BridgeClient.Client.Connect | apps/foundry-module/src/bridge/bridge-client.ts:46-60 | Replaces the current socket without closing it, unless stopped or unable |
| BridgeClient.Client.Stop | apps/foundry-module/src/bridge/bridge-client.ts:30-37 | Disarms the timer before it closes the socket, so that a close event delivered at once schedules nothing |
| BridgeClient.Client.Restart | apps/foundry-module/src/bridge/bridge-client.ts:40-44 | A stop and a start, with the backoff counting from zero |
| BridgeClient.Client.Close | apps/foundry-module/src/bridge/bridge-client.ts:22 | Closing the current socket, its close event delivered at once or later |
| BridgeClient.Client.OnClose | apps/foundry-module/src/bridge/bridge-client.ts:106-116 | Schedules a retry, within the delay bounds, if and only if the socket was current and the client is not stopped |
| Supervisor.EveryRunIsSafe | apps/mcp-server/src/headless/headless-supervisor.ts:27-100 | Through any interleaving of loop and `stop`: one browser at most, "connected" only in a round that saw an active session, and a stopped loop found sleeping has had its sleep aborted |
| Supervisor.CreatesOnlyAfterClosing | apps/mcp-server/src/headless/headless-supervisor.ts:48-74 | A browser is created only when not stopped and every earlier one has been closed |
| Supervisor.StoppedLoopExits | apps/mcp-server/src/headless/headless-supervisor.ts:34-100 | Once `stopped` is set the loop never sleeps again, never creates a browser, and exits with all browsers closed after at most four more awaits |
| Supervisor.FourReturnsAreEnough | apps/mcp-server/src/headless/headless-supervisor.ts:34-83 | In particular, after any four returns from an await it has exited with all browsers closed, having made none and begun no sleep, whatever happened in between |
| Supervisor.StoppedStepWindsDown | apps/mcp-server/src/headless/headless-supervisor.ts:48-83 | The measure behind it: each await that a stopped loop returns from brings it strictly closer to its exit |
| Supervisor.ActiveSessionKeepsBrowser | apps/mcp-server/src/headless/headless-supervisor.ts:60 | However often the loop looks, a connected supervisor keeps its one browser while the session stays active |
| Supervisor.WatchingDecides | apps/mcp-server/src/headless/headless-supervisor.ts:60-66 | An active session means one more sleep, a lost one means to close the browser and to retry |
| Supervisor.WaitingDecides | apps/mcp-server/src/headless/headless-supervisor.ts:76-83 | The wait ends well if and only if a session is active before the deadline, badly if and only if the deadline has passed, and sleeps otherwise |
| Supervisor.ResultsDecide | apps/mcp-server/src/headless/headless-supervisor.ts:53-66 | A bridge that is up means "connected"; a failed preparation or a missed deadline means "retrying" and closing the same browser |
| Supervisor.ClosingDecides | apps/mcp-server/src/headless/headless-supervisor.ts:67-73 | After the `finally` block no browser is left and the loop sleeps; the next round makes exactly one new browser, or retries |
| Supervisor.StoppedDecides | apps/mcp-server/src/headless/headless-supervisor.ts:48-83 | From each `await` a stopped loop goes to its exit, through the `finally` block where there is one, with its browser closed |
| Supervisor.StartAndStopDecide | apps/mcp-server/src/headless/headless-supervisor.ts:27-42 | A start enters an idle loop only; a stop aborts the sleep, closes the browser it found, awaits the loop and leaves the supervisor as new |
| Supervisor.HeadlessFoundrySupervisor.Start | apps/mcp-server/src/headless/headless-supervisor.ts:27-32 | Enters the loop unless it runs |
| Supervisor.HeadlessFoundrySupervisor.Stop | apps/mcp-server/src/headless/headless-supervisor.ts:34-38 | Sets `stopped`, aborts a sleep in progress and begins to close the browser |
| Supervisor.HeadlessFoundrySupervisor.StopAfterClose | apps/mcp-server/src/headless/headless-supervisor.ts:38-39 | That browser is closed, and `stop` awaits the loop |
| Supervisor.HeadlessFoundrySupervisor.StopAfterLoop | apps/mcp-server/src/headless/headless-supervisor.ts:39-41 | The supervisor can be started again |
| Supervisor.HeadlessFoundrySupervisor.Continue | apps/mcp-server/src/headless/headless-supervisor.ts:48-74 | From each `await` the loop goes on as the transition system says, whatever the awaited call did |
| Supervisor.HeadlessFoundrySupervisor.BeginRound | apps/mcp-server/src/headless/headless-supervisor.ts:49-53 | Exits when stopped; otherwise a new browser, or the failure to make one |
| Supervisor.HeadlessFoundrySupervisor.WaitForBridge | apps/mcp-server/src/headless/headless-supervisor.ts:76-83 | Leaves on stop, on the deadline or on an active session, else sleeps |
| Supervisor.HeadlessFoundrySupervisor.Watch | apps/mcp-server/src/headless/headless-supervisor.ts:60-61 | Sleeps while a session is active and fails when it is lost |
| Supervisor.HeadlessFoundrySupervisor.Catch | apps/mcp-server/src/headless/headless-supervisor.ts:62-66 | Leaves the loop when stopped, else retries; both through the `finally` block |
| Supervisor.HeadlessFoundrySupervisor.BeginSleep | apps/mcp-server/src/headless/headless-supervisor.ts:85-99 | A sleep begins with a fresh abort signal |
| Heartbeat.SilentServerIsDisconnected | apps/foundry-module/src/bridge/heartbeat.ts:12-26 | In every run with an exact timer, whatever happened before: once the server falls silent the ticks ping while the silence is no longer than `timeoutMs` and disconnect from then on, and some tick has disconnected no later than `timeoutMs + intervalMs` after the last activity |
| Heartbeat.TickDisconnectsIffSilent | apps/foundry-module/src/bridge/heartbeat.ts:12-31 | Over every run of starts, stops, messages and ticks: a tick disconnects if and only if the last start or message lies more than `timeoutMs` back |
| Heartbeat.TicksAreRegular | apps/foundry-module/src/bridge/heartbeat.ts:12-22 | With an exact timer, tick k after a start comes k + 1 intervals after it, whatever is heard in between |
| Heartbeat.StoppedNeverTicks | apps/foundry-module/src/bridge/heartbeat.ts:28-31 | After a stop no tick can come before the next start |
| Heartbeat.StartArms | apps/foundry-module/src/bridge/heartbeat.ts:12-14 | A start counts ticks and silence from now, whether or not the timer ran |
| Heartbeat.PunctualClientIsNotEvicted | apps/mcp-server/src/bridge/session-registry.ts:30-39 | On the whole server, in runs of any events on any sockets: while each ping of a session's client arrives within the timeout less the interval, every `getActive` and every routed request that comes while its socket is open finds this session and changes nothing in the registry |
| Heartbeat.PunctualFromRegistration | apps/mcp-server/src/bridge/websocket-server.ts:104-119 | In particular from the registration on, after any run |
| Heartbeat.StepKeeps | apps/mcp-server/src/bridge/websocket-server.ts:80-140 | No event moves a session to another socket or reopens its socket, and only its own messages date it |
| Heartbeat.PingDates | apps/mcp-server/src/bridge/websocket-server.ts:114-119 | A ping of a session with an open socket dates it |
| Heartbeat.ClientHeartbeat.Start | apps/foundry-module/src/bridge/heartbeat.ts:12-14 | Ticks count from now, and so does the silence |
| Heartbeat.ClientHeartbeat.Touch | apps/foundry-module/src/bridge/heartbeat.ts:24-26 | Ends the silence |
| Heartbeat.ClientHeartbeat.OnInterval | apps/foundry-module/src/bridge/heartbeat.ts:15-21 | Pings, or disconnects after more than `timeoutMs` of silence; the next tick is due one interval later |
| Heartbeat.ClientHeartbeat.Stop | apps/foundry-module/src/bridge/heartbeat.ts:28-31 | No tick is due any more |
| Paging.PagesPartitionTheList | apps/foundry-module/src/operations/search-documents.ts:31-40 | Over an unchanged collection and for any limit, following `nextCursor` ends after max(1, ceil(total / limit)) pages, all but the last full, whose concatenation is the whole filtered list in order |
| Paging.FollowReadsPagesFrom | apps/foundry-module/src/operations/search-documents.ts:31-40 | For any search whose cursors keep the promise below, a client of opaque cursors reads what a client of plain offsets would |
| Paging.SearchServes | apps/foundry-module/src/operations/search-documents.ts:31-40 | Every cursor that decodes to an offset gets the items from there, at most one page, and the next cursor decodes to the offset after them, or is missing at the end |
| Paging.BadCursorsAreRefused | apps/foundry-module/src/operations/search-documents.ts:52-62 | A cursor that is no text, no base64 or no number is refused, and so is any number but a safe natural; a numeral of one is read as its value |
| Paging.PagesFromPartition | apps/foundry-module/src/operations/search-documents.ts:31-40 | From any offset on, plain-offset pages partition the rest of the list |
| Paging.CursorRoundTrip | apps/foundry-module/src/operations/search-documents.ts:48-62 | Decoding an encoded offset gives it back for every safe integer, and refuses every greater one |
| Paging.SearchCompendiums | apps/foundry-module/src/operations/compendium-import.ts:5-29 | A page of all hits, or the invalid-cursor error |
| Paging.CollectHits | apps/foundry-module/src/operations/compendium-import.ts:13-23 | The loops over packs and entries collect the hits that the lemmas speak about |
| Paging.CollectFromPack | apps/foundry-module/src/operations/compendium-import.ts:15-22 | So does the inner one for one pack |
| Paging.DocumentPagesAreTheMatches | apps/foundry-module/src/operations/search-documents.ts:24-40 | A client that follows the cursors of a document search reads every matching entry once, in order, and no other |
| Paging.FilterMeaning | apps/foundry-module/src/operations/search-documents.ts:24-30 | The entries kept are exactly those that match |
| Paging.FilterDistributes | apps/foundry-module/src/operations/search-documents.ts:24-30 | Filtering keeps the order of the entries |
| Paging.HitsMeaning | apps/foundry-module/src/operations/compendium-import.ts:13-23 | The hits are exactly the matching entries of the wanted packs |
| Paging.PackHitsMeaning | apps/foundry-module/src/operations/compendium-import.ts:15-22 | Within one pack too, entry by entry |
| Paging.Clamp | apps/foundry-module/src/operations/search-documents.ts:8 | A page holds between 1 and 100 results, and as many as asked for when that is in range |
| Base64.AtobBtoa | apps/foundry-module/src/operations/search-documents.ts:48-56 | Every Latin-1 text survives base64 (section 4 of RFC 4648) and its forgiving decoder |
| Base64.BytesOfSextets | apps/foundry-module/src/operations/search-documents.ts:48-56 | Every byte sequence survives regrouping into sextets, whatever its length modulo three |
| Base64.TestVectors | apps/foundry-module/src/operations/search-documents.ts:48-56 | The encoder answers the test vectors of section 10 of RFC 4648 |
| Base64.AtobRefusesOtherText | apps/foundry-module/src/operations/search-documents.ts:52-56 | A character that is neither blank, padding nor of the alphabet makes the text no base64 |
| Base64.AtobIgnoresBlanks | apps/foundry-module/src/operations/search-documents.ts:52-56 | Blanks anywhere in a cursor do not matter to its decoding |
| Text.ValueOfDecimal | apps/foundry-module/src/operations/search-documents.ts:49 | A natural number survives printing and reading |
| Text.DecimalIsPositional | apps/foundry-module/src/operations/search-documents.ts:49 | Numerals have the most significant digit first |
| Text.ContainsMeaning | apps/foundry-module/src/integrations/plutonium/normalize-result.ts:58-66 | `includes` finds exactly the words that stand somewhere in the text |

## Left out

- HTTP, Express, MCP SDK and WebSocket upgrade wiring, the audit log, logging, Zod shapes, configuration, version tables: plumbing around the protocol steps.
- Foundry, Plutonium and Playwright calls: oracles (the world of documents, the probe of a profile, the outcome of an awaited call).
- `importCompendium`, the other create, update and embedded operations, `pickPaths`, `summarizeTarget`, `CapabilityCache.get` and `has`: they pass values on, and no state or decision modelled here depends on them.
- Timing-safe comparison, random generation, the hexadecimal spelling of digests.
- `/proc` scanning and reuse of process ids: an owner list and a set of live processes.
- Getters, extra properties on arrays and holes in them: arrays are their entries.
- The audit entries that a dispatch writes, and which error its promise carries: a promise is answered or rejects.
- Fractional or missing limits (`NaN`), which the input schemas rule out; the `RateLimit-Reset` header's rounding to seconds.
- RateLimiter.WindowsAreExact: requires a window of at least one millisecond; with an empty window every bucket is expired at birth (the server uses 60 seconds).
- BridgeServer.Server.Dispatch: the part up to the sending of the request; what follows the awaited answer is `PendingRequests`, and the rejection of the promise is an event of `RoutedBridge`.
- RequestRouter.Router.Route: the payload check is a boolean input here; `SafeJson` proves what it checks.
- RequestRouter.Router.StartDispatch: records that and when `dispatch` was called; what it does is `BridgeServer.Server.Dispatch`, and `RoutedBridge` puts the two together.
- Deletion.PrepareDelete: targets are uuids, without the other fields of a document reference.
- Receipts.NormalizePlutoniumResult: status and the three lists, as uuids; operation id, provider and its version, and the empty warnings of a receipt are constants copied into it.
- ProfileLock.EveryRunIsExclusive: rests on creation and reclaim being single steps; without that it is false between processes, and `LockRace` gives the runs and the exact condition.
- ProfileLock.OnlyTheHolderRemoves: rests on the same assumption.
- ProfileLock.ReclaimTakesOnlyStaleFiles: rests on the same assumption.
- ProfileLock.Preparation.UnderLock: runs the steps of one attempt without interruption; interleavings are covered by the transition system, of which it takes these steps. The retry loop of `acquireExclusiveFileLock` is there as steps (create, reclaim, time out), not as one method, because its length depends on the clock.
- ProfileLock.ReleaseKeepsInv: a release whose unlink fails, which the code ignores, and a second call of `release` are not modelled.
- LockRace.GuardedRunsAreExclusive: an open or a read that fails outright, and giving up at the deadline, change neither file nor owner and are not steps of this model.
- Supervisor.HeadlessFoundrySupervisor.Start: a `start` while a `stop` is in progress is ignored, which the code does too unless the supervisor was idle when `stop` was called; the disabled supervisor, whose methods do nothing, is left out.
- Supervisor.HeadlessFoundrySupervisor.Stop: a second `stop` while one is in progress is ignored; in the code it closes the browser and awaits the loop once more.
- BridgeClient.Client.Connect: whether the user is a GM and the settings allow the address is one boolean; the address check itself is left out.
- BridgeClient.LostSocketIsReplaced: that `auth.accepted` makes the backoff count from zero again (apps/foundry-module/src/bridge/bridge-client.ts:76-78) is not an event of this model, which has no messages; the delays are those of `ReconnectBackoff`.
- Heartbeat.SilentServerIsDisconnected: assumes a timer that fires exactly when due.
- Paging.DocumentPagesAreTheMatches: entries are a name and a folder id; the errors for a missing pack or collection and the mapping of entries to document references are not modelled.
