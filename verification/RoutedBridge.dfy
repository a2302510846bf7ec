// Router and server together: what the idempotency cache means for the requests that reach a browser.
module RoutedBridge {
  import opened Common
  import opened SessionRegistry
  import B = BridgeServer
  import Laws = BridgeLaws
  import P = PendingRequests
  import R = RequestRouter

  /** `dispatchOf[k]` is the dispatch that wrote delivery `k`; delivery `k` is guarded by wait `k`. */
  datatype State = State(server: B.State, router: R.State, dispatchOf: seq<nat>)

  const INITIAL := State(B.INITIAL, R.INITIAL, [])

  /** A call of `route`. Its clock is read to prune, in `dispatch`, and to date a new cache entry. */
  datatype Call = Call(operation: string, idempotencyKey: string, safe: bool, requestId: string, timeoutMs: nat,
                       valid: bool, pruneNow: int, at: int, now: int)

  datatype Event =
    | Calls(call: Call)
    | Rejects(promise: nat, now: int)
    | CatchRuns(promise: nat, now: int)
    | Serves(event: B.Event)

  function Called(config: B.Config, s: State, c: Call): State {
    var router := R.Routed(s.router, c.operation, c.idempotencyKey, c.safe, c.pruneNow, c.now).0;
    if |router.dispatches| == |s.router.dispatches| then s.(router := router) else
      var server := B.Routed(config, s.server, c.requestId, c.timeoutMs, c.valid, c.at);
      var sent := |server.deliveries| > |s.server.deliveries|;
      State(server, router, if sent then s.dispatchOf + [|s.router.dispatches|] else s.dispatchOf)
  }

  /** The promise of a request that was sent rejects only after its wait was settled; any other may reject at any
      time. */
  predicate MayReject(s: State, promise: nat) {
    forall k: nat | k < |s.dispatchOf| && s.dispatchOf[k] == promise :: k in s.server.pending.outcomes
  }

  function Step(config: B.Config, s: State, e: Event): State {
    match e
    case Calls(call) => Called(config, s, call)
    case Rejects(promise, now) =>
      if MayReject(s, promise) then s.(router := R.Step(s.router, R.Timed(R.PromiseRejects(promise), now))) else s
    case CatchRuns(promise, now) => s.(router := R.Step(s.router, R.Timed(R.CatchRuns(promise), now)))
    case Serves(event) => if event.Routes? then s else s.(server := B.Step(config, s.server, event))
  }

  function Run(config: B.Config, s: State, events: seq<Event>): State
    decreases |events|
  {
    if events == [] then s else Run(config, Step(config, s, events[0]), events[1..])
  }

  // ---- The classes together ----

  class Bridge {
    const server: B.Server
    const router: R.Router
    var dispatchOf: seq<nat>

    ghost function View(): State
      reads this, router, server, server.sessions, server.sessions.wire, server.capabilities, server.pending
    {
      State(server.View(), router.View(), dispatchOf)
    }

    constructor (config: B.Config)
      ensures View() == INITIAL && server.Valid() && server.config == config
      ensures fresh(server) && fresh(router)
    {
      server := new B.Server(config);
      router := new R.Router();
      dispatchOf := [];
    }

    method Route(c: Call) returns (promise: Option<nat>)
      requires server.Valid()
      modifies this, router, server, server.wire, server.sessions, server.pending
      ensures server.Valid() && View() == Called(server.config, old(View()), c)
    {
      var next := |router.dispatches|;
      promise := router.Route(c.operation, c.idempotencyKey, c.safe, c.pruneNow, c.now);
      if |router.dispatches| > next {
        var sent := server.Dispatch(c.requestId, c.timeoutMs, c.valid, c.at);
        if sent {
          dispatchOf := dispatchOf + [next];
        }
      }
    }
  }

  // ---- Invariant ----

  /** Deliveries, waits and dispatches correspond, and only settled requests were rejected. */
  ghost predicate Linked(s: State) {
    && |s.dispatchOf| == |s.server.deliveries| == |s.server.pending.waits|
    && (forall k :: 0 <= k < |s.dispatchOf| ==> s.dispatchOf[k] < |s.router.dispatches|)
    && (forall k, l :: 0 <= k < l < |s.dispatchOf| ==> s.dispatchOf[k] < s.dispatchOf[l])
    && (forall k :: 0 <= k < |s.dispatchOf| ==> s.server.deliveries[k].requestId == s.server.pending.waits[k].requestId)
    && (forall k: nat | k < |s.dispatchOf| && s.dispatchOf[k] in s.router.rejected :: k in s.server.pending.outcomes)
  }

  ghost predicate Inv(s: State, clock: int) {
    R.Inv(s.router, clock) && R.OnlyPastRejected(s.router) && Linked(s)
  }

  lemma SettledStaysSettled(p: P.State, e: P.Event)
    ensures p.outcomes.Keys <= P.Step(p, e).outcomes.Keys
    ensures !e.WaitCalled? ==> P.Step(p, e).waits == p.waits
  {
  }

  /** What the server does between calls settles requests, and neither sends any nor forgets how one was settled. */
  lemma ServingSendsNothing(config: B.Config, server: B.State, e: B.Event)
    requires !e.Routes?
    ensures var server' := B.Step(config, server, e);
            && server'.deliveries == server.deliveries && server'.pending.waits == server.pending.waits
            && server.pending.outcomes.Keys <= server'.pending.outcomes.Keys
  {
    B.PendingFollowsEvents(config, server, e);
    var event := B.PendingEvent(config, server, e);
    if event.Some? {
      SettledStaysSettled(server.pending, event.value);
    }
  }

  lemma ServerOnlyKeepsLinks(s: State, server: B.State)
    requires Linked(s) && server.deliveries == s.server.deliveries && server.pending.waits == s.server.pending.waits
    requires s.server.pending.outcomes.Keys <= server.pending.outcomes.Keys
    ensures Linked(s.(server := server))
  {
    forall k: nat | k < |s.dispatchOf| && s.dispatchOf[k] in s.router.rejected ensures k in server.pending.outcomes {
      assert k in s.server.pending.outcomes.Keys;
    }
  }

  lemma RouterOnlyKeepsLinks(s: State, router: R.State)
    requires Linked(s) && |s.router.dispatches| <= |router.dispatches|
    requires forall p <- router.rejected :: p in s.router.rejected || MayReject(s, p)
    ensures Linked(s.(router := router))
  {
  }

  /** A dispatch that reaches a browser adds one delivery and one wait for the same request. */
  lemma RoutedSends(config: B.Config, server: B.State, c: Call)
    ensures var server' := B.Routed(config, server, c.requestId, c.timeoutMs, c.valid, c.at);
            && server'.pending.outcomes == server.pending.outcomes
            && if |server'.deliveries| == |server.deliveries|
               then server'.deliveries == server.deliveries && server'.pending == server.pending
               else && |server'.deliveries| == |server.deliveries| + 1 && server.deliveries <= server'.deliveries
                    && server'.deliveries[|server.deliveries|].requestId == c.requestId
                    && server'.pending.waits == server.pending.waits + [P.Wait(c.requestId, c.at + c.timeoutMs)]
  {
  }

  lemma SendingKeepsLinks(config: B.Config, s: State, c: Call)
    requires Linked(s) && R.OnlyPastRejected(s.router)
    ensures Linked(Called(config, s, c))
  {
    var router := R.Routed(s.router, c.operation, c.idempotencyKey, c.safe, c.pruneNow, c.now).0;
    RouterOnlyKeepsLinks(s, router);
    RoutedSends(config, s.server, c);
  }

  // ---- Runs ----

  /** The clock of the router does not run backwards, and its rejection callbacks meet their guard. */
  ghost predicate Guarded(s: State, clock: int, e: Event) {
    match e
    case Calls(c) => c.operation in R.OPERATIONS && clock <= c.pruneNow <= c.at <= c.now
    case Rejects(_, now) => clock <= now
    case CatchRuns(promise, now) =>
      clock <= now && (R.AwaitsCatch(s.router, promise) ==> R.Harmless(s.router, promise, now))
    case Serves(_) => true
  }

  function ClockAfter(clock: int, e: Event): int {
    match e
    case Calls(c) => c.now
    case Rejects(_, now) => now
    case CatchRuns(_, now) => now
    case Serves(_) => clock
  }

  ghost predicate GuardedRun(config: B.Config, s: State, clock: int, events: seq<Event>)
    decreases |events|
  {
    events == [] ||
    (&& Guarded(s, clock, events[0])
     && GuardedRun(config, Step(config, s, events[0]), ClockAfter(clock, events[0]), events[1..]))
  }

  lemma StepKeepsRouter(config: B.Config, s: State, clock: int, e: Event)
    requires R.Inv(s.router, clock) && R.OnlyPastRejected(s.router) && Guarded(s, clock, e)
    ensures R.Inv(Step(config, s, e).router, ClockAfter(clock, e)) && R.OnlyPastRejected(Step(config, s, e).router)
  {
    match e
    case Calls(c) => R.RouteKeepsInv(s.router, clock, c.operation, c.idempotencyKey, c.safe, c.pruneNow, c.now);
    case Rejects(promise, now) =>
      R.StepKeepsInv(s.router, clock, R.Timed(R.PromiseRejects(promise), now));
      R.WaitingKeepsInv(s.router, clock, now, s.router.rejected);
    case CatchRuns(promise, now) => R.StepKeepsInv(s.router, clock, R.Timed(R.CatchRuns(promise), now));
    case Serves(event) =>
  }

  lemma StepKeepsLinks(config: B.Config, s: State, e: Event)
    requires Linked(s) && R.OnlyPastRejected(s.router)
    ensures Linked(Step(config, s, e))
  {
    match e
    case Calls(c) => SendingKeepsLinks(config, s, c);
    case Rejects(promise, now) =>
      if MayReject(s, promise) {
        RouterOnlyKeepsLinks(s, R.Step(s.router, R.Timed(R.PromiseRejects(promise), now)));
      }
    case CatchRuns(promise, now) => RouterOnlyKeepsLinks(s, R.Step(s.router, R.Timed(R.CatchRuns(promise), now)));
    case Serves(event) =>
      if !event.Routes? {
        ServingSendsNothing(config, s.server, event);
        ServerOnlyKeepsLinks(s, B.Step(config, s.server, event));
      }
  }

  lemma {:induction false} RunKeepsInv(config: B.Config, s: State, clock: int, events: seq<Event>) returns (end: int)
    requires Inv(s, clock) && GuardedRun(config, s, clock, events)
    ensures Inv(Run(config, s, events), end)
    decreases |events|
  {
    if events == [] {
      return clock;
    }
    StepKeepsRouter(config, s, clock, events[0]);
    StepKeepsLinks(config, s, events[0]);
    end := RunKeepsInv(config, Step(config, s, events[0]), ClockAfter(clock, events[0]), events[1..]);
  }

  /** Deliveries `k` and `l`, in this order, went out for one operation and one key. */
  ghost predicate SentTwice(s: State, k: nat, l: nat) {
    && k < l < |s.dispatchOf| && s.dispatchOf[k] < |s.router.dispatches| && s.dispatchOf[l] < |s.router.dispatches|
    && R.SamePair(s.router.dispatches[s.dispatchOf[k]], s.router.dispatches[s.dispatchOf[l]])
  }

  /** The time of the dispatch behind a delivery. */
  function SentAt(s: State, k: nat): int {
    if k < |s.dispatchOf| && s.dispatchOf[k] < |s.router.dispatches| then s.router.dispatches[s.dispatchOf[k]].at else 0
  }

  lemma LinkedDispatchesOnce(s: State, clock: int, k: nat, l: nat)
    requires Inv(s, clock) && SentTwice(s, k, l)
    ensures (s.dispatchOf[k] in s.router.rejected && k in s.server.pending.outcomes)
            || SentAt(s, k) + R.TTL_MS <= SentAt(s, l)
  {
    assert s.dispatchOf[k] < s.dispatchOf[l];
  }

  /** Over every run of calls, rejections, callbacks and everything that may happen on the server: calls with one key
      write a second request to a browser only if the first was settled and its promise rejected, or fifteen minutes
      passed. */
  lemma SentOnceForOneKey(config: B.Config, clock: int, events: seq<Event>, k: nat, l: nat)
    requires GuardedRun(config, INITIAL, clock, events) && SentTwice(Run(config, INITIAL, events), k, l)
    ensures var s := Run(config, INITIAL, events);
            (s.dispatchOf[k] in s.router.rejected && k in s.server.pending.outcomes)
              || SentAt(s, k) + R.TTL_MS <= SentAt(s, l)
  {
    var end := RunKeepsInv(config, INITIAL, clock, events);
    LinkedDispatchesOnce(Run(config, INITIAL, events), end, k, l);
  }

  // ---- In flight together ----

  /** No request was given more than `longest` to be answered. */
  ghost predicate Within(s: State, longest: nat) {
    && |s.dispatchOf| == |s.server.pending.waits|
    && forall k: nat | k < |s.dispatchOf| ::
         s.dispatchOf[k] < |s.router.dispatches| && s.server.pending.waits[k].deadline <= SentAt(s, k) + longest
  }

  lemma StepStaysWithin(config: B.Config, s: State, longest: nat, e: Event)
    requires Within(s, longest) && Linked(s) && (e.Calls? ==> e.call.timeoutMs <= longest && e.call.at <= e.call.now)
    ensures Within(Step(config, s, e), longest)
  {
    var s' := Step(config, s, e);
    if e.Calls? {
      RoutedSends(config, s.server, e.call);
    } else if e.Serves? && !e.event.Routes? {
      ServingSendsNothing(config, s.server, e.event);
    }
    assert s.router.dispatches <= s'.router.dispatches;
  }

  lemma {:induction false} RunStaysWithin(config: B.Config, s: State, clock: int, longest: nat, events: seq<Event>)
    requires Inv(s, clock) && Within(s, longest) && GuardedRun(config, s, clock, events)
    requires forall e <- events :: e.Calls? ==> e.call.timeoutMs <= longest
    ensures Within(Run(config, s, events), longest)
    decreases |events|
  {
    if events != [] {
      assert events[0] in events;
      StepKeepsRouter(config, s, clock, events[0]);
      StepKeepsLinks(config, s, events[0]);
      StepStaysWithin(config, s, longest, events[0]);
      RunStaysWithin(config, Step(config, s, events[0]), ClockAfter(clock, events[0]), longest, events[1..]);
    }
  }

  /** With timeouts of at most fifteen minutes, a second request for one operation and key goes out only when the
      first was settled or overdue: as long as due timers fire, the two are never in flight together. */
  lemma NeverInFlightTogether(config: B.Config, clock: int, longest: nat, events: seq<Event>, k: nat, l: nat)
    requires GuardedRun(config, INITIAL, clock, events) && SentTwice(Run(config, INITIAL, events), k, l)
    requires longest <= R.TTL_MS && forall e <- events :: e.Calls? ==> e.call.timeoutMs <= longest
    ensures var s := Run(config, INITIAL, events);
            k in s.server.pending.outcomes
              || (k < |s.server.pending.waits| && s.server.pending.waits[k].deadline <= SentAt(s, l))
  {
    SentOnceForOneKey(config, clock, events, k, l);
    RunStaysWithin(config, INITIAL, clock, longest, events);
  }

  // ---- Calls that must be sent ----

  /** The call reaches the browser of the current session: one dispatch, one delivery, one wait. */
  ghost predicate IsSent(s: State, s': State, c: Call) {
    && s'.router.dispatches == s.router.dispatches + [R.Dispatch(c.operation, c.idempotencyKey, c.now)]
    && s.server.registry.current.Some? && s.server.registry.current.value < |s.server.registry.sessions|
    && s'.server.deliveries == s.server.deliveries
         + [B.Delivery(s.server.registry.sessions[s.server.registry.current.value].socket,
                       s.server.registry.current.value, c.requestId)]
    && s'.dispatchOf == s.dispatchOf + [|s.router.dispatches|]
    && s'.server.pending.waits == s.server.pending.waits + [P.Wait(c.requestId, c.at + c.timeoutMs)]
  }

  ghost predicate CanBeSent(config: B.Config, s: State, c: Call) {
    c.safe && c.valid && c.requestId !in s.server.pending.requests && Laws.IsLive(config, s.server, c.at)
  }

  lemma DispatchIsSent(config: B.Config, s: State, c: Call)
    requires B.Inv(config, s.server) && CanBeSent(config, s, c)
    requires R.Routed(s.router, c.operation, c.idempotencyKey, c.safe, c.pruneNow, c.now).0.dispatches
          == s.router.dispatches + [R.Dispatch(c.operation, c.idempotencyKey, c.now)]
    ensures IsSent(s, Called(config, s, c), c)
  {
    Laws.DispatchDecides(config, s.server, c.requestId, c.timeoutMs, c.valid, c.at);
  }

  /** A safe call without a key is sent whenever a live session can take it. */
  lemma KeylessIsSent(config: B.Config, s: State, c: Call)
    requires B.Inv(config, s.server) && c.idempotencyKey == "" && CanBeSent(config, s, c)
    ensures IsSent(s, Called(config, s, c), c)
  {
    R.KeylessIsDispatched(s.router, c.operation, c.pruneNow, c.now);
    DispatchIsSent(config, s, c);
  }

  /** No dispatch made before shields the call's operation and key. */
  ghost predicate Unshielded(s: State, c: Call) {
    forall i: nat | i < |s.router.dispatches| && R.Shields(s.router, i, c.pruneNow) ::
      !R.SamePair(s.router.dispatches[i], R.Dispatch(c.operation, c.idempotencyKey, c.now))
  }

  /** A safe call with a key is sent exactly when no earlier dispatch still shields it; otherwise nothing reaches a
      browser. */
  lemma KeyedIsSentIff(config: B.Config, s: State, clock: int, c: Call)
    requires B.Inv(config, s.server) && R.Inv(s.router, clock) && clock <= c.pruneNow && c.operation in R.OPERATIONS
    requires c.idempotencyKey != "" && CanBeSent(config, s, c)
    ensures if Unshielded(s, c) then IsSent(s, Called(config, s, c), c)
            else && Called(config, s, c).server == s.server
                 && Called(config, s, c).router.dispatches == s.router.dispatches
  {
    R.RouteReusesTheShield(s.router, clock, c.operation, c.idempotencyKey, c.pruneNow, c.now);
    if Unshielded(s, c) {
      DispatchIsSent(config, s, c);
    }
  }

  /** An unsafe call changes nothing. */
  lemma UnsafeChangesNothing(config: B.Config, s: State, c: Call)
    requires !c.safe
    ensures Called(config, s, c) == s
  {
    R.UnsafeIsRefused(s.router, c.operation, c.idempotencyKey, c.pruneNow, c.now);
  }

  // ---- A failed call can be retried ----

  /** The promise of a dispatch that was sent rejects exactly when its request has been settled; of any other dispatch,
      at any time. */
  lemma RejectionDecides(config: B.Config, s: State, promise: nat, now: int)
    requires promise < |s.router.dispatches| && promise !in s.router.rejected
    ensures promise in Step(config, s, Rejects(promise, now)).router.rejected <==>
              forall k: nat | k < |s.dispatchOf| && s.dispatchOf[k] == promise :: k in s.server.pending.outcomes
  {
  }

  /** The timer of a keyed call's request fires, its promise rejects, and the callback of that runs. */
  function TimingOut(promise: nat, timer: nat, now: int): seq<Event> {
    [Serves(B.RequestTimerFires(timer)), Rejects(promise, now), CatchRuns(promise, now)]
  }

  /** What is left of the router and the server then. */
  ghost predicate TimedOut(s: State, s': State, promise: nat, timer: nat) {
    && s'.server == s.server.(pending := P.Fired(s.server.pending, timer))
    && s'.router == s.router.(idempotency := s'.router.idempotency, rejected := s.router.rejected + {promise},
                              forgotten := s.router.forgotten + {promise})
  }

  lemma RunOfTimingOut(config: B.Config, s: State, promise: nat, timer: nat, now: int)
    ensures var fired := Step(config, s, Serves(B.RequestTimerFires(timer)));
            Run(config, s, TimingOut(promise, timer, now)) ==
              Step(config, Step(config, fired, Rejects(promise, now)), CatchRuns(promise, now))
  {
    var e := TimingOut(promise, timer, now);
    var fired := Step(config, s, e[0]);
    var rejected := Step(config, fired, e[1]);
    var last := Step(config, rejected, e[2]);
    calc {
      Run(config, s, e);
      Run(config, fired, e[1..]);
      Run(config, rejected, e[1..][1..]);
      Run(config, last, e[1..][1..][1..]);
      last;
    }
  }

  /** The callback of a settled request's promise deletes its own entry. */
  lemma TimedOutIsForgotten(config: B.Config, s: State, clock: int, promise: nat, timer: nat, now: int)
    requires R.Inv(s.router, clock) && R.OnlyPastRejected(s.router) && clock <= now
    requires promise < |s.router.dispatches| && s.router.dispatches[promise].idempotencyKey != ""
    requires promise !in s.router.forgotten && R.Harmless(s.router, promise, now)
    requires forall k: nat | k < |s.dispatchOf| && s.dispatchOf[k] == promise ::
               k in P.Fired(s.server.pending, timer).outcomes
    ensures var s' := Run(config, s, TimingOut(promise, timer, now));
            TimedOut(s, s', promise, timer) && R.Inv(s'.router, now)
  {
    var fired := Step(config, s, Serves(B.RequestTimerFires(timer)));
    var rejected := Step(config, fired, Rejects(promise, now));
    RunOfTimingOut(config, s, promise, timer, now);
    StepKeepsRouter(config, fired, clock, Rejects(promise, now));
    StepKeepsRouter(config, rejected, now, CatchRuns(promise, now));
  }

  /** A keyed call that is sent is cached under its own key, as the last dispatch. */
  lemma SentIsCached(config: B.Config, s: State, clock: int, c: Call, now: int)
    requires Inv(s, clock) && Guarded(s, clock, Calls(c)) && c.idempotencyKey != "" && c.safe
    requires IsSent(s, Called(config, s, c), c)
    ensures var sent := Called(config, s, c);
            && R.Inv(sent.router, c.now) && R.OnlyPastRejected(sent.router)
            && R.Harmless(sent.router, |s.router.dispatches|, now)
            && sent.router.forgotten == s.router.forgotten && |s.router.dispatches| !in s.router.forgotten
            && sent.server == B.Routed(config, s.server, c.requestId, c.timeoutMs, c.valid, c.at)
  {
    StepKeepsRouter(config, s, clock, Calls(c));
    R.KeyedIsCached(s.router, c.operation, c.idempotencyKey, c.pruneNow, c.now);
  }

  /** What is sent is pending under a timer that settles it. */
  lemma SentIsPending(config: B.Config, s: State, c: Call)
    requires B.Inv(config, s.server) && P.Inv(s.server.pending) && CanBeSent(config, s, c)
    requires Called(config, s, c).server == B.Routed(config, s.server, c.requestId, c.timeoutMs, c.valid, c.at)
    ensures var pending := Called(config, s, c).server.pending;
            && c.requestId in pending.requests
            && |s.server.pending.waits| in P.Fired(pending, pending.requests[c.requestId].timer).outcomes
  {
    Laws.LookDecides(config, s.server, c.at);
    P.OwnTimerSettles(s.server.pending, c.requestId, c.timeoutMs, c.at);
  }

  lemma PendingDoesNotMatter(config: B.Config, server: B.State, pending: P.State)
    requires B.Inv(config, server)
    ensures B.Inv(config, server.(pending := pending))
  {
  }

  /** The delivery of a call that was sent is the only one of its dispatch. */
  lemma OnlyItsDelivery(s: State, sent: State, clock: int, c: Call)
    requires Linked(s) && IsSent(s, sent, c)
    ensures forall k: nat | k < |sent.dispatchOf| && sent.dispatchOf[k] == |s.router.dispatches| ::
              k == |s.server.pending.waits|
  {
  }

  lemma NothingShields(s: State, s': State, c: Call, again: Call)
    requires again.operation == c.operation && again.idempotencyKey == c.idempotencyKey
    requires c.pruneNow <= again.pruneNow && Unshielded(s, c)
    requires s'.router.dispatches == s.router.dispatches + [R.Dispatch(c.operation, c.idempotencyKey, c.now)]
    requires s'.router.forgotten == s.router.forgotten + {|s.router.dispatches|}
    ensures Unshielded(s', again)
  {
    forall i: nat | i < |s'.router.dispatches| && R.Shields(s'.router, i, again.pruneNow)
      ensures !R.SamePair(s'.router.dispatches[i], R.Dispatch(again.operation, again.idempotencyKey, again.now))
    {
      assert R.Shields(s.router, i, c.pruneNow);
    }
  }

  /** The call is sent, its request times out, and its promise rejects and is forgotten. */
  ghost function AfterTimeout(config: B.Config, s: State, c: Call, now: int): State {
    var sent := Called(config, s, c);
    if c.requestId in sent.server.pending.requests
    then Run(config, sent, TimingOut(|s.router.dispatches|, sent.server.pending.requests[c.requestId].timer, now))
    else sent
  }

  lemma ServerStaysSound(config: B.Config, server: B.State, c: Call, pending: P.State)
    requires B.Inv(config, server)
    ensures B.Inv(config, B.Routed(config, server, c.requestId, c.timeoutMs, c.valid, c.at).(pending := pending))
  {
    B.RoutedKeepsInv(config, server, c.requestId, c.timeoutMs, c.valid, c.at);
    PendingDoesNotMatter(config, B.Routed(config, server, c.requestId, c.timeoutMs, c.valid, c.at), pending);
  }

  lemma SentTimesOut(config: B.Config, s: State, sent: State, clock: int, c: Call, now: int)
    requires Linked(s) && IsSent(s, sent, c) && c.idempotencyKey != "" && c.now <= now
    requires R.Inv(sent.router, c.now) && R.OnlyPastRejected(sent.router)
    requires R.Harmless(sent.router, |s.router.dispatches|, now) && |s.router.dispatches| !in sent.router.forgotten
    requires c.requestId in sent.server.pending.requests
    requires var pending := sent.server.pending;
             |s.server.pending.waits| in P.Fired(pending, pending.requests[c.requestId].timer).outcomes
    ensures var timer := sent.server.pending.requests[c.requestId].timer;
            var s' := Run(config, sent, TimingOut(|s.router.dispatches|, timer, now));
            TimedOut(sent, s', |s.router.dispatches|, timer) && R.Inv(s'.router, now)
  {
    var timer := sent.server.pending.requests[c.requestId].timer;
    OnlyItsDelivery(s, sent, clock, c);
    TimedOutIsForgotten(config, sent, c.now, |s.router.dispatches|, timer, now);
  }

  /** A keyed call whose request timed out does not block its key: once its promise was rejected and the callback has
      run, the same call goes out again. */
  lemma TimedOutCallIsSentAgain(config: B.Config, s: State, clock: int, c: Call, now: int, again: Call)
    requires B.Inv(config, s.server) && P.Inv(s.server.pending) && Inv(s, clock) && Guarded(s, clock, Calls(c))
    requires c.idempotencyKey != "" && CanBeSent(config, s, c) && Unshielded(s, c)
    requires again.operation == c.operation && again.idempotencyKey == c.idempotencyKey
    requires c.now <= now <= again.pruneNow && CanBeSent(config, AfterTimeout(config, s, c, now), again)
    ensures var s' := AfterTimeout(config, s, c, now);
            c.requestId in Called(config, s, c).server.pending.requests && IsSent(s', Called(config, s', again), again)
  {
    var sent := Called(config, s, c);
    var s' := AfterTimeout(config, s, c, now);
    KeyedIsSentIff(config, s, clock, c);
    SentIsCached(config, s, clock, c, now);
    SentIsPending(config, s, c);
    SentTimesOut(config, s, sent, clock, c, now);
    ServerStaysSound(config, s.server, c, s'.server.pending);
    NothingShields(s, s', c, again);
    KeyedIsSentIff(config, s', now, again);
  }
}
