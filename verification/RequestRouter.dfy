// Routing of operations to the browser, with an idempotency cache of promises.
module RequestRouter {
  import opened Common

  const TTL_MS: int := 15 * 60000

  const READING: set<string> := {
    "foundry.getStatus", "foundry.getContext", "foundry.getSchema", "foundry.searchDocuments", "foundry.getDocument",
    "foundry.searchCompendiums", "plutonium.getCapabilities", "foundry.prepareDelete" }

  const WRITING: set<string> := {
    "foundry.createDocuments", "foundry.updateDocuments", "foundry.createEmbedded", "foundry.updateEmbedded",
    "foundry.deleteDocuments", "foundry.importCompendium", "dnd5e.buildCharacter", "plutonium.importReference",
    "plutonium.importEntries", "foundry.confirmDelete" }

  const OPERATIONS: set<string> := READING + WRITING

  datatype Cached = Cached(expiresAt: int, promise: nat)

  /** A call of `dispatch`; its promise is named by its position. An empty key stands for no key at all. */
  datatype Dispatch = Dispatch(operation: string, idempotencyKey: string, at: int)

  /** `rejected` holds the promises that have rejected, `forgotten` those whose `catch` callback has run. */
  datatype State = State(idempotency: map<string, Cached>, dispatches: seq<Dispatch>, rejected: set<nat>,
                         forgotten: set<nat>)

  const INITIAL := State(map[], [], {}, {})

  function CacheKey(operation: string, idempotencyKey: string): string {
    operation + ":" + idempotencyKey
  }

  function KeyOf(d: Dispatch): string {
    CacheKey(d.operation, d.idempotencyKey)
  }

  function Unexpired(cache: map<string, Cached>, now: int): map<string, Cached> {
    map key | key in cache && now < cache[key].expiresAt :: cache[key]
  }

  /** The state after a call of `route`, and its promise; `None` is the error thrown for an unsafe payload. The clock
      is read once to prune and once more to date a new entry. */
  function Routed(s: State, operation: string, idempotencyKey: string, safe: bool, pruneNow: int, now: int): (State,
      Option<nat>) {
    if !safe then (s, None) else
      var cache := Unexpired(s.idempotency, pruneNow);
      var key := CacheKey(operation, idempotencyKey);
      var promise := |s.dispatches|;
      var sent := s.dispatches + [Dispatch(operation, idempotencyKey, now)];
      if idempotencyKey == "" then (s.(idempotency := cache, dispatches := sent), Some(promise))
      else if key in cache then (s.(idempotency := cache), Some(cache[key].promise))
      else (s.(idempotency := cache[key := Cached(now + TTL_MS, promise)], dispatches := sent), Some(promise))
  }

  ghost predicate AwaitsCatch(s: State, promise: nat) {
    promise < |s.dispatches| && s.dispatches[promise].idempotencyKey != "" && promise in s.rejected
      && promise !in s.forgotten
  }

  /** The `catch` callback of a keyed promise deletes by key. */
  function Forgotten(s: State, promise: nat): State
    requires promise < |s.dispatches|
  {
    s.(idempotency := s.idempotency - {KeyOf(s.dispatches[promise])}, forgotten := s.forgotten + {promise})
  }

  class Router {
    var idempotency: map<string, Cached>
    var dispatches: seq<Dispatch>
    var rejected: set<nat>
    var forgotten: set<nat>

    ghost function View(): State
      reads this
    {
      State(idempotency, dispatches, rejected, forgotten)
    }

    constructor ()
      ensures View() == INITIAL
    {
      idempotency, dispatches, rejected, forgotten := map[], [], {}, {};
    }

    method StartDispatch(operation: string, idempotencyKey: string, now: int) returns (promise: nat)
      modifies this`dispatches
      ensures promise == |old(dispatches)| && dispatches == old(dispatches) + [Dispatch(operation, idempotencyKey, now)]
    {
      promise := |dispatches|;
      dispatches := dispatches + [Dispatch(operation, idempotencyKey, now)];
    }

    method PruneIdempotency(now: int)
      modifies this`idempotency
      ensures idempotency == Unexpired(old(idempotency), now)
    {
      var todo := idempotency.Keys;
      while todo != {}
        invariant todo <= old(idempotency).Keys
        invariant idempotency == map key | key in old(idempotency)
                                           && (key in todo || now < old(idempotency)[key].expiresAt) ::
                                                old(idempotency)[key]
        decreases todo
      {
        var key :| key in todo;
        if idempotency[key].expiresAt <= now {
          idempotency := idempotency - {key};
        }
        todo := todo - {key};
      }
    }

    method Route(operation: string, idempotencyKey: string, safe: bool, pruneNow: int, now: int)
      returns (promise: Option<nat>)
      modifies this
      ensures (View(), promise) == Routed(old(View()), operation, idempotencyKey, safe, pruneNow, now)
    {
      if !safe {
        return None;
      }
      PruneIdempotency(pruneNow);
      if idempotencyKey != "" {
        var key := operation + ":" + idempotencyKey;
        if key in idempotency {
          return Some(idempotency[key].promise);
        }
        var sent := StartDispatch(operation, idempotencyKey, now);
        idempotency := idempotency[key := Cached(now + TTL_MS, sent)];
        return Some(sent);
      }
      var sent := StartDispatch(operation, idempotencyKey, now);
      return Some(sent);
    }

    method OnRejected(promise: nat)
      requires AwaitsCatch(View(), promise)
      modifies this
      ensures View() == Forgotten(old(View()), promise)
    {
      var d := dispatches[promise];
      idempotency := idempotency - {d.operation + ":" + d.idempotencyKey};
      forgotten := forgotten + {promise};
    }
  }

  // ---- Cache keys ----

  lemma ReadingHasNoColon(op: string)
    requires op in READING
    ensures ':' !in op
  {
  }

  lemma WritingHasNoColon(op: string)
    requires op in WRITING
    ensures ':' !in op
  {
  }

  lemma OperationsHaveNoColon(op: string)
    requires op in OPERATIONS
    ensures ':' !in op
  {
    if op in READING {
      ReadingHasNoColon(op);
    } else {
      WritingHasNoColon(op);
    }
  }

  /** No operation name contains a colon, so a cache key determines its operation and its idempotency key. */
  lemma CacheKeysAreInjective(op1: string, key1: string, op2: string, key2: string)
    requires op1 in OPERATIONS && op2 in OPERATIONS
    ensures CacheKey(op1, key1) == CacheKey(op2, key2) <==> op1 == op2 && key1 == key2
  {
    OperationsHaveNoColon(op1);
    OperationsHaveNoColon(op2);
    var a, b := CacheKey(op1, key1), CacheKey(op2, key2);
    if a == b {
      assert a[|op1|] == ':' && b[|op2|] == ':';
      if |op1| != |op2| {
        assert false;
      }
      assert op1 == a[..|op1|] && op2 == b[..|op2|];
      assert key1 == a[|op1| + 1..] && key2 == b[|op2| + 1..];
    }
  }

  // ---- Invariant ----

  ghost predicate SamePair(a: Dispatch, b: Dispatch) {
    a.operation == b.operation && a.idempotencyKey == b.idempotencyKey != ""
  }

  /** Dispatch `i` still shields its pair from another dispatch at time `now`. */
  ghost predicate Shields(s: State, i: nat, now: int)
    requires i < |s.dispatches|
  {
    s.dispatches[i].idempotencyKey != "" && i !in s.forgotten && now < s.dispatches[i].at + TTL_MS
  }

  ghost predicate Known(s: State) {
    && (forall d <- s.dispatches :: d.operation in OPERATIONS)
    && s.forgotten <= s.rejected
  }

  /** Every entry is the shield of the dispatch it names. */
  ghost predicate EntriesAreShields(s: State) {
    forall key <- s.idempotency ::
      var c := s.idempotency[key];
      && c.promise < |s.dispatches| && c.promise !in s.forgotten
      && key == KeyOf(s.dispatches[c.promise]) && s.dispatches[c.promise].idempotencyKey != ""
      && c.expiresAt == s.dispatches[c.promise].at + TTL_MS
  }

  /** Every shield has its entry. */
  ghost predicate ShieldsAreEntries(s: State, now: int) {
    forall i: nat | i < |s.dispatches| && Shields(s, i, now) ::
      KeyOf(s.dispatches[i]) in s.idempotency && s.idempotency[KeyOf(s.dispatches[i])].promise == i
  }

  /** A pair is dispatched again only after the earlier promise was rejected and forgotten, or its time ran out. */
  ghost predicate AtMostOnce(s: State) {
    forall i: nat, j: nat | i < j < |s.dispatches| && SamePair(s.dispatches[i], s.dispatches[j]) ::
      i in s.forgotten || s.dispatches[i].at + TTL_MS <= s.dispatches[j].at
  }

  ghost predicate Inv(s: State, now: int) {
    Known(s) && EntriesAreShields(s) && ShieldsAreEntries(s, now) && AtMostOnce(s)
  }

  /** A keyed call gets the promise of the dispatch that shields its pair, and dispatches exactly when there is none. */
  lemma RouteReusesTheShield(s: State, clock: int, operation: string, idempotencyKey: string, pruneNow: int, now: int)
    requires Inv(s, clock) && clock <= pruneNow && operation in OPERATIONS && idempotencyKey != ""
    ensures var (s', promise) := Routed(s, operation, idempotencyKey, true, pruneNow, now);
            var d := Dispatch(operation, idempotencyKey, now);
            && (forall i: nat | i < |s.dispatches| && Shields(s, i, pruneNow) && SamePair(s.dispatches[i], d) ::
                  promise == Some(i) && s'.dispatches == s.dispatches)
            && ((forall i: nat | i < |s.dispatches| && Shields(s, i, pruneNow) :: !SamePair(s.dispatches[i], d)) ==>
                  promise == Some(|s.dispatches|) && s'.dispatches == s.dispatches + [d])
  {
    var key := CacheKey(operation, idempotencyKey);
    var cache := Unexpired(s.idempotency, pruneNow);
    forall i: nat | i < |s.dispatches| && Shields(s, i, pruneNow)
           && SamePair(s.dispatches[i], Dispatch(operation, idempotencyKey, now))
      ensures key in cache && cache[key].promise == i
    {
      assert Shields(s, i, clock);
      assert KeyOf(s.dispatches[i]) == key;
    }
    if key in cache {
      var i := cache[key].promise;
      CacheKeysAreInjective(operation, idempotencyKey, s.dispatches[i].operation, s.dispatches[i].idempotencyKey);
      assert Shields(s, i, pruneNow);
    }
  }

  /** A call without a key is always dispatched, whatever is cached, and leaves no entry. */
  lemma KeylessIsDispatched(s: State, operation: string, pruneNow: int, now: int)
    ensures var (s', promise) := Routed(s, operation, "", true, pruneNow, now);
            && promise == Some(|s.dispatches|) && s'.dispatches == s.dispatches + [Dispatch(operation, "", now)]
            && s'.rejected == s.rejected && s'.forgotten == s.forgotten
            && (forall key <- s'.idempotency :: key in s.idempotency && s'.idempotency[key] == s.idempotency[key])
            && (forall key <- s.idempotency :: key in s'.idempotency <==> pruneNow < s.idempotency[key].expiresAt)
  {
  }

  /** An unsafe payload is refused before anything changes. */
  lemma UnsafeIsRefused(s: State, operation: string, idempotencyKey: string, pruneNow: int, now: int)
    ensures Routed(s, operation, idempotencyKey, false, pruneNow, now) == (s, None)
  {
  }

  /** A keyed dispatch is cached for fifteen minutes from its own time, under an entry that every other pair leaves
      alone. */
  lemma KeyedIsCached(s: State, operation: string, idempotencyKey: string, pruneNow: int, now: int)
    requires idempotencyKey != ""
    requires Routed(s, operation, idempotencyKey, true, pruneNow, now).1 == Some(|s.dispatches|)
    requires forall key <- s.idempotency :: s.idempotency[key].promise < |s.dispatches|
    ensures var (s', promise) := Routed(s, operation, idempotencyKey, true, pruneNow, now);
            var own := operation + ":" + idempotencyKey;
            && s'.dispatches == s.dispatches + [Dispatch(operation, idempotencyKey, now)]
            && own in s'.idempotency && s'.idempotency[own] == Cached(now + 900000, |s.dispatches|)
            && (forall key <- s'.idempotency :: key != own ==>
                  key in s.idempotency && s'.idempotency[key] == s.idempotency[key])
            && (forall key <- s.idempotency :: key != own ==>
                  (key in s'.idempotency <==> pruneNow < s.idempotency[key].expiresAt))
  {
  }

  lemma PruneKeepsInv(s: State, clock: int, now: int)
    requires Inv(s, clock) && clock <= now
    ensures Inv(s.(idempotency := Unexpired(s.idempotency, now)), now)
  {
  }

  lemma DispatchKeepsInv(s: State, now: int, d: Dispatch, cache: map<string, Cached>)
    requires Inv(s, now) && d.operation in OPERATIONS && d.at == now
    requires |s.dispatches| !in s.rejected
    requires cache == if d.idempotencyKey == "" then s.idempotency
                      else s.idempotency[KeyOf(d) := Cached(now + TTL_MS, |s.dispatches|)]
    requires d.idempotencyKey != "" ==> KeyOf(d) !in s.idempotency
    ensures Inv(s.(idempotency := cache, dispatches := s.dispatches + [d]), now)
  {
    var s' := s.(idempotency := cache, dispatches := s.dispatches + [d]);
    var last := |s.dispatches|;
    forall i: nat | i < |s'.dispatches| && Shields(s', i, now)
      ensures KeyOf(s'.dispatches[i]) in cache && cache[KeyOf(s'.dispatches[i])].promise == i
    {
      if i < last {
        assert Shields(s, i, now);
      }
    }
    forall i: nat, j: nat | i < j < |s'.dispatches| && SamePair(s'.dispatches[i], s'.dispatches[j])
      ensures i in s.forgotten || s'.dispatches[i].at + TTL_MS <= s'.dispatches[j].at
    {
      if j == last {
        assert !Shields(s, i, now);
      } else {
        assert SamePair(s.dispatches[i], s.dispatches[j]);
      }
    }
  }

  // ---- Runs ----

  datatype Event =
    | RouteCalled(operation: string, idempotencyKey: string, safe: bool, pruneNow: int)
    | PromiseRejects(promise: nat)
    | CatchRuns(promise: nat)

  datatype Timed = Timed(event: Event, now: int)

  function Step(s: State, e: Timed): State {
    match e.event
    case RouteCalled(operation, key, safe, pruneNow) => Routed(s, operation, key, safe, pruneNow, e.now).0
    case PromiseRejects(promise) => if promise < |s.dispatches| then s.(rejected := s.rejected + {promise}) else s
    case CatchRuns(promise) =>
      if promise < |s.dispatches| && s.dispatches[promise].idempotencyKey != "" && promise in s.rejected
         && promise !in s.forgotten
      then Forgotten(s, promise) else s
  }

  function Run(s: State, events: seq<Timed>): State
    decreases |events|
  {
    if events == [] then s else Run(Step(s, events[0]), events[1..])
  }

  ghost predicate OnlyPastRejected(s: State) {
    forall p <- s.rejected :: p < |s.dispatches|
  }

  // ---- The rejection callback ----

  /** The entry that a callback deletes is missing, is its own, or has expired. */
  predicate Harmless(s: State, promise: nat, now: int)
    requires promise < |s.dispatches|
  {
    var key := KeyOf(s.dispatches[promise]);
    key !in s.idempotency || s.idempotency[key].promise == promise || s.idempotency[key].expiresAt <= now
  }

  lemma HarmlessCatchKeepsInv(s: State, clock: int, promise: nat, now: int)
    requires Inv(s, clock) && clock <= now && AwaitsCatch(s, promise) && Harmless(s, promise, now)
    ensures Inv(Forgotten(s, promise), now)
  {
    var s' := Forgotten(s, promise);
    forall i: nat | i < |s'.dispatches| && Shields(s', i, now)
      ensures KeyOf(s'.dispatches[i]) in s'.idempotency && s'.idempotency[KeyOf(s'.dispatches[i])].promise == i
    {
      assert Shields(s, i, clock);
    }
  }

  /** A callback that runs before its own entry expires is harmless. */
  lemma TimelyCatchIsHarmless(s: State, clock: int, promise: nat, now: int)
    requires Inv(s, clock) && clock <= now && AwaitsCatch(s, promise) && now < s.dispatches[promise].at + TTL_MS
    ensures Harmless(s, promise, now)
  {
    assert Shields(s, promise, clock);
  }

  /** The callback lacks an identity check. When the same pair is routed next, it is dispatched once more, and that
      is one dispatch too many exactly when the entry deleted was another promise's and would still be valid. */
  lemma ForgettingIsSafeIff(s: State, clock: int, promise: nat, pruneNow: int, now: int)
    requires Inv(s, clock) && clock <= pruneNow <= now && AwaitsCatch(s, promise)
    ensures var d := s.dispatches[promise];
            AtMostOnce(Routed(Forgotten(s, promise), d.operation, d.idempotencyKey, true, pruneNow, now).0) <==>
                Harmless(s, promise, now)
  {
    var d := s.dispatches[promise];
    var s' := Routed(Forgotten(s, promise), d.operation, d.idempotencyKey, true, pruneNow, now).0;
    var key, last := KeyOf(d), |s.dispatches|;
    assert s'.dispatches == s.dispatches + [Dispatch(d.operation, d.idempotencyKey, now)];
    if Harmless(s, promise, now) {
      forall i: nat, j: nat | i < j < |s'.dispatches| && SamePair(s'.dispatches[i], s'.dispatches[j])
        ensures i in s'.forgotten || s'.dispatches[i].at + TTL_MS <= s'.dispatches[j].at
      {
        if j == last {
          assert Shields(s, i, now) ==> Shields(s, i, clock);
        } else {
          assert SamePair(s.dispatches[i], s.dispatches[j]);
        }
      }
    } else {
      var q := s.idempotency[key].promise;
      CacheKeysAreInjective(d.operation, d.idempotencyKey, s.dispatches[q].operation, s.dispatches[q].idempotencyKey);
      assert SamePair(s'.dispatches[q], s'.dispatches[last]) && q !in s'.forgotten;
    }
  }

  lemma WaitingKeepsInv(s: State, clock: int, now: int, rejected: set<nat>)
    requires Inv(s, clock) && clock <= now && s.rejected <= rejected
    ensures Inv(s.(rejected := rejected), now)
  {
  }

  lemma RouteKeepsInv(s: State, clock: int, operation: string, key: string, safe: bool, pruneNow: int, now: int)
    requires Inv(s, clock) && OnlyPastRejected(s) && clock <= pruneNow <= now && operation in OPERATIONS
    ensures var s' := Routed(s, operation, key, safe, pruneNow, now).0;
            Inv(s', now) && OnlyPastRejected(s')
  {
    if safe {
      var pruned := s.(idempotency := Unexpired(s.idempotency, pruneNow));
      var d := Dispatch(operation, key, now);
      PruneKeepsInv(s, clock, pruneNow);
      WaitingKeepsInv(pruned, pruneNow, now, pruned.rejected);
      if key == "" {
        DispatchKeepsInv(pruned, now, d, pruned.idempotency);
      } else if KeyOf(d) !in pruned.idempotency {
        DispatchKeepsInv(pruned, now, d, pruned.idempotency[KeyOf(d) := Cached(now + TTL_MS, |s.dispatches|)]);
      }
    } else {
      WaitingKeepsInv(s, clock, now, s.rejected);
    }
  }

  /** The clock does not run backwards, and every `catch` callback meets an entry that it may delete. */
  ghost predicate Guarded(s: State, clock: int, e: Timed) {
    match e.event
    case RouteCalled(operation, _, _, pruneNow) => operation in OPERATIONS && clock <= pruneNow <= e.now
    case PromiseRejects(_) => clock <= e.now
    case CatchRuns(promise) => clock <= e.now && (AwaitsCatch(s, promise) ==> Harmless(s, promise, e.now))
  }

  lemma StepKeepsInv(s: State, clock: int, e: Timed)
    requires Inv(s, clock) && OnlyPastRejected(s) && Guarded(s, clock, e)
    ensures Inv(Step(s, e), e.now) && OnlyPastRejected(Step(s, e))
  {
    match e.event
    case RouteCalled(operation, key, safe, pruneNow) => RouteKeepsInv(s, clock, operation, key, safe, pruneNow, e.now);
    case PromiseRejects(promise) => WaitingKeepsInv(s, clock, e.now, Step(s, e).rejected);
    case CatchRuns(promise) =>
      if AwaitsCatch(s, promise) {
        HarmlessCatchKeepsInv(s, clock, promise, e.now);
      } else {
        WaitingKeepsInv(s, clock, e.now, s.rejected);
      }
  }

  // ---- Over every run ----

  ghost predicate GuardedRun(s: State, clock: int, events: seq<Timed>)
    decreases |events|
  {
    events == [] || (Guarded(s, clock, events[0]) && GuardedRun(Step(s, events[0]), events[0].now, events[1..]))
  }

  function ClockAfter(clock: int, events: seq<Timed>): int
    decreases |events|
  {
    if events == [] then clock else ClockAfter(events[0].now, events[1..])
  }

  lemma {:induction false} RunKeepsInv(s: State, clock: int, events: seq<Timed>)
    requires Inv(s, clock) && OnlyPastRejected(s) && GuardedRun(s, clock, events)
    ensures Inv(Run(s, events), ClockAfter(clock, events)) && OnlyPastRejected(Run(s, events))
    decreases |events|
  {
    if events != [] {
      StepKeepsInv(s, clock, events[0]);
      RunKeepsInv(Step(s, events[0]), events[0].now, events[1..]);
    }
  }

  /** Over every guarded run an operation is dispatched twice for one key only if the first promise rejected
      or fifteen minutes passed. */
  lemma DispatchedAtMostOnce(clock: int, events: seq<Timed>)
    requires GuardedRun(INITIAL, clock, events)
    ensures AtMostOnce(Run(INITIAL, events)) && Run(INITIAL, events).forgotten <= Run(INITIAL, events).rejected
  {
    RunKeepsInv(INITIAL, clock, events);
  }

  /** After a guarded run, any callback and the same call once more keep that if and only if the callback meets its
      guard. */
  lemma NextCatchIsSafeIff(clock: int, events: seq<Timed>, promise: nat, pruneNow: int, now: int)
    requires GuardedRun(INITIAL, clock, events) && ClockAfter(clock, events) <= pruneNow <= now
    requires AwaitsCatch(Run(INITIAL, events), promise)
    ensures var s := Run(INITIAL, events);
            var d := s.dispatches[promise];
            AtMostOnce(Routed(Forgotten(s, promise), d.operation, d.idempotencyKey, true, pruneNow, now).0) <==>
                Harmless(s, promise, now)
  {
    RunKeepsInv(INITIAL, clock, events);
    ForgettingIsSafeIff(Run(INITIAL, events), ClockAfter(clock, events), promise, pruneNow, now);
  }

  /** A run is timely when every rejection is handled before the entry of its promise expires. */
  ghost predicate Timely(s: State, clock: int, events: seq<Timed>)
    decreases |events|
  {
    events == [] ||
    (&& clock <= events[0].now
     && (events[0].event.RouteCalled? ==>
           events[0].event.operation in OPERATIONS && clock <= events[0].event.pruneNow <= events[0].now)
     && (events[0].event.CatchRuns? && AwaitsCatch(s, events[0].event.promise) ==>
           events[0].now < s.dispatches[events[0].event.promise].at + TTL_MS)
     && Timely(Step(s, events[0]), events[0].now, events[1..]))
  }

  /** Timely runs are guarded. */
  lemma {:induction false} TimelyRunsAreGuarded(s: State, clock: int, events: seq<Timed>)
    requires Inv(s, clock) && OnlyPastRejected(s) && Timely(s, clock, events)
    ensures GuardedRun(s, clock, events)
    decreases |events|
  {
    if events != [] {
      var e := events[0];
      if e.event.CatchRuns? && AwaitsCatch(s, e.event.promise) {
        TimelyCatchIsHarmless(s, clock, e.event.promise, e.now);
      }
      StepKeepsInv(s, clock, e);
      TimelyRunsAreGuarded(Step(s, e), e.now, events[1..]);
    }
  }

  /** Without the guard the property fails: the late callback of an expired dispatch forgets its successor. */
  lemma LateCatchDispatchesTwice()
    ensures var op, key := "foundry.getStatus", "12345678";
            var first := Timed(RouteCalled(op, key, true, 0), 0);
            var again := Timed(RouteCalled(op, key, true, TTL_MS), TTL_MS);
            var s := Run(INITIAL, [first, again, Timed(PromiseRejects(0), TTL_MS), Timed(CatchRuns(0), TTL_MS), again]);
            |s.dispatches| == 3 && !AtMostOnce(s) && 1 !in s.rejected
  {
    var op, key := "foundry.getStatus", "12345678";
    var first, again := Timed(RouteCalled(op, key, true, 0), 0), Timed(RouteCalled(op, key, true, TTL_MS), TTL_MS);
    var e := [first, again, Timed(PromiseRejects(0), TTL_MS), Timed(CatchRuns(0), TTL_MS), again];
    var s1 := Step(INITIAL, e[0]);
    var s2 := Step(s1, e[1]);
    var s3 := Step(s2, e[2]);
    var s4 := Step(s3, e[3]);
    var s5 := Step(s4, e[4]);
    assert s2.dispatches == [Dispatch(op, key, 0), Dispatch(op, key, TTL_MS)];
    assert s4.idempotency == map[];
    assert s5.dispatches == [Dispatch(op, key, 0), Dispatch(op, key, TTL_MS), Dispatch(op, key, TTL_MS)];
    assert SamePair(s5.dispatches[1], s5.dispatches[2]);
    calc {
      Run(INITIAL, e);
      Run(s1, e[1..]);
      Run(s2, e[1..][1..]);
      Run(s3, e[1..][1..][1..]);
      Run(s4, e[1..][1..][1..][1..]);
      Run(s5, e[1..][1..][1..][1..][1..]);
      s5;
    }
  }
}
