// Requests in flight to the browser: a map of promises, each guarded by a timer.
module PendingRequests {
  import opened Common

  datatype BridgeResponse = BridgeResponse(requestId: string, ok: bool, body: string)

  datatype Outcome = Answered(response: BridgeResponse) | TimedOut | Disconnected

  datatype Entry = Entry(wait: nat, timer: nat)

  /** A live timer of the event loop, with what its callback has captured. */
  datatype Timer = Timer(requestId: string, wait: nat, due: int)

  datatype Wait = Wait(requestId: string, deadline: int)

  /** A promise is named by the position of its `wait` call in `waits`. `outcomes` says how each promise was
      last settled and `calls` counts all resolve and reject calls, so that settling twice would show. */
  datatype State = State(
    requests: map<string, Entry>,
    timers: map<nat, Timer>,
    nextTimer: nat,
    waits: seq<Wait>,
    outcomes: map<nat, Outcome>,
    calls: nat)

  const INITIAL := State(map[], map[], 0, [], map[], 0)

  function Waited(s: State, requestId: string, timeoutMs: nat, now: int): State {
    if requestId in s.requests then s else
      s.(requests := s.requests[requestId := Entry(|s.waits|, s.nextTimer)],
         timers := s.timers[s.nextTimer := Timer(requestId, |s.waits|, now + timeoutMs)],
         nextTimer := s.nextTimer + 1,
         waits := s.waits + [Wait(requestId, now + timeoutMs)])
  }

  function Settled(s: State, response: BridgeResponse): State {
    if response.requestId !in s.requests then s else
      var entry := s.requests[response.requestId];
      s.(requests := s.requests - {response.requestId},
         timers := s.timers - {entry.timer},
         outcomes := s.outcomes[entry.wait := Answered(response)],
         calls := s.calls + 1)
  }

  /** The event loop runs the callback of a live timer; a cleared timer never fires. */
  function Fired(s: State, timer: nat): State {
    if timer !in s.timers then s else
      var t := s.timers[timer];
      s.(requests := s.requests - {t.requestId},
         timers := s.timers - {timer},
         outcomes := s.outcomes[t.wait := TimedOut],
         calls := s.calls + 1)
  }

  function WaitsOf(requests: map<string, Entry>): set<nat> {
    set id | id in requests :: requests[id].wait
  }

  function TimersOf(requests: map<string, Entry>): set<nat> {
    set id | id in requests :: requests[id].timer
  }

  function RejectedAll(s: State): State {
    s.(requests := map[],
       timers := s.timers - TimersOf(s.requests),
       outcomes := s.outcomes + map wait | wait in WaitsOf(s.requests) :: Disconnected,
       calls := s.calls + |s.requests|)
  }

  // ---- Rejecting all, one entry at a time ----

  function Rejected(s: State, entry: Entry, outcome: Outcome): State {
    s.(timers := s.timers - {entry.timer}, outcomes := s.outcomes[entry.wait := outcome], calls := s.calls + 1)
  }

  /** `s` with only the entries of `ids` left. */
  function Only(s: State, ids: set<string>): State {
    s.(requests := map id | id in s.requests && id in ids :: s.requests[id])
  }

  lemma AmongAll(s: State)
    ensures Only(s, s.requests.Keys) == s
  {
  }

  function Resolved(s: State, id: string, outcome: Outcome): State
    requires id in s.requests
  {
    s.(requests := s.requests - {id}, timers := s.timers - {s.requests[id].timer},
       outcomes := s.outcomes[s.requests[id].wait := outcome], calls := s.calls + 1)
  }

  lemma RejectedIsResolved(s: State, ids: set<string>, id: string)
    requires id in ids && id in s.requests
    ensures Only(Rejected(s, s.requests[id], Disconnected), ids - {id}) == Resolved(Only(s, ids), id, Disconnected)
  {
    assert Only(Rejected(s, s.requests[id], Disconnected), ids - {id}).requests == Only(s, ids).requests - {id};
  }

  lemma WaitsOfOneMore(requests: map<string, Entry>, id: string)
    requires id in requests
    ensures WaitsOf(requests) == WaitsOf(requests - {id}) + {requests[id].wait}
    ensures TimersOf(requests) == TimersOf(requests - {id}) + {requests[id].timer}
  {
    var rest := requests - {id};
    forall k | k in requests ensures requests[k].wait in WaitsOf(rest) + {requests[id].wait} {
      assert k != id ==> rest[k] == requests[k] && k in rest;
    }
    forall k | k in requests ensures requests[k].timer in TimersOf(rest) + {requests[id].timer} {
      assert k != id ==> rest[k] == requests[k] && k in rest;
    }
  }

  lemma RejectedInTwoParts(outcomes: map<nat, Outcome>, first: nat, rest: set<nat>)
    ensures outcomes[first := Disconnected] + (map w | w in rest :: Disconnected)
            == outcomes + map w | w in rest + {first} :: Disconnected
  {
  }

  /** Rejecting all is rejecting any one entry and then the rest. */
  lemma RejectOneFirst(s: State, id: string)
    requires id in s.requests
    ensures RejectedAll(Resolved(s, id, Disconnected)) == RejectedAll(s)
  {
    RemoveSize(s.requests, id);
    WaitsOfOneMore(s.requests, id);
    RejectedInTwoParts(s.outcomes, s.requests[id].wait, WaitsOf(s.requests - {id}));
    assert RejectedAll(Resolved(s, id, Disconnected)).timers == RejectedAll(s).timers;
  }

  lemma RejectOneOf(s: State, ids: set<string>, id: string)
    requires id in ids && id in s.requests
    ensures RejectedAll(Only(Rejected(s, s.requests[id], Disconnected), ids - {id})) == RejectedAll(Only(s, ids))
  {
    RejectedIsResolved(s, ids, id);
    RejectOneFirst(Only(s, ids), id);
  }

  lemma RejectNothing(s: State)
    requires s.requests == map[]
    ensures RejectedAll(s) == s
  {
    assert |s.requests| == 0;
    assert WaitsOf(s.requests) == {} && TimersOf(s.requests) == {};
    assert RejectedAll(s).outcomes == s.outcomes;
  }

  // ---- The class of the program ----

  class Store {
    var requests: map<string, Entry>
    var timers: map<nat, Timer>
    var nextTimer: nat
    var waits: seq<Wait>
    var outcomes: map<nat, Outcome>
    var calls: nat

    ghost function View(): State
      reads this
    {
      State(requests, timers, nextTimer, waits, outcomes, calls)
    }

    constructor ()
      ensures View() == INITIAL
    {
      requests, timers, nextTimer, waits, outcomes, calls := map[], map[], 0, [], map[], 0;
    }

    /** `ok` is false where the program throws its duplicate-id error. */
    method Await(requestId: string, timeoutMs: nat, now: int) returns (ok: bool)
      modifies this
      ensures ok <==> requestId !in old(requests)
      ensures View() == Waited(old(View()), requestId, timeoutMs, now)
    {
      if requestId in requests {
        return false;
      }
      timers := timers[nextTimer := Timer(requestId, |waits|, now + timeoutMs)];
      requests := requests[requestId := Entry(|waits|, nextTimer)];
      nextTimer := nextTimer + 1;
      waits := waits + [Wait(requestId, now + timeoutMs)];
      return true;
    }

    method Settle(response: BridgeResponse) returns (known: bool)
      modifies this
      ensures known <==> response.requestId in old(requests)
      ensures View() == Settled(old(View()), response)
    {
      if response.requestId !in requests {
        return false;
      }
      var entry := requests[response.requestId];
      timers := timers - {entry.timer};
      requests := requests - {response.requestId};
      outcomes, calls := outcomes[entry.wait := Answered(response)], calls + 1;
      return true;
    }

    method Fire(timer: nat)
      requires timer in timers
      modifies this
      ensures View() == Fired(old(View()), timer)
    {
      var t := timers[timer];
      timers := timers - {timer};
      requests := requests - {t.requestId};
      outcomes, calls := outcomes[t.wait := TimedOut], calls + 1;
    }

    /** The body of the `rejectAll` loop: `clearTimeout`, then the promise's own `reject`. */
    method Reject(entry: Entry, outcome: Outcome)
      modifies this
      ensures View() == Rejected(old(View()), entry, outcome)
    {
      timers := timers - {entry.timer};
      outcomes, calls := outcomes[entry.wait := outcome], calls + 1;
    }

    method RejectAll()
      modifies this
      ensures View() == RejectedAll(old(View()))
    {
      ghost var s := View();
      var todo := requests.Keys;
      AmongAll(s);
      while todo != {}
        invariant requests == s.requests && todo <= s.requests.Keys
        invariant RejectedAll(Only(View(), todo)) == RejectedAll(s)
        decreases todo
      {
        var id :| id in todo;
        RejectOneOf(View(), todo, id);
        Reject(requests[id], Disconnected);
        todo := todo - {id};
      }
      RejectNothing(Only(View(), todo));
      requests := map[];
    }
  }

  // ---- Invariant ----

  /** Live timers and entries are in bijection, and agree on the request id and the promise. */
  ghost predicate Paired(s: State) {
    && (forall id <- s.requests :: s.requests[id].timer in s.timers
          && s.timers[s.requests[id].timer].requestId == id
          && s.timers[s.requests[id].timer].wait == s.requests[id].wait)
    && (forall t <- s.timers :: t < s.nextTimer && s.timers[t].requestId in s.requests
          && s.requests[s.timers[t].requestId].timer == t)
    && (forall t <- s.timers :: s.timers[t].wait < |s.waits|
          && s.waits[s.timers[t].wait] == Wait(s.timers[t].requestId, s.timers[t].due))
  }

  ghost predicate Pending(s: State, wait: nat)
    requires wait < |s.waits|
  {
    var id := s.waits[wait].requestId;
    id in s.requests && s.requests[id].wait == wait
  }

  /** Every promise is pending or settled but not both, answers reach the request they name, and no promise
      has been settled twice. */
  ghost predicate Accounted(s: State) {
    && (forall w: nat | w < |s.waits| :: Pending(s, w) <==> w !in s.outcomes)
    && (forall w <- s.outcomes :: w < |s.waits|)
    && (forall w <- s.outcomes :: s.outcomes[w].Answered? ==> s.outcomes[w].response.requestId == s.waits[w].requestId)
  }

  /** Conservation: each promise was settled by one call or still has its entry. */
  ghost predicate Conserved(s: State) {
    s.calls == |s.outcomes| && |s.waits| == s.calls + |s.requests|
  }

  ghost predicate Inv(s: State) {
    Paired(s) && Accounted(s) && Conserved(s)
  }

  lemma ResolvedKeepsPairs(s: State, id: string, outcome: Outcome)
    requires Paired(s) && id in s.requests
    ensures Paired(Resolved(s, id, outcome))
    ensures s.requests[id].wait < |s.waits| && s.waits[s.requests[id].wait].requestId == id
  {
  }

  lemma ResolvedLeavesOthers(s: State, id: string, outcome: Outcome)
    requires Paired(s) && id in s.requests
    ensures s.requests[id].wait < |s.waits|
    ensures forall w: nat | w < |s.waits| :: Pending(Resolved(s, id, outcome), w) <==>
              Pending(s, w) && w != s.requests[id].wait
  {
  }

  lemma ResolvedKeepsAccounts(s: State, id: string, outcome: Outcome)
    requires Paired(s) && Accounted(s) && id in s.requests
    requires outcome.Answered? ==> outcome.response.requestId == id
    ensures Accounted(Resolved(s, id, outcome))
    ensures s.requests[id].wait < |s.waits| && s.requests[id].wait !in s.outcomes
  {
  }

  lemma ResolvedKeepsInv(s: State, id: string, outcome: Outcome)
    requires Inv(s) && id in s.requests
    requires outcome.Answered? ==> outcome.response.requestId == id
    ensures Inv(Resolved(s, id, outcome))
    ensures s.requests[id].wait < |s.waits| && s.requests[id].wait !in s.outcomes
  {
    ResolvedKeepsPairs(s, id, outcome);
    ResolvedKeepsAccounts(s, id, outcome);
    RemoveSize(s.requests, id);
    InsertSize(s.outcomes, s.requests[id].wait, outcome);
  }

  lemma WaitKeepsPairs(s: State, requestId: string, timeoutMs: nat, now: int)
    requires Paired(s)
    ensures Paired(Waited(s, requestId, timeoutMs, now))
  {
  }

  lemma WaitKeepsAccounts(s: State, requestId: string, timeoutMs: nat, now: int)
    requires Paired(s) && Accounted(s)
    ensures Accounted(Waited(s, requestId, timeoutMs, now))
  {
  }

  lemma WaitConserves(s: State, requestId: string, timeoutMs: nat, now: int)
    requires Conserved(s)
    ensures Conserved(Waited(s, requestId, timeoutMs, now))
  {
  }

  lemma WaitKeepsInv(s: State, requestId: string, timeoutMs: nat, now: int)
    requires Inv(s)
    ensures Inv(Waited(s, requestId, timeoutMs, now))
  {
    WaitKeepsPairs(s, requestId, timeoutMs, now);
    WaitKeepsAccounts(s, requestId, timeoutMs, now);
    WaitConserves(s, requestId, timeoutMs, now);
  }

  lemma SettleKeepsInv(s: State, response: BridgeResponse)
    requires Inv(s)
    ensures Inv(Settled(s, response))
  {
    if response.requestId in s.requests {
      ResolvedKeepsInv(s, response.requestId, Answered(response));
    }
  }

  /** The callback of a live timer deletes by request id, and still removes the very entry that armed it. */
  lemma FireRemovesItsOwnEntry(s: State, timer: nat)
    requires Inv(s) && timer in s.timers
    ensures Inv(Fired(s, timer))
    ensures var t := s.timers[timer];
            && t.requestId in s.requests && s.requests[t.requestId] == Entry(t.wait, timer)
            && t.wait < |s.waits| && s.waits[t.wait] == Wait(t.requestId, t.due)
            && t.wait !in s.outcomes
  {
    var id := s.timers[timer].requestId;
    assert s.requests[id].timer == timer && s.timers[s.requests[id].timer].wait == s.requests[id].wait;
    ResolvedKeepsInv(s, id, TimedOut);
    assert Fired(s, timer) == Resolved(s, id, TimedOut);
  }

  lemma FireKeepsInv(s: State, timer: nat)
    requires Inv(s)
    ensures Inv(Fired(s, timer))
  {
    if timer in s.timers {
      FireRemovesItsOwnEntry(s, timer);
    }
  }

  lemma RejectNone(s: State)
    requires Paired(s) && s.requests == map[]
    ensures RejectedAll(s) == s && s.timers == map[]
  {
  }

  ghost predicate JustDisconnected(s: State, s': State) {
    && s'.waits == s.waits
    && forall w: nat | w < |s.waits| ::
         w in s'.outcomes && (if Pending(s, w) then s'.outcomes[w] == Disconnected
           else w in s.outcomes && s'.outcomes[w] == s.outcomes[w])
  }

  lemma RejectedChains(s: State, id: string, end: State)
    requires id in s.requests && s.requests[id].wait < |s.waits| && Pending(s, s.requests[id].wait)
    requires JustDisconnected(Resolved(s, id, Disconnected), end)
    requires forall w: nat | w < |s.waits| :: Pending(Resolved(s, id, Disconnected), w) <==>
               Pending(s, w) && w != s.requests[id].wait
    requires forall w: nat | w < |s.waits| :: Pending(s, w) <==> w !in s.outcomes
    ensures JustDisconnected(s, end)
  {
  }

  /** After `rejectAll` nothing is pending, no timer is left, and exactly the pending promises were rejected. */
  lemma {:induction false} RejectAllEmpties(s: State)
    requires Inv(s)
    ensures Inv(RejectedAll(s))
    ensures RejectedAll(s).requests == map[] && RejectedAll(s).timers == map[]
    ensures JustDisconnected(s, RejectedAll(s))
    decreases |s.requests|
  {
    if s.requests == map[] {
      RejectNone(s);
    } else {
      var id :| id in s.requests;
      var next := Resolved(s, id, Disconnected);
      ResolvedKeepsInv(s, id, Disconnected);
      ResolvedKeepsPairs(s, id, Disconnected);
      ResolvedLeavesOthers(s, id, Disconnected);
      RejectOneFirst(s, id);
      RemoveSize(s.requests, id);
      RejectAllEmpties(next);
      RejectedChains(s, id, RejectedAll(s));
    }
  }

  // ---- Runs ----

  datatype Event =
    | WaitCalled(requestId: string, timeoutMs: nat, now: int)
    | SettleCalled(response: BridgeResponse)
    | TimerFires(timer: nat)
    | RejectAllCalled

  function Step(s: State, e: Event): State {
    match e
    case WaitCalled(id, timeoutMs, now) => Waited(s, id, timeoutMs, now)
    case SettleCalled(response) => Settled(s, response)
    case TimerFires(timer) => Fired(s, timer)
    case RejectAllCalled => RejectedAll(s)
  }

  function Run(s: State, events: seq<Event>): State
    decreases |events|
  {
    if events == [] then s else Run(Step(s, events[0]), events[1..])
  }

  lemma StepKeepsInv(s: State, e: Event)
    requires Inv(s)
    ensures Inv(Step(s, e))
  {
    match e
    case WaitCalled(id, timeoutMs, now) =>
      WaitKeepsInv(s, id, timeoutMs, now);
      assert Step(s, e) == Waited(s, id, timeoutMs, now);
    case SettleCalled(response) =>
      SettleKeepsInv(s, response);
      assert Step(s, e) == Settled(s, response);
    case TimerFires(timer) =>
      FireKeepsInv(s, timer);
      assert Step(s, e) == Fired(s, timer);
    case RejectAllCalled =>
      RejectAllEmpties(s);
      assert Step(s, e) == RejectedAll(s);
  }

  lemma {:induction false} RunKeepsInv(s: State, events: seq<Event>)
    requires Inv(s)
    ensures Inv(Run(s, events))
    decreases |events|
  {
    if events != [] {
      StepKeepsInv(s, events[0]);
      RunKeepsInv(Step(s, events[0]), events[1..]);
    }
  }

  /** Every run, with request ids reused at will, pairs timers with entries, accounts for every promise and
      settles none twice. */
  lemma EveryRunIsAccounted(events: seq<Event>)
    ensures Inv(Run(INITIAL, events))
  {
    RunKeepsInv(INITIAL, events);
  }

  // ---- Timeouts ----

  function FireEach(s: State, due: seq<nat>): State
    decreases |due|
  {
    if due == [] then s else FireEach(Fired(s, due[0]), due[1..])
  }

  ghost predicate ExactlyDue(s: State, now: int, due: seq<nat>) {
    forall t :: t in due <==> t in s.timers && s.timers[t].due <= now
  }

  /** What is left of `s` once its overdue promises, and nothing else, have timed out. */
  ghost predicate JustExpired(s: State, now: int, s': State) {
    && s'.waits == s.waits
    && (forall w: nat | w < |s.waits| :: Pending(s', w) <==> Pending(s, w) && now < s.waits[w].deadline)
    && (forall w: nat | w < |s.waits| && Pending(s, w) && s.waits[w].deadline <= now ::
         w in s'.outcomes && s'.outcomes[w] == TimedOut)
    && (forall w <- s.outcomes :: w in s'.outcomes && s'.outcomes[w] == s.outcomes[w])
  }

  lemma FiredIsResolved(s: State, timer: nat)
    requires Paired(s) && timer in s.timers
    ensures var id := s.timers[timer].requestId;
            && Fired(s, timer) == Resolved(s, id, TimedOut)
            && s.requests[id].wait < |s.waits|
            && forall w: nat | w < |s.waits| :: Pending(Fired(s, timer), w) <==>
                 Pending(s, w) && w != s.requests[id].wait
  {
  }

  lemma ExpiredChains(s: State, now: int, id: string, end: State)
    requires id in s.requests && s.requests[id].wait < |s.waits| && s.waits[s.requests[id].wait].deadline <= now
    requires s.requests[id].wait !in s.outcomes
    requires forall w: nat | w < |s.waits| :: Pending(Resolved(s, id, TimedOut), w) <==>
               Pending(s, w) && w != s.requests[id].wait
    requires JustExpired(Resolved(s, id, TimedOut), now, end)
    ensures JustExpired(s, now, end)
  {
  }

  lemma NothingOverdue(s: State, now: int)
    requires Paired(s) && ExactlyDue(s, now, [])
    ensures forall w: nat | w < |s.waits| && Pending(s, w) :: now < s.waits[w].deadline
  {
  }

  lemma RestIsDue(s: State, now: int, due: seq<nat>)
    requires due != [] && Distinct(due) && ExactlyDue(s, now, due)
    ensures due[0] in s.timers && s.timers[due[0]].due <= now
    ensures Distinct(due[1..]) && ExactlyDue(Fired(s, due[0]), now, due[1..])
  {
  }

  /** Firing the due timers, in whatever order, times out exactly the overdue promises and leaves no overdue entry. */
  lemma {:induction false} DueTimersExpireOverdueEntries(s: State, now: int, due: seq<nat>)
    requires Inv(s) && Distinct(due) && ExactlyDue(s, now, due)
    ensures Inv(FireEach(s, due)) && JustExpired(s, now, FireEach(s, due))
    decreases |due|
  {
    if due == [] {
      NothingOverdue(s, now);
    } else {
      RestIsDue(s, now, due);
      var id := s.timers[due[0]].requestId;
      FireRemovesItsOwnEntry(s, due[0]);
      DueTimersExpireOverdueEntries(Fired(s, due[0]), now, due[1..]);
      FiredIsResolved(s, due[0]);
      ExpiredChains(s, now, id, FireEach(s, due));
    }
  }

  // ---- Which call did it ----

  /** A new request gets a promise that is pending under a live timer until its deadline, and disturbs no other; an id
      in use changes nothing. */
  lemma WaitAddsOne(s: State, requestId: string, timeoutMs: nat, now: int)
    requires Inv(s)
    ensures var s' := Waited(s, requestId, timeoutMs, now);
            if requestId in s.requests then s' == s
            else && s'.waits == s.waits + [Wait(requestId, now + timeoutMs)] && s'.outcomes == s.outcomes
                 && Pending(s', |s.waits|) && s'.requests[requestId].timer in s'.timers
                 && s'.timers[s'.requests[requestId].timer] == Timer(requestId, |s.waits|, now + timeoutMs)
                 && (forall w: nat | w < |s.waits| :: Pending(s', w) <==> Pending(s, w))
  {
    WaitKeepsInv(s, requestId, timeoutMs, now);
  }

  /** Only promise `wait` has been settled, with this outcome. */
  ghost predicate SettlesOnly(s: State, s': State, wait: nat, outcome: Outcome) {
    && s'.waits == s.waits && wait < |s.waits|
    && Pending(s, wait) && s'.outcomes == s.outcomes[wait := outcome]
    && (forall w: nat | w < |s.waits| :: Pending(s', w) <==> Pending(s, w) && w != wait)
  }

  /** An answer resolves the promise that is pending under its request id, with the whole of it, and no other; an
      answer to nothing pending changes nothing. */
  lemma SettleDecides(s: State, response: BridgeResponse)
    requires Inv(s)
    ensures var s' := Settled(s, response);
            if response.requestId in s.requests
            then SettlesOnly(s, s', s.requests[response.requestId].wait, Answered(response))
            else s' == s
  {
    if response.requestId in s.requests {
      ResolvedLeavesOthers(s, response.requestId, Answered(response));
      ResolvedKeepsInv(s, response.requestId, Answered(response));
    }
  }

  /** A live timer times out the promise it was armed for, and no other; a cleared one does nothing. */
  lemma FireDecides(s: State, timer: nat)
    requires Inv(s)
    ensures if timer in s.timers then SettlesOnly(s, Fired(s, timer), s.timers[timer].wait, TimedOut)
            else Fired(s, timer) == s
  {
    if timer in s.timers {
      FireRemovesItsOwnEntry(s, timer);
      FiredIsResolved(s, timer);
    }
  }

  /** The timer that a wait arms settles the promise of that wait. */
  lemma OwnTimerSettles(s: State, requestId: string, timeoutMs: nat, now: int)
    requires Inv(s) && requestId !in s.requests
    ensures var s' := Waited(s, requestId, timeoutMs, now);
            requestId in s'.requests && |s.waits| in Fired(s', s'.requests[requestId].timer).outcomes
  {
    var s' := Waited(s, requestId, timeoutMs, now);
    WaitAddsOne(s, requestId, timeoutMs, now);
    StepKeepsInv(s, WaitCalled(requestId, timeoutMs, now));
    FireDecides(s', s'.requests[requestId].timer);
  }

  /** How a promise came to be settled. */
  ghost predicate Caused(outcome: Outcome, events: seq<Event>) {
    match outcome
    case Answered(response) => SettleCalled(response) in events
    case TimedOut => exists timer :: TimerFires(timer) in events
    case Disconnected => RejectAllCalled in events
  }

  /** Outcomes stand, except that this one may have been reached. */
  ghost predicate Reaches(s: State, s': State, outcome: Outcome) {
    forall w <- s'.outcomes :: s'.outcomes[w] == outcome || (w in s.outcomes && s'.outcomes[w] == s.outcomes[w])
  }

  lemma SettlingReaches(s: State, response: BridgeResponse)
    ensures Reaches(s, Settled(s, response), Answered(response))
  {
  }

  lemma FiringReaches(s: State, timer: nat)
    ensures Reaches(s, Fired(s, timer), TimedOut)
  {
  }

  lemma RejectingReaches(s: State)
    ensures Reaches(s, RejectedAll(s), Disconnected)
  {
  }

  lemma StepIsCaused(s: State, e: Event, wait: nat)
    requires wait in Step(s, e).outcomes
    ensures var outcome := Step(s, e).outcomes[wait];
            (wait in s.outcomes && s.outcomes[wait] == outcome) || Caused(outcome, [e])
  {
    match e
    case WaitCalled(_, _, _) =>
    case SettleCalled(response) => SettlingReaches(s, response);
    case TimerFires(timer) =>
      FiringReaches(s, timer);
      assert e in [e];
    case RejectAllCalled => RejectingReaches(s);
  }

  lemma CausedLater(outcome: Outcome, events: seq<Event>, e: Event)
    requires Caused(outcome, events) || Caused(outcome, [e])
    ensures Caused(outcome, events + [e])
  {
    assert forall x :: x in events + [e] <==> x in events || x in [e];
    if outcome.TimedOut? {
      var timer :| TimerFires(timer) in events || TimerFires(timer) in [e];
      assert TimerFires(timer) in events + [e];
    }
  }

  lemma {:induction false} RunSnoc(s: State, events: seq<Event>, e: Event)
    ensures Run(s, events + [e]) == Step(Run(s, events), e)
    decreases |events|
  {
    if events == [] {
      assert [] + [e] == [e] && [e][1..] == [];
    } else {
      assert (events + [e])[1..] == events[1..] + [e];
      RunSnoc(Step(s, events[0]), events[1..], e);
    }
  }

  /** Over every run, a promise was answered only with a response that was received, timed out only when a timer
      fired, and was disconnected only by a `rejectAll`. */
  lemma {:induction false} OutcomesAreCaused(events: seq<Event>, wait: nat)
    requires wait in Run(INITIAL, events).outcomes
    ensures Caused(Run(INITIAL, events).outcomes[wait], events)
    decreases |events|
  {
    if events != [] {
      var init, last := events[..|events| - 1], events[|events| - 1];
      assert events == init + [last];
      RunSnoc(INITIAL, init, last);
      StepIsCaused(Run(INITIAL, init), last, wait);
      if wait in Run(INITIAL, init).outcomes {
        OutcomesAreCaused(init, wait);
      }
      CausedLater(Run(INITIAL, events).outcomes[wait], init, last);
    }
  }
}
