// The headless browser supervisor: its asynchronous loop cut at every `await`, and `stop` running beside it.
module Supervisor {
  import opened Common

  datatype Status = StoppedStatus | Starting | Authenticating | WaitingForBridge | Connected | Retrying

  /** Where the loop is suspended. `BridgeUp` and `BridgeFailed` are the settled `waitForBridge`; `Closing` is the
      `finally` block, entered by a `break` or not. */
  datatype Phase =
    | Off
    | Preparing
    | BridgeSleep
    | BridgeUp
    | BridgeFailed
    | ConnectedSleep
    | Closing(broken: bool)
    | RetrySleep
    | Exited

  /** Where `stop` is suspended: closing a browser, or awaiting the loop. */
  datatype Stopping = NotStopping | ClosingBrowser(browser: Option<nat>) | AwaitingLoop

  /** `open` holds the browsers created and not yet closed; `aborted` is the signal of the sleep in progress.
      `sawSession`, `created` and `sleeps` are history: a session seen in this round, browsers made, sleeps begun. */
  datatype State = State(
    phase: Phase,
    stopping: Stopping,
    stopped: bool,
    status: Status,
    browser: Option<nat>,
    open: set<nat>,
    aborted: bool,
    sawSession: bool,
    created: nat,
    sleeps: nat)

  const INITIAL := State(Off, NotStopping, false, StoppedStatus, None, {}, false, false, 0, 0)

  /** What the world answers when the loop goes on: the awaited call succeeded, a session is active, the grace period
      still runs, and the next browser can be created. */
  datatype World = World(ok: bool, active: bool, inTime: bool, creates: bool)

  datatype Event =
    | Starts(world: World)
    | Stops
    | StopClosedBrowser
    | StopFinishes
    | Advances(world: World)

  predicate Sleeping(phase: Phase) {
    phase.BridgeSleep? || phase.ConnectedSleep? || phase.RetrySleep?
  }

  function Sleep(s: State, phase: Phase): State {
    s.(phase := phase, aborted := false, sleeps := s.sleeps + 1)
  }

  /** The `catch` block. */
  function Caught(s: State): State {
    if s.stopped then s.(phase := Closing(true)) else s.(phase := Closing(false), status := Retrying)
  }

  /** The head of the loop. */
  function Round(s: State, w: World): State {
    if s.stopped then s.(phase := Exited) else
      var round := s.(status := Authenticating, sawSession := false);
      if w.creates then round.(phase := Preparing, browser := Some(s.created), open :=
         s.open + {s.created}, created := s.created + 1)
      else Caught(round)
  }

  /** The test of the loop in `waitForBridge`. */
  function AwaitBridge(s: State, w: World): State {
    if s.stopped then s.(phase := BridgeUp)
    else if !w.inTime then s.(phase := BridgeFailed)
    else if w.active then s.(phase := BridgeUp, sawSession := true)
    else Sleep(s, BridgeSleep)
  }

  /** The test of the loop that watches a connected session. */
  function WatchSession(s: State, w: World): State {
    if s.stopped then s.(phase := Closing(false))
    else if w.active then Sleep(s, ConnectedSleep)
    else Caught(s)
  }

  function Advanced(s: State, w: World): State {
    match s.phase
    case Off => s
    case Exited => s
    case Preparing => if w.ok then AwaitBridge(s.(status := WaitingForBridge), w) else Caught(s)
    case BridgeSleep => AwaitBridge(s, w)
    case BridgeFailed => Caught(s)
    case BridgeUp => if s.stopped then s.(phase := Closing(true)) else WatchSession(s.(status := Connected), w)
    case ConnectedSleep => WatchSession(s, w)
    case Closing(broken) =>
      var closed := s.(browser := None, open := if s.browser.Some? then s.open - {s.browser.value} else s.open);
      if broken then closed.(phase := Exited)
      else if s.stopped then Round(closed, w)
      else Sleep(closed, RetrySleep)
    case RetrySleep => Round(s, w)
  }

  function Step(s: State, e: Event): State {
    match e
    case Starts(w) =>
      if s.phase != Off || s.stopping != NotStopping then s else Round(s.(stopped := false, status := Starting), w)
    case Stops =>
      if s.stopping != NotStopping then s
      else s.(stopped := true, aborted := Sleeping(s.phase) || s.aborted, stopping := ClosingBrowser(s.browser))
    case StopClosedBrowser =>
      if !s.stopping.ClosingBrowser? then s
      else s.(stopping := AwaitingLoop, open := if s.stopping.browser.Some? then s.open - {s.stopping.browser.value}
        else s.open)
    case StopFinishes =>
      if s.stopping.AwaitingLoop? && (s.phase == Exited || s.phase == Off)
      then s.(phase := Off, stopping := NotStopping, status := StoppedStatus) else s
    case Advances(w) => Advanced(s, w)
  }

  function Run(s: State, events: seq<Event>): State
    decreases |events|
  {
    if events == [] then s else Run(Step(s, events[0]), events[1..])
  }

  // ---- Invariant ----

  /** At most one browser is open, and it is the one the loop works with. */
  ghost predicate OneBrowser(s: State) {
    && (forall b <- s.open :: s.browser == Some(b))
    && (s.browser.Some? ==> s.browser.value < s.created)
    && (s.browser.Some? ==> !s.phase.Off? && !s.phase.RetrySleep? && !s.phase.Exited?)
  }

  ghost predicate Inv(s: State) {
    && OneBrowser(s)
    && (s.status.Connected? ==> s.sawSession)
    && (s.phase.ConnectedSleep? ==> s.sawSession)
    && (s.phase.BridgeUp? ==> s.sawSession || s.stopped)
    && (!s.stopping.NotStopping? ==> s.stopped)
    && (s.stopped && Sleeping(s.phase) ==> s.aborted)
    && (s.phase.Exited? || s.phase == Closing(true) ==> s.stopped)
  }

  lemma RoundKeepsInv(s: State, w: World)
    requires Inv(s) && s.browser == None && s.open == {}
    ensures Inv(Round(s, w))
  {
  }

  lemma AwaitKeepsInv(s: State, w: World)
    requires Inv(s) && (s.phase.Preparing? || s.phase.BridgeSleep?)
    ensures Inv(AwaitBridge(s, w))
  {
  }

  lemma WatchKeepsInv(s: State, w: World)
    requires Inv(s) && (s.phase.BridgeUp? || s.phase.ConnectedSleep?) && (s.sawSession || s.stopped)
    ensures Inv(WatchSession(s, w))
  {
  }

  lemma ClosingKeepsInv(s: State, w: World)
    requires Inv(s) && s.phase.Closing?
    ensures Inv(Advanced(s, w))
  {
    var closed := s.(browser := None, open := if s.browser.Some? then s.open - {s.browser.value} else s.open);
    assert closed.open == {};
    if !s.phase.broken && s.stopped {
      RoundKeepsInv(closed, w);
    }
  }

  lemma AdvanceKeepsInv(s: State, w: World)
    requires Inv(s)
    ensures Inv(Advanced(s, w))
  {
    match s.phase
    case Off =>
    case Exited =>
    case Preparing =>
      if w.ok {
        AwaitKeepsInv(s.(status := WaitingForBridge), w);
      }
    case BridgeSleep => AwaitKeepsInv(s, w);
    case BridgeFailed =>
    case BridgeUp =>
      if !s.stopped {
        WatchKeepsInv(s.(status := Connected), w);
      }
    case ConnectedSleep => WatchKeepsInv(s, w);
    case Closing(broken) => ClosingKeepsInv(s, w);
    case RetrySleep =>
      assert s.open == {};
      RoundKeepsInv(s, w);
  }

  lemma StopKeepsInv(s: State, e: Event)
    requires Inv(s) && (e.Stops? || e.StopClosedBrowser? || e.StopFinishes?)
    ensures Inv(Step(s, e))
  {
  }

  lemma StepKeepsInv(s: State, e: Event)
    requires Inv(s)
    ensures Inv(Step(s, e))
  {
    match e
    case Starts(w) =>
      if s.phase == Off && s.stopping == NotStopping {
        assert s.open == {};
        RoundKeepsInv(s.(stopped := false, status := Starting), w);
      }
    case Advances(w) => AdvanceKeepsInv(s, w);
    case Stops => StopKeepsInv(s, e);
    case StopClosedBrowser => StopKeepsInv(s, e);
    case StopFinishes => StopKeepsInv(s, e);
  }

  lemma {:induction false} RunKeepsInv(s: State, events: seq<Event>)
    requires Inv(s)
    ensures Inv(Run(s, events))
    decreases |events|
  {
    if events != [] {
      StepKeepsInv(s, events[0]);
      RunKeepsInv(Step(s, events[0]), events[1..]);
    }
  }

  /** Through any interleaving of the loop with starts and stops: one browser at most, "connected" only in a round that
      saw an active session, and a stopped loop found sleeping has had its sleep aborted. */
  lemma EveryRunIsSafe(events: seq<Event>)
    ensures var s := Run(INITIAL, events);
            && |s.open| <= 1 && (forall b <- s.open :: s.browser == Some(b))
            && (s.status.Connected? ==> s.sawSession)
            && (s.stopped && s.phase in {BridgeSleep, ConnectedSleep, RetrySleep} ==> s.aborted)
  {
    RunKeepsInv(INITIAL, events);
    var s := Run(INITIAL, events);
    if s.open != {} {
      assert s.open == {s.browser.value};
    }
  }

  /** A browser is created only when every earlier one has been closed. */
  lemma CreatesOnlyAfterClosing(events: seq<Event>, e: Event)
    requires var s := Run(INITIAL, events); Step(s, e).created > s.created
    ensures var s := Run(INITIAL, events);
            && s.open == {} && !Step(s, e).stopped
            && Step(s, e).open == {s.created} && Step(s, e).browser == Some(s.created)
  {
    var s := Run(INITIAL, events);
    RunKeepsInv(INITIAL, events);
    assert s.browser == None;
    assert s.open == {};
  }

  // ---- Stopping ----

  /** How many more times the loop of a stopped supervisor can go on. */
  function Rank(phase: Phase): nat {
    match phase
    case Preparing => 4
    case BridgeSleep => 4
    case BridgeUp => 3
    case BridgeFailed => 3
    case ConnectedSleep => 3
    case Closing(broken) => 2
    case RetrySleep => 1
    case Exited => 0
    case Off => 0
  }

  function AdvanceCount(events: seq<Event>): nat {
    if events == [] then 0 else (if events[0].Advances? then 1 else 0) + AdvanceCount(events[1..])
  }

  lemma StoppedStepWindsDown(s: State, e: Event)
    requires Inv(s) && s.stopped && !e.Starts?
    ensures var s' := Step(s, e);
            && s'.stopped && s'.created == s.created && s'.sleeps == s.sleeps && s'.open <= s.open
            && Rank(s'.phase) <= Rank(s.phase)
            && (e.Advances? && Rank(s.phase) > 0 ==> Rank(s'.phase) < Rank(s.phase))
  {
  }

  /** Once `stopped` is set the loop never sleeps again and never creates a browser, and every await it returns from
      brings it closer to its exit: after at most four it has exited, with all browsers closed. */
  lemma {:induction false} StoppedLoopExits(s: State, events: seq<Event>)
    requires Inv(s) && s.stopped && forall e <- events :: !e.Starts?
    ensures var s' := Run(s, events);
            && s'.created == s.created && s'.sleeps == s.sleeps && s'.open <= s.open
            && Rank(s'.phase) <= (if AdvanceCount(events) >= Rank(s.phase) then 0
               else Rank(s.phase) - AdvanceCount(events))
            && (AdvanceCount(events) >= 4 ==> (s'.phase == Exited || s'.phase == Off) && s'.open == {})
    decreases |events|
  {
    if events == [] {
    } else {
      assert events[0] in events;
      StepKeepsInv(s, events[0]);
      StoppedStepWindsDown(s, events[0]);
      StoppedLoopExits(Step(s, events[0]), events[1..]);
      RunKeepsInv(s, events);
    }
  }

  lemma {:induction false} CountsFrom(events: seq<Event>, i: nat)
    requires i < |events| && events[i].Advances?
    ensures AdvanceCount(events) >= 1 + AdvanceCount(events[i + 1..])
    decreases i
  {
    if i > 0 {
      CountsFrom(events[1..], i - 1);
      assert events[1..][i..] == events[i + 1..];
    }
  }

  lemma CountsBetween(events: seq<Event>, from: nat, i: nat)
    requires from <= i < |events| && events[i].Advances?
    ensures AdvanceCount(events[from..]) >= 1 + AdvanceCount(events[i + 1..])
  {
    CountsFrom(events[from..], i - from);
    assert events[from..][i - from + 1..] == events[i + 1..];
  }

  /** The events at these increasing positions are returns from an `await`. */
  ghost predicate ReturnsAt(events: seq<Event>, from: nat, at: seq<nat>) {
    && (forall i :: 0 <= i < |at| ==> from <= at[i] < |events| && events[at[i]].Advances?)
    && (forall i, j :: 0 <= i < j < |at| ==> at[i] < at[j])
  }

  lemma {:induction false} ReturnsAreCounted(events: seq<Event>, from: nat, at: seq<nat>)
    requires from <= |events| && ReturnsAt(events, from, at)
    ensures AdvanceCount(events[from..]) >= |at|
    decreases |at|
  {
    if at != [] {
      ReturnsAreCounted(events, at[0] + 1, at[1..]);
      CountsBetween(events, from, at[0]);
    }
  }

  /** Whatever else happens in between, a stopped loop that has gone on four times has exited. */
  lemma FourReturnsAreEnough(s: State, events: seq<Event>, at: seq<nat>)
    requires Inv(s) && s.stopped && forall e <- events :: !e.Starts?
    requires ReturnsAt(events, 0, at) && |at| >= 4
    ensures var s' := Run(s, events);
            && (s'.phase == Exited || s'.phase == Off) && s'.open == {}
            && s'.created == s.created && s'.sleeps == s.sleeps
  {
    ReturnsAreCounted(events, 0, at);
    assert events[0..] == events;
    StoppedLoopExits(s, events);
  }

  // ---- The class of the program ----

  class HeadlessFoundrySupervisor {
    var phase: Phase
    var stopping: Stopping
    var stopped: bool
    var status: Status
    var browser: Option<nat>
    var open: set<nat>
    var aborted: bool
    var sawSession: bool
    var created: nat
    var sleeps: nat

    ghost function View(): State
      reads this
    {
      State(phase, stopping, stopped, status, browser, open, aborted, sawSession, created, sleeps)
    }

    constructor ()
      ensures View() == INITIAL
    {
      phase, stopping, stopped, status := Off, NotStopping, false, StoppedStatus;
      browser, open, aborted, sawSession, created, sleeps := None, {}, false, false, 0, 0;
    }

    method Catch()
      modifies this
      ensures View() == Caught(old(View()))
    {
      if stopped {
        phase := Closing(true);
      } else {
        status := Retrying;
        phase := Closing(false);
      }
    }

    method BeginRound(world: World)
      modifies this
      ensures View() == Round(old(View()), world)
    {
      if stopped {
        phase := Exited;
        return;
      }
      status := Authenticating;
      sawSession := false;
      if world.creates {
        browser, open, created := Some(created), open + {created}, created + 1;
        phase := Preparing;
      } else {
        Catch();
      }
    }

    method Start(world: World)
      modifies this
      ensures View() == Step(old(View()), Starts(world))
    {
      if phase != Off || stopping != NotStopping {
        return;
      }
      stopped := false;
      status := Starting;
      BeginRound(world);
    }

    method Stop()
      modifies this
      ensures View() == Step(old(View()), Stops)
    {
      if stopping != NotStopping {
        return;
      }
      stopped := true;
      if Sleeping(phase) {
        aborted := true;
      }
      stopping := ClosingBrowser(browser);
    }

    method StopAfterClose()
      requires stopping.ClosingBrowser?
      modifies this
      ensures View() == Step(old(View()), StopClosedBrowser)
    {
      if stopping.browser.Some? {
        open := open - {stopping.browser.value};
      }
      stopping := AwaitingLoop;
    }

    method StopAfterLoop()
      requires stopping.AwaitingLoop? && (phase == Exited || phase == Off)
      modifies this
      ensures View() == Step(old(View()), StopFinishes)
    {
      phase := Off;
      stopping := NotStopping;
      status := StoppedStatus;
    }

    method BeginSleep(next: Phase)
      modifies this
      ensures View() == Sleep(old(View()), next)
    {
      aborted := false;
      sleeps := sleeps + 1;
      phase := next;
    }

    method WaitForBridge(world: World)
      modifies this
      ensures View() == AwaitBridge(old(View()), world)
    {
      if stopped {
        phase := BridgeUp;
      } else if !world.inTime {
        phase := BridgeFailed;
      } else if world.active {
        sawSession := true;
        phase := BridgeUp;
      } else {
        BeginSleep(BridgeSleep);
      }
    }

    method Watch(world: World)
      modifies this
      ensures View() == WatchSession(old(View()), world)
    {
      if stopped {
        phase := Closing(false);
      } else if world.active {
        BeginSleep(ConnectedSleep);
      } else {
        Catch();
      }
    }

    /** The loop goes on from the `await` it is suspended at. */
    method Continue(world: World)
      requires phase != Off && phase != Exited
      modifies this
      ensures View() == Step(old(View()), Advances(world))
    {
      match phase
      case Preparing =>
        if world.ok {
          status := WaitingForBridge;
          WaitForBridge(world);
        } else {
          Catch();
        }
      case BridgeSleep => WaitForBridge(world);
      case BridgeFailed => Catch();
      case BridgeUp =>
        if stopped {
          phase := Closing(true);
        } else {
          status := Connected;
          Watch(world);
        }
      case ConnectedSleep => Watch(world);
      case Closing(broken) =>
        if browser.Some? {
          open := open - {browser.value};
        }
        browser := None;
        if broken {
          phase := Exited;
        } else if stopped {
          BeginRound(world);
        } else {
          BeginSleep(RetrySleep);
        }
      case RetrySleep => BeginRound(world);
    }
  }

  // ---- What the loop decides ----

  ghost predicate SameBrowsers(s: State, s': State) {
    s' == s.(phase := s'.phase, status := s'.status, aborted := s'.aborted, sleeps := s'.sleeps,
      sawSession := s'.sawSession)
  }

  /** A loop that watches a connected session goes on sleeping, with its browser, exactly while the session is active;
      losing it means to close the browser and to retry. */
  lemma WatchingDecides(s: State, w: World)
    requires s.phase == ConnectedSleep && !s.stopped
    ensures var s' := Step(s, Advances(w));
            && SameBrowsers(s, s')
            && (w.active ==> s'.phase == ConnectedSleep && s'.status == s.status)
            && (w.active ==> s'.sleeps == s.sleeps + 1 && !s'.aborted)
            && (!w.active ==> s'.phase == Closing(false) && s'.status == Retrying && s'.sleeps == s.sleeps)
  {
  }

  /** Waiting for the bridge ends well exactly when a session is active before the deadline, badly at the deadline, and
      otherwise goes on with a sleep of its own. */
  lemma WaitingDecides(s: State, w: World)
    requires !s.stopped && (s.phase == BridgeSleep || (s.phase == Preparing && w.ok))
    ensures var s' := Step(s, Advances(w));
            && SameBrowsers(s, s')
            && (s'.phase == BridgeUp <==> w.inTime && w.active) && (s'.phase == BridgeUp ==> s'.sawSession)
            && (s'.phase == BridgeFailed <==> !w.inTime)
            && (s'.phase == BridgeSleep <==> w.inTime && !w.active) && (s'.phase == BridgeSleep ==> !s'.aborted)
            && (s.phase == Preparing ==> s'.status == WaitingForBridge)
  {
  }

  /** A bridge that is up means "connected"; a failed preparation or a missing bridge means to close and to retry. */
  lemma ResultsDecide(s: State, w: World)
    requires !s.stopped
    ensures s.phase == BridgeUp && w.active ==>
              Step(s, Advances(w)).status == Connected && Step(s, Advances(w)).phase == ConnectedSleep
    ensures s.phase == BridgeFailed || (s.phase == Preparing && !w.ok) ==>
              var s' := Step(s, Advances(w));
              s'.status == Retrying && s'.phase == Closing(false) && s'.browser == s.browser
  {
  }

  /** After closing, the browser is gone; the loop sleeps before it tries again, and then makes a new browser if it
      can. The new round has seen no session yet. */
  lemma ClosingDecides(s: State, w: World)
    requires Inv(s) && !s.stopped
    ensures s.phase == Closing(false) ==>
              var s' := Step(s, Advances(w));
              && s'.browser == None && s'.open == {} && s'.created == s.created
              && s'.phase == RetrySleep && s'.sleeps == s.sleeps + 1 && !s'.aborted
    ensures s.phase == RetrySleep ==>
              var s' := Step(s, Advances(w));
              && !s'.sawSession
              && (w.creates ==> s'.phase == Preparing && s'.status == Authenticating && s'.created == s.created + 1)
              && (w.creates ==> s'.browser == Some(s.created) && s'.open == {s.created})
              && (!w.creates ==> s'.phase == Closing(false) && s'.status == Retrying && s'.created == s.created)
  {
    if s.phase == RetrySleep {
      assert s.open == {};
    }
    if s.phase == Closing(false) {
      assert Step(s, Advances(w)).open == {};
    }
  }

  /** A stopped loop goes straight to its exit from wherever it is, through the `finally` block where there is one, and
      closes its browser on the way. It exits by `break`, or by the test of the loop. */
  lemma StoppedDecides(s: State, w: World)
    requires Inv(s) && s.stopped
    ensures var s' := Step(s, Advances(w));
            && s'.stopped
            && ((s.phase == Preparing && w.ok) || s.phase == BridgeSleep ==> s'.phase == BridgeUp)
            && ((s.phase == Preparing && !w.ok) || s.phase == BridgeUp || s.phase == BridgeFailed ==>
                s'.phase == Closing(true) && s'.browser == s.browser && s'.status == s.status)
            && (s.phase == ConnectedSleep ==>
                s'.phase == Closing(false) && s'.browser == s.browser && s'.status == s.status)
            && (s.phase.Closing? ==> s'.phase == Exited && s'.browser == None && s'.open == {})
            && (s.phase == RetrySleep ==> s'.phase == Exited)
  {
    if s.phase.Closing? {
      assert Step(s, Advances(w)).open == {};
    }
  }

  /** As long as the session stays active, a connected supervisor keeps its one browser, through any number of looks. */
  lemma {:induction false} ActiveSessionKeepsBrowser(s: State, events: seq<Event>)
    requires s.phase == ConnectedSleep && !s.stopped && forall e <- events :: e.Advances? && e.world.active
    ensures var s' := Run(s, events);
            && s'.phase == ConnectedSleep && s'.status == s.status
            && s'.browser == s.browser && s'.created == s.created && s'.open == s.open
    decreases |events|
  {
    if events != [] {
      assert events[0] in events;
      WatchingDecides(s, events[0].world);
      ActiveSessionKeepsBrowser(Step(s, events[0]), events[1..]);
    }
  }

  /** A start enters the loop, and a stop closes the browser it finds, waits for the loop and leaves the supervisor as
      new. */
  lemma StartAndStopDecide(s: State, w: World)
    requires Inv(s)
    ensures s.phase == Off && s.stopping == NotStopping && w.creates ==>
              var s' := Step(s, Starts(w));
              !s'.stopped && s'.phase == Preparing && s'.browser == Some(s.created) && s'.status == Authenticating
    ensures s.phase != Off ==> Step(s, Starts(w)) == s
    ensures s.stopping == NotStopping ==>
              var s' := Step(s, Stops);
              && s'.stopped && s'.stopping == ClosingBrowser(s.browser) && s'.phase == s.phase
              && (s.phase in {BridgeSleep, ConnectedSleep, RetrySleep} ==> s'.aborted)
    ensures s.stopping.ClosingBrowser? ==>
              var s' := Step(s, StopClosedBrowser);
              && s'.stopping == AwaitingLoop
              && (s.stopping.browser.Some? ==> s.stopping.browser.value !in s'.open)
    ensures var s' := Step(s, StopFinishes);
            if s.stopping == AwaitingLoop && (s.phase == Exited || s.phase == Off)
            then s'.phase == Off && s'.stopping == NotStopping && s'.status == StoppedStatus else s' == s
  {
  }
}
