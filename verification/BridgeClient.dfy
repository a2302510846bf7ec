// The reconnecting client in the browser: its current socket, its retry timer, and its backoff.
module BridgeClient {
  import opened Common

  // ---- Backoff ----

  const INITIAL_MS: nat := 1000
  const MAXIMUM_MS: nat := 30000

  function Power2(n: nat): (p: nat)
    ensures p >= 1
  {
    if n == 0 then 1 else 2 * Power2(n - 1)
  }

  function Base(attempt: nat): nat {
    var grown := INITIAL_MS * Power2(attempt);
    if grown < MAXIMUM_MS then grown else MAXIMUM_MS
  }

  /** `random` is drawn from [0, 1); `Math.round` rounds halves up. */
  function Delay(attempt: nat, random: real): int
    requires 0.0 <= random < 1.0
  {
    (Base(attempt) as real * (0.8 + random * 0.4) + 0.5).Floor
  }

  /** Every delay lies between 800 ms and 36 s, for any attempt count. */
  lemma DelayIsBounded(attempt: nat, random: real)
    requires 0.0 <= random < 1.0
    ensures 800 <= Delay(attempt, random) <= 36000
  {
    var base, factor := Base(attempt) as real, 0.8 + random * 0.4;
    assert 1000.0 <= base <= 30000.0;
    assert base * factor >= 1000.0 * factor;
    assert base * factor <= 30000.0 * factor;
  }

  /** The delay is the base delay, spread evenly by a fifth to either side and rounded to the nearest millisecond. */
  lemma DelayIsSpread(attempt: nat, random: real)
    requires 0.0 <= random < 1.0
    ensures var exact := Base(attempt) as real * (1.0 + (random - 0.5) * 0.4);
            exact - 0.5 < Delay(attempt, random) as real <= exact + 0.5
    ensures Delay(attempt, 0.5) == Base(attempt)
  {
    var base := Base(attempt) as real;
    assert base * (1.0 + (random - 0.5) * 0.4) == base * (0.8 + random * 0.4);
    assert base * (0.8 + 0.5 * 0.4) == base;
  }

  lemma {:induction false} Power2Grows(n: nat)
    requires n >= 5
    ensures Power2(n) >= 32
  {
    if n == 5 {
      assert Power2(2) == 4;
      assert Power2(4) == 16;
    } else {
      Power2Grows(n - 1);
    }
  }

  /** The base delay doubles from one second until, from the sixth attempt on, it stays at the maximum. */
  lemma BaseDoublesThenStays(attempt: nat)
    ensures Base(0) == 1000 && (attempt < 4 ==> Base(attempt + 1) == 2 * Base(attempt))
    ensures attempt >= 5 ==> Base(attempt) == 30000
  {
    if attempt >= 5 {
      Power2Grows(attempt);
    } else {
      assert Power2(2) == 4;
      assert Power2(4) == 16;
      assert Power2(3) == 8;
    }
  }

  class ReconnectBackoff {
    var attempt: nat

    constructor ()
      ensures attempt == 0
    {
      attempt := 0;
    }

    method Next(random: real) returns (delay: int)
      requires 0.0 <= random < 1.0
      modifies this
      ensures attempt == old(attempt) + 1 && delay == Delay(old(attempt), random) && 800 <= delay <= 36000
    {
      DelayIsBounded(attempt, random);
      delay := (Base(attempt) as real * (0.8 + random * 0.4) + 0.5).Floor;
      attempt := attempt + 1;
    }

    method Reset()
      modifies this
      ensures attempt == 0
    {
      attempt := 0;
    }
  }

  // ---- The client ----

  /** `Live` is a socket on which `close()` was never called and whose close event has not come. */
  datatype Ready = Live | Closing | Closed

  /** `timer` is the field of the program, `armed` the timers that may still fire. */
  datatype State = State(
    sockets: map<nat, Ready>,
    current: Option<nat>,
    stopped: bool,
    timer: Option<nat>,
    armed: set<nat>,
    nextSocket: nat,
    nextTimer: nat)

  const INITIAL := State(map[], None, false, None, {}, 0, 0)

  /** `able`: the user is a GM and the settings name an allowed address. */
  function Connected(s: State, able: bool): State {
    if s.stopped || !able then s
    else s.(sockets := s.sockets[s.nextSocket := Live], current := Some(s.nextSocket), nextSocket := s.nextSocket + 1)
  }

  function HandleClose(s: State, socket: nat): State {
    if s.current != Some(socket) then s
    else if s.stopped then s.(current := None)
    else s.(current := None, timer := Some(s.nextTimer), armed := s.armed + {s.nextTimer}, nextTimer := s.nextTimer + 1)
  }

  /** `close()` on the current socket; some sockets deliver their close event before the call returns. */
  function CloseCurrent(s: State, atOnce: bool): State {
    if s.current.None? || s.current.value !in s.sockets then s
    else if atOnce then HandleClose(s.(sockets := s.sockets[s.current.value := Closed]), s.current.value)
    else
      var ready := s.sockets[s.current.value];
      s.(sockets := s.sockets[s.current.value := if ready.Live? then Closing else ready])
  }

  function Started(s: State, able: bool): State {
    Connected(s.(stopped := false), able)
  }

  function Stopped(s: State, atOnce: bool): State {
    var armed := if s.timer.Some? then s.armed - {s.timer.value} else s.armed;
    var quiet := s.(stopped := true, timer := None, armed := armed);
    CloseCurrent(quiet, atOnce).(current := None)
  }

  function Restarted(s: State, able: bool, atOnce: bool): State {
    Started(Stopped(s, atOnce), able)
  }

  datatype Event =
    | Stops(atOnce: bool)
    | Restarts(able: bool, atOnce: bool)
    | SocketCloses(socket: nat)
    | TimerFires(timer: nat, able: bool)
    | ClosesCurrent(atOnce: bool)

  function Step(s: State, e: Event): State {
    match e
    case Stops(atOnce) => Stopped(s, atOnce)
    case Restarts(able, atOnce) => Restarted(s, able, atOnce)
    case SocketCloses(socket) =>
      if socket in s.sockets && !s.sockets[socket].Closed?
      then HandleClose(s.(sockets := s.sockets[socket := Closed]), socket) else s
    case TimerFires(timer, able) => if timer in s.armed then Connected(s.(armed := s.armed - {timer}), able) else s
    case ClosesCurrent(atOnce) => CloseCurrent(s, atOnce)
  }

  function Run(s: State, events: seq<Event>): State
    decreases |events|
  {
    if events == [] then s else Run(Step(s, events[0]), events[1..])
  }

  class Client {
    const backoff: ReconnectBackoff
    var sockets: map<nat, Ready>
    var current: Option<nat>
    var stopped: bool
    var timer: Option<nat>
    var armed: set<nat>
    var nextSocket: nat
    var nextTimer: nat

    ghost function View(): State
      reads this
    {
      State(sockets, current, stopped, timer, armed, nextSocket, nextTimer)
    }

    constructor ()
      ensures View() == INITIAL && fresh(backoff) && backoff.attempt == 0
    {
      backoff := new ReconnectBackoff();
      sockets, current, stopped, timer, armed, nextSocket, nextTimer := map[], None, false, None, {}, 0, 0;
    }

    method Connect(able: bool)
      modifies this
      ensures View() == Connected(old(View()), able)
    {
      if stopped || !able {
        return;
      }
      sockets := sockets[nextSocket := Live];
      current := Some(nextSocket);
      nextSocket := nextSocket + 1;
    }

    method Start(able: bool)
      modifies this
      ensures View() == Started(old(View()), able)
    {
      stopped := false;
      Connect(able);
    }

    /** The listener of a close event; it answers with the delay of the retry it scheduled, if any. */
    method OnClose(socket: nat, random: real) returns (delay: Option<int>)
      requires 0.0 <= random < 1.0
      modifies this, backoff
      ensures View() == HandleClose(old(View()), socket)
      ensures delay.Some? <==> old(current) == Some(socket) && !stopped
      ensures backoff.attempt == old(backoff.attempt) + if delay.Some? then 1 else 0
      ensures delay.Some? ==> delay.value == Delay(old(backoff.attempt), random) && 800 <= delay.value <= 36000
    {
      if current != Some(socket) {
        return None;
      }
      current := None;
      if stopped {
        return None;
      }
      var ms := backoff.Next(random);
      timer := Some(nextTimer);
      armed := armed + {nextTimer};
      nextTimer := nextTimer + 1;
      return Some(ms);
    }

    /** `this.socket?.close()`. */
    method Close(atOnce: bool, random: real) returns (delay: Option<int>)
      requires 0.0 <= random < 1.0
      modifies this, backoff
      ensures View() == CloseCurrent(old(View()), atOnce)
      ensures stopped ==> backoff.attempt == old(backoff.attempt)
      ensures delay.Some? ==> 800 <= delay.value <= 36000
    {
      if current.None? || current.value !in sockets {
        return None;
      }
      if atOnce {
        sockets := sockets[current.value := Closed];
        delay := OnClose(current.value, random);
      } else {
        if sockets[current.value].Live? {
          sockets := sockets[current.value := Closing];
        }
        delay := None;
      }
    }

    method Stop(atOnce: bool)
      modifies this, backoff
      ensures View() == Stopped(old(View()), atOnce)
      ensures backoff.attempt == old(backoff.attempt)
    {
      stopped := true;
      if timer.Some? {
        armed := armed - {timer.value};
      }
      timer := None;
      var delay := Close(atOnce, 0.0);
      current := None;
    }

    method Restart(able: bool, atOnce: bool)
      modifies this, backoff
      ensures View() == Restarted(old(View()), able, atOnce)
      ensures backoff.attempt == 0
    {
      Stop(atOnce);
      backoff.Reset();
      Start(able);
    }
  }

  // ---- Invariant ----

  ghost predicate Inv(s: State) {
    && !(s.current.Some? && s.armed != {})
    && (forall t <- s.armed :: s.timer == Some(t))
    && (forall id <- s.sockets :: s.sockets[id].Live? ==> s.current == Some(id))
    && (s.stopped ==> s.current == None && s.armed == {})
    && (s.current.Some? ==> s.current.value in s.sockets)
    && (forall id <- s.sockets :: id < s.nextSocket)
  }

  /** Unless stopped, the client is connected (or closing) or has a retry coming, provided it was always able to
      connect. */
  ghost predicate KeepsTrying(s: State) {
    !s.stopped ==> s.current.Some? || s.armed != {}
  }

  predicate AlwaysAble(e: Event) {
    (e.Restarts? ==> e.able) && (e.TimerFires? ==> e.able)
  }

  lemma StoppedKeepsInv(s: State, atOnce: bool)
    requires Inv(s)
    ensures Inv(Stopped(s, atOnce)) && Stopped(s, atOnce).stopped
    ensures Stopped(s, atOnce).sockets.Keys == s.sockets.Keys
  {
  }

  lemma StepKeepsInv(s: State, e: Event)
    requires Inv(s)
    ensures Inv(Step(s, e))
    ensures KeepsTrying(s) && AlwaysAble(e) ==> KeepsTrying(Step(s, e))
  {
  }

  lemma {:induction false} RunKeepsInv(s: State, events: seq<Event>)
    requires Inv(s)
    ensures Inv(Run(s, events))
    ensures KeepsTrying(s) && (forall e <- events :: AlwaysAble(e)) ==> KeepsTrying(Run(s, events))
    decreases |events|
  {
    if events != [] {
      StepKeepsInv(s, events[0]);
      RunKeepsInv(Step(s, events[0]), events[1..]);
    }
  }

  /** From one start on, through any restarts, stops, timer fires and close events however delivered: never a current
      socket and a live timer together, every other socket has been closed, and nothing is left after a stop. */
  lemma OneStartIsSafe(able: bool, events: seq<Event>)
    ensures Inv(Run(Started(INITIAL, able), events))
    ensures able && (forall e <- events :: AlwaysAble(e)) ==> KeepsTrying(Run(Started(INITIAL, able), events))
  {
    RunKeepsInv(Started(INITIAL, able), events);
  }

  /** `start` itself has no guard: called again it keeps the invariant exactly when it cannot connect, or no retry is
      coming and any current socket is already closing. */
  lemma SecondStartIsSafeIff(s: State, able: bool)
    requires Inv(s)
    ensures Inv(Started(s, able)) <==>
              !able || (s.armed == {} && (s.current.Some? ==> !s.sockets[s.current.value].Live?))
  {
  }

  /** Called twice in a row, `start` leaves a socket behind that nobody closed. */
  lemma SecondStartLeavesALiveSocket()
    ensures var s := Started(Started(INITIAL, true), true);
            s.sockets == map[0 := Live, 1 := Live] && s.current == Some(1) && !Inv(s)
  {
    SecondStartIsSafeIff(Started(INITIAL, true), true);
  }

  // ---- What each event does ----

  /** The client lost its current socket: it has none now, and unless stopped exactly one retry is coming. */
  ghost predicate AwaitsRetry(s: State, s': State) {
    && s'.current == None && s'.stopped == s.stopped && s'.nextSocket == s.nextSocket
    && (s.stopped ==> s'.timer == s.timer && s'.armed == {})
    && (!s.stopped ==> s'.timer.Some? && s'.armed == {s'.timer.value})
  }

  /** A close event counts once for each socket, and only the one of the current socket schedules a retry. */
  lemma CloseEventDecides(s: State, socket: nat)
    requires Inv(s) && socket in s.sockets
    ensures var s' := Step(s, SocketCloses(socket));
            && (s.sockets[socket] == Closed ==> s' == s)
            && (s.sockets[socket] != Closed ==> s'.sockets == s.sockets[socket := Closed])
            && (s.sockets[socket] != Closed && s.current == Some(socket) ==> AwaitsRetry(s, s'))
            && (s.current != Some(socket) ==> s' == s.(sockets := s'.sockets))
  {
  }

  /** Closing the current socket leaves it current until its close event, which may come at once. */
  lemma CloseDecides(s: State, atOnce: bool)
    requires Inv(s)
    ensures var s' := Step(s, ClosesCurrent(atOnce));
            && (s.current == None ==> s' == s)
            && (s.current.Some? && !atOnce ==> s' == s.(sockets := s'.sockets))
            && (s.current.Some? && !atOnce && s.sockets[s.current.value] == Live ==>
                  s'.sockets == s.sockets[s.current.value := Closing])
            && (s.current.Some? && atOnce ==>
                  s'.sockets == s.sockets[s.current.value := Closed] && AwaitsRetry(s, s'))
  {
  }

  /** The retry makes one new socket, which is live and current, exactly when the client may connect; a timer that was
      cleared or has fired does nothing. */
  lemma RetryDecides(s: State, timer: nat, able: bool)
    requires Inv(s)
    ensures var s' := Step(s, TimerFires(timer, able));
            && (timer !in s.armed ==> s' == s)
            && (timer in s.armed ==> s'.armed == {} && !s'.stopped)
            && (timer in s.armed && !able ==> s'.sockets == s.sockets && s'.current == None)
            && (timer in s.armed && able ==> s.nextSocket !in s.sockets && s'.current == Some(s.nextSocket)
                                             && s'.sockets == s.sockets[s.nextSocket := Live])
  {
  }

  /** A stop closes the current socket and disarms the retry; a restart then makes one new socket if it may. */
  lemma StopAndRestartDecide(s: State, able: bool, atOnce: bool)
    requires Inv(s)
    ensures var s' := Step(s, Stops(atOnce));
            && s'.stopped && s'.current == None && s'.armed == {} && s'.timer == None
            && (forall id <- s.sockets :: s'.sockets[id] == if s.current == Some(id) && atOnce then Closed
                  else if s.sockets[id] == Live then Closing else s.sockets[id])
            && var s'' := Step(s, Restarts(able, atOnce));
            && !s''.stopped && s''.armed == {} && s.nextSocket !in s.sockets
            && (able ==> s''.current == Some(s.nextSocket) && s''.sockets == s'.sockets[s.nextSocket := Live])
            && (!able ==> s''.current == None && s''.sockets == s'.sockets)
  {
  }

  /** Whenever a running client loses its socket, the timer this arms brings it a new one. */
  lemma LostSocketIsReplaced(s: State, socket: nat)
    requires Inv(s) && !s.stopped && s.current == Some(socket) && s.sockets[socket] != Closed
    ensures var lost := Step(s, SocketCloses(socket));
            && lost.timer.Some?
            && var s' := Run(s, [SocketCloses(socket), TimerFires(lost.timer.value, true)]);
            && s'.current == Some(s.nextSocket) && s'.sockets == s.sockets[socket := Closed][s.nextSocket := Live]
            && s'.armed == {}
  {
    var lost := Step(s, SocketCloses(socket));
    StepKeepsInv(s, SocketCloses(socket));
    var fires := TimerFires(lost.timer.value, true);
    assert [SocketCloses(socket), fires][1..] == [fires];
    assert Run(lost, [fires]) == Run(Step(lost, fires), []);
  }

  // ---- Late close events ----

  /** The two states agree on everything but what has become of a socket that is no longer current. */
  ghost predicate AgreeBut(a: State, b: State, socket: nat) {
    && a == b.(sockets := a.sockets)
    && (forall id :: id in a.sockets <==> id in b.sockets)
    && (forall id :: id in a.sockets && id != socket ==> a.sockets[id] == b.sockets[id])
    && b.current != Some(socket) && socket < b.nextSocket
  }

  lemma ClosingAgreesBut(a: State, b: State, socket: nat, atOnce: bool)
    requires AgreeBut(a, b, socket)
    ensures AgreeBut(CloseCurrent(a, atOnce), CloseCurrent(b, atOnce), socket)
  {
  }

  lemma CloseEventsAgreeBut(a: State, b: State, socket: nat, closing: nat)
    requires AgreeBut(a, b, socket)
    ensures AgreeBut(Step(a, SocketCloses(closing)), Step(b, SocketCloses(closing)), socket)
  {
  }

  lemma StopsAgreeBut(a: State, b: State, socket: nat, atOnce: bool)
    requires AgreeBut(a, b, socket)
    ensures AgreeBut(Stopped(a, atOnce), Stopped(b, atOnce), socket)
  {
    var armed := if a.timer.Some? then a.armed - {a.timer.value} else a.armed;
    ClosingAgreesBut(a.(stopped := true, timer := None, armed := armed),
                     b.(stopped := true, timer := None, armed := armed), socket, atOnce);
  }

  lemma StepsAgreeBut(a: State, b: State, socket: nat, e: Event)
    requires AgreeBut(a, b, socket)
    ensures AgreeBut(Step(a, e), Step(b, e), socket)
  {
    match e
    case Stops(atOnce) => StopsAgreeBut(a, b, socket, atOnce);
    case Restarts(able, atOnce) => StopsAgreeBut(a, b, socket, atOnce);
    case SocketCloses(closing) => CloseEventsAgreeBut(a, b, socket, closing);
    case TimerFires(timer, able) =>
    case ClosesCurrent(atOnce) => ClosingAgreesBut(a, b, socket, atOnce);
  }

  lemma {:induction false} RunsAgreeBut(a: State, b: State, socket: nat, events: seq<Event>)
    requires AgreeBut(a, b, socket)
    ensures AgreeBut(Run(a, events), Run(b, events), socket)
    decreases |events|
  {
    if events != [] {
      StepsAgreeBut(a, b, socket, events[0]);
      RunsAgreeBut(Step(a, events[0]), Step(b, events[0]), socket, events[1..]);
    }
  }

  /** The close event of a socket that is no longer current changes nothing in the client's future: whatever follows,
      the same sockets are made and the same timers armed as without it. */
  lemma LateCloseIsInvisible(s: State, socket: nat, events: seq<Event>)
    requires Inv(s) && socket in s.sockets && s.current != Some(socket)
    ensures !s.sockets[socket].Live?
    ensures AgreeBut(Run(Step(s, SocketCloses(socket)), events), Run(s, events), socket)
  {
    RunsAgreeBut(Step(s, SocketCloses(socket)), s, socket, events);
  }

  /** Once stopped, nothing but a restart creates a socket or arms a timer. */
  lemma {:induction false} StoppedStaysQuiet(s: State, events: seq<Event>)
    requires Inv(s) && s.stopped && forall e <- events :: !e.Restarts?
    ensures var s' := Run(s, events);
            s'.stopped && s'.sockets.Keys == s.sockets.Keys && s'.current == None && s'.armed == {}
    decreases |events|
  {
    if events != [] {
      assert events[0] in events;
      StepKeepsInv(s, events[0]);
      if events[0].Stops? {
        StoppedKeepsInv(s, events[0].atOnce);
      }
      StoppedStaysQuiet(Step(s, events[0]), events[1..]);
    }
  }
}
