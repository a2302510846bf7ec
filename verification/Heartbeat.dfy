// Keeping the bridge alive: the client's heartbeat, and the server's eviction of silent sessions.
module Heartbeat {
  import opened Common
  import opened SessionRegistry
  import B = BridgeServer

  // ---- The client's side ----

  datatype Action = SendPing | Disconnect

  datatype Tick = Tick(at: int, action: Action)

  /** `next` is when the interval timer fires next, if it runs; `ticks` is what it has done so far. */
  datatype Beat = Beat(next: Option<int>, lastServerActivity: int, ticks: seq<Tick>)

  datatype Setting = Setting(intervalMs: nat, timeoutMs: nat)

  const DEFAULT := Setting(20000, 60000)

  datatype Event = Starts(now: int) | Touches(now: int) | Stops(now: int) | Ticks(now: int)

  function Beaten(setting: Setting, b: Beat, e: Event): Beat {
    match e
    case Starts(now) => b.(next := Some(now + setting.intervalMs), lastServerActivity := now)
    case Touches(now) => b.(lastServerActivity := now)
    case Stops(_) => b.(next := None)
    case Ticks(now) =>
      if b.next.None? then b else
        var action := if now - b.lastServerActivity > setting.timeoutMs then Disconnect else SendPing;
        b.(next := Some(b.next.value + setting.intervalMs), ticks := b.ticks + [Tick(now, action)])
  }

  function Live(setting: Setting, b: Beat, events: seq<Event>): Beat
    decreases |events|
  {
    if events == [] then b else Live(setting, Beaten(setting, b, events[0]), events[1..])
  }

  class ClientHeartbeat {
    const setting: Setting
    var next: Option<int>
    var lastServerActivity: int
    var ticks: seq<Tick>

    ghost function View(): Beat
      reads this
    {
      Beat(next, lastServerActivity, ticks)
    }

    constructor (now: int, setting: Setting := DEFAULT)
      ensures View() == Beat(None, now, []) && this.setting == setting
    {
      this.setting, next, lastServerActivity, ticks := setting, None, now, [];
    }

    method Stop(now: int)
      modifies this
      ensures View() == Beaten(setting, old(View()), Stops(now))
    {
      next := None;
    }

    method Start(now: int)
      modifies this
      ensures View() == Beaten(setting, old(View()), Starts(now))
    {
      Stop(now);
      lastServerActivity := now;
      next := Some(now + setting.intervalMs);
    }

    method Touch(now: int)
      modifies this
      ensures View() == Beaten(setting, old(View()), Touches(now))
    {
      lastServerActivity := now;
    }

    /** The callback of the interval timer. */
    method OnInterval(now: int)
      requires next.Some?
      modifies this
      ensures View() == Beaten(setting, old(View()), Ticks(now))
    {
      var action := SendPing;
      if now - lastServerActivity > setting.timeoutMs {
        action := Disconnect;
      }
      ticks := ticks + [Tick(now, action)];
      next := Some(next.value + setting.intervalMs);
    }
  }

  /** The clock does not run backwards, and a running timer fires exactly when it is due: never before, and nothing
      happens later than that without it. */
  ghost predicate Exact(setting: Setting, b: Beat, clock: int, events: seq<Event>)
    decreases |events|
  {
    events == [] ||
    (&& clock <= events[0].now
     && (b.next.Some? ==> events[0].now <= b.next.value)
     && (events[0].Ticks? ==> b.next == Some(events[0].now))
     && Exact(setting, Beaten(setting, b, events[0]), events[0].now, events[1..]))
  }

  predicate Heard(e: Event) {
    e.Starts? || e.Touches?
  }

  /** `silence` is measured from the last start or message: no later one occurred, and one occurred at that time. */
  ghost predicate LastHeard(events: seq<Event>, last: int) {
    && (exists i :: 0 <= i < |events| && Heard(events[i]) && events[i].now == last)
    && (forall i :: 0 <= i < |events| && Heard(events[i]) ==> events[i].now <= last)
  }

  lemma {:induction false} ActivityIsLastHeard(setting: Setting, b: Beat, clock: int, events: seq<Event>)
    requires Exact(setting, b, clock, events)
    ensures forall i :: 0 <= i < |events| ==> clock <= events[i].now
    ensures var last := Live(setting, b, events).lastServerActivity;
            LastHeard(events, last) || (last == b.lastServerActivity && forall e <- events :: !Heard(e))
    decreases |events|
  {
    if events != [] {
      var rest := events[1..];
      var last := Live(setting, b, events).lastServerActivity;
      ActivityIsLastHeard(setting, Beaten(setting, b, events[0]), events[0].now, rest);
      if LastHeard(rest, last) {
        var i :| 0 <= i < |rest| && Heard(rest[i]) && rest[i].now == last;
        assert events[i + 1] == rest[i];
        assert forall k :: 0 < k < |events| ==> events[k] == rest[k - 1];
      } else {
        assert forall k :: 0 < k < |events| ==> events[k] == rest[k - 1] && rest[k - 1] in rest;
      }
    }
  }

  lemma {:induction false} LiveSnoc(setting: Setting, b: Beat, events: seq<Event>, e: Event)
    ensures Live(setting, b, events + [e]) == Beaten(setting, Live(setting, b, events), e)
    decreases |events|
  {
    if events == [] {
      assert events + [e] == [e];
    } else {
      assert (events + [e])[1..] == events[1..] + [e];
      LiveSnoc(setting, Beaten(setting, b, events[0]), events[1..], e);
    }
  }

  lemma {:induction false} ExactPrefix(setting: Setting, b: Beat, clock: int, events: seq<Event>, more: seq<Event>)
    requires Exact(setting, b, clock, events + more)
    ensures Exact(setting, b, clock, events)
    decreases |events|
  {
    if events != [] {
      assert (events + more)[0] == events[0] && (events + more)[1..] == events[1..] + more;
      ExactPrefix(setting, Beaten(setting, b, events[0]), events[0].now, events[1..], more);
    }
  }

  /** Over every run: a tick disconnects if and only if the last start or message from the server, whatever stops,
      starts and messages there were before, lies more than `timeoutMs` back. */
  lemma TickDisconnectsIffSilent(setting: Setting, events: seq<Event>, created: int, now: int, last: int)
    requires Exact(setting, Beat(None, created, []), created, events + [Ticks(now)]) && LastHeard(events, last)
    ensures var before := Live(setting, Beat(None, created, []), events);
            var after := Live(setting, Beat(None, created, []), events + [Ticks(now)]);
            before.next.Some? ==>
              && |after.ticks| == |before.ticks| + 1 && after.ticks[|before.ticks|].at == now
              && (after.ticks[|before.ticks|].action == Disconnect <==> last + setting.timeoutMs < now)
  {
    var b := Beat(None, created, []);
    ExactPrefix(setting, b, created, events, [Ticks(now)]);
    ActivityIsLastHeard(setting, b, created, events);
    LiveSnoc(setting, b, events, Ticks(now));
    var i :| 0 <= i < |events| && Heard(events[i]) && events[i].now == last;
    assert events[i] in events;
  }

  /** The timer of a heartbeat that was just started or touched fires within one interval. */
  ghost predicate TicksSoon(setting: Setting, b: Beat, clock: int) {
    b.next.Some? ==> b.next.value <= clock + setting.intervalMs
  }

  lemma {:induction false} LiveTicksSoon(setting: Setting, b: Beat, clock: int, events: seq<Event>)
    requires Exact(setting, b, clock, events) && TicksSoon(setting, b, clock)
    ensures TicksSoon(setting, Live(setting, b, events), if events == [] then clock else events[|events| - 1].now)
    decreases |events|
  {
    if events != [] {
      LiveTicksSoon(setting, Beaten(setting, b, events[0]), events[0].now, events[1..]);
    }
  }

  /** Some tick disconnects later than `timeoutMs` after `last`, and no later than one interval after that. */
  ghost predicate DisconnectedInTime(setting: Setting, ticks: seq<Tick>, last: int) {
    exists i :: 0 <= i < |ticks| && ticks[i].action == Disconnect
      && last + setting.timeoutMs < ticks[i].at <= last + setting.timeoutMs + setting.intervalMs
  }

  lemma {:induction false} SilenceIsNoticed(setting: Setting, b: Beat, clock: int, quiet: seq<Event>)
    requires Exact(setting, b, clock, quiet) && (forall e <- quiet :: e.Ticks?) && b.next.Some?
    requires var due := b.lastServerActivity + setting.timeoutMs;
             b.next.value <= due + setting.intervalMs || DisconnectedInTime(setting, b.ticks, b.lastServerActivity)
    ensures var b' := Live(setting, b, quiet);
            && b.ticks <= b'.ticks && b'.next.Some?
            && (forall i :: |b.ticks| <= i < |b'.ticks| ==>
                  (b'.ticks[i].action == Disconnect <==> b.lastServerActivity + setting.timeoutMs < b'.ticks[i].at))
            && (b'.next.value > b.lastServerActivity + setting.timeoutMs + setting.intervalMs ==>
                  DisconnectedInTime(setting, b'.ticks, b.lastServerActivity))
    decreases |quiet|
  {
    if quiet != [] {
      var next := Beaten(setting, b, quiet[0]);
      assert quiet[0] in quiet;
      var t := next.ticks[|b.ticks|];
      if DisconnectedInTime(setting, b.ticks, b.lastServerActivity) {
        var due := b.lastServerActivity + setting.timeoutMs;
        var i :| 0 <= i < |b.ticks| && b.ticks[i].action == Disconnect
          && due < b.ticks[i].at <= due + setting.intervalMs;
        assert next.ticks[i] == b.ticks[i];
      } else if t.action == Disconnect {
        assert DisconnectedInTime(setting, next.ticks, b.lastServerActivity);
      }
      SilenceIsNoticed(setting, next, quiet[0].now, quiet[1..]);
    }
  }

  /** In every run with an exact timer: from the moment the server was last heard, the ticks send pings as long as the
      silence has lasted no longer than `timeoutMs` and disconnect from then on; and once the timer is past
      `timeoutMs + intervalMs`, one of them has disconnected. */
  lemma SilentServerIsDisconnected(setting: Setting, created: int, before: seq<Event>, heard: Event, quiet: seq<Event>)
    requires Exact(setting, Beat(None, created, []), created, before + [heard]) && Heard(heard)
    requires var b := Live(setting, Beat(None, created, []), before + [heard]);
             b.next.Some? && Exact(setting, b, heard.now, quiet) && forall e <- quiet :: e.Ticks?
    ensures var b := Live(setting, Beat(None, created, []), before + [heard]);
            var b' := Live(setting, b, quiet);
            && b.lastServerActivity == heard.now && b.ticks <= b'.ticks && b'.next.Some?
            && (forall i :: |b.ticks| <= i < |b'.ticks| ==>
                  (b'.ticks[i].action == Disconnect <==> heard.now + setting.timeoutMs < b'.ticks[i].at))
            && (b'.next.value > heard.now + setting.timeoutMs + setting.intervalMs ==>
                  DisconnectedInTime(setting, b'.ticks, heard.now))
  {
    var b := Live(setting, Beat(None, created, []), before + [heard]);
    LiveTicksSoon(setting, Beat(None, created, []), created, before + [heard]);
    LiveSnoc(setting, Beat(None, created, []), before, heard);
    SilenceIsNoticed(setting, b, heard.now, quiet);
  }

  /** Between a start and the next start or stop, tick `k` comes `k + 1` intervals after the start. */
  lemma {:induction false} TicksAreRegular(setting: Setting, b: Beat, start: int, clock: int, events: seq<Event>)
    requires Exact(setting, b, clock, events) && (forall e <- events :: e.Ticks? || e.Touches?)
    requires b.next == Some(start + (|b.ticks| + 1) * setting.intervalMs)
    ensures var b' := Live(setting, b, events);
            && b.ticks <= b'.ticks && b'.next == Some(start + (|b'.ticks| + 1) * setting.intervalMs)
            && (forall k :: |b.ticks| <= k < |b'.ticks| ==> b'.ticks[k].at == start + (k + 1) * setting.intervalMs)
    decreases |events|
  {
    if events != [] {
      assert events[0] in events;
      assert (|b.ticks| + 2) * setting.intervalMs == (|b.ticks| + 1) * setting.intervalMs + setting.intervalMs;
      TicksAreRegular(setting, Beaten(setting, b, events[0]), start, events[0].now, events[1..]);
    }
  }

  /** A start arms the timer for one interval later, whether or not it ran. */
  lemma StartArms(setting: Setting, b: Beat, now: int)
    ensures Beaten(setting, b, Starts(now)) == Beat(Some(now + setting.intervalMs), now, b.ticks)
  {
  }

  /** After a stop nothing ticks until the next start. */
  lemma {:induction false} StoppedNeverTicks(setting: Setting, b: Beat, now: int, clock: int, events: seq<Event>)
    requires Exact(setting, Beaten(setting, b, Stops(now)), clock, events) && forall e <- events :: !e.Starts?
    ensures Live(setting, Beaten(setting, b, Stops(now)), events).ticks == b.ticks
    ensures forall e <- events :: !e.Ticks?
    decreases |events|
  {
    if events != [] {
      var s := Beaten(setting, b, Stops(now));
      assert events[0] in events;
      var next := Beaten(setting, s, events[0]);
      assert next == Beaten(setting, next, Stops(now));
      StoppedNeverTicks(setting, next, now, events[0].now, events[1..]);
      assert forall e <- events :: e == events[0] || e in events[1..];
    }
  }

  // ---- The server's side ----

  predicate Look(e: B.Event) {
    e.GetActiveCalled? || e.Routes?
  }

  predicate PingFrom(socket: nat, e: B.Event) {
    e.Receives? && e.socket == socket && e.message == B.Ping(true)
  }

  ghost predicate IsOpen(s: B.State, session: nat) {
    session < |s.registry.sessions| && HasOpenSocket(s.registry, session)
  }

  /** The client of `session` sends ping `i` at `start + i * intervalMs`. No ping arrives before it was sent; the
      messages of its socket and the looks at the registry follow a clock that does not run backwards; and whenever
      the registry is looked at with `arrived` pings in and the socket open, the next ping has not been on its way
      for more than `timeout - interval`. Everything else may happen at any time: other sockets, answers, timers,
      shutdown. */
  ghost predicate Punctual(config: B.Config, s: B.State, session: nat, socket: nat, intervalMs: nat, start: int,
      arrived: nat, clock: int, events: seq<B.Event>)
    decreases |events|
  {
    events == [] ||
    var e := events[0];
    var own := Look(e) || (e.Receives? && e.socket == socket);
    var pings := if PingFrom(socket, e) then arrived + 1 else arrived;
    && (own ==> clock <= e.now)
    && (PingFrom(socket, e) ==> start + pings * intervalMs <= e.now)
    && (Look(e) && IsOpen(s, session) ==>
          e.now <= start + (arrived + 1) * intervalMs + (config.policy.heartbeatTimeoutMs - intervalMs))
    && Punctual(config, B.Step(config, s, e), session, socket, intervalMs, start, pings,
                if own then e.now else clock, events[1..])
  }

  /** What one step may do to a session. */
  ghost predicate Kept(r: Registry, r': Registry, session: nat, dated: bool, now: int)
    requires session < |r.sessions|
  {
    && session < |r'.sessions| && r'.sessions[session].socket == r.sessions[session].socket
    && (r'.sessions[session].lastSeen == r.sessions[session].lastSeen
       || (dated && r'.sessions[session].lastSeen == now))
    && (HasOpenSocket(r', session) ==> HasOpenSocket(r, session))
  }

  lemma RegisteringKeeps(r: Registry, session: nat, socket: nat, registration: Registration, now: int)
    requires session < |r.sessions|
    ensures Kept(r, Registered(r, socket, registration, now), session, false, now)
  {
  }

  lemma ClosingKeeps(s: B.State, session: nat, socket: nat, code: nat, now: int)
    requires session < |s.registry.sessions|
    ensures Kept(s.registry, B.Closing(s, socket, code).registry, session, false, now)
  {
  }

  lemma TouchingKeeps(s: B.State, session: nat, touched: nat, now: int)
    requires session < |s.registry.sessions| && touched < |s.registry.sessions|
    ensures Kept(s.registry, B.Touched(s, touched, now).registry, session, touched == session, now)
  {
  }

  lemma MessageKeeps(config: B.Config, s: B.State, session: nat, socket: nat, message: B.Message, now: int)
    requires B.Inv(config, s) && session < |s.registry.sessions| && socket in s.connections
    ensures Kept(s.registry, B.Received(config, s, socket, message, now).registry, session,
                 socket == s.registry.sessions[session].socket, now)
  {
    var c := s.connections[socket];
    ClosingKeeps(s, session, socket, B.INVALID_MESSAGE, now);
    ClosingKeeps(s, session, socket, B.NOT_AUTHENTICATED, now);
    if message.Register? && message.registration.Some? {
      RegisteringKeeps(s.registry, session, socket, message.registration.value, now);
    } else if c.session.Some? {
      TouchingKeeps(s, session, c.session.value, now);
      ClosingKeeps(B.Touched(s, c.session.value, now), session, socket, B.INVALID_MESSAGE, now);
    }
  }

  /** A session stays on its socket; only its own messages date it, and a socket once closed never opens again. */
  lemma StepKeeps(config: B.Config, s: B.State, session: nat, e: B.Event)
    requires B.Inv(config, s) && session < |s.registry.sessions|
    ensures Kept(s.registry, B.Step(config, s, e).registry, session,
                 e.Receives? && e.socket == s.registry.sessions[session].socket, if e.Receives? then e.now else 0)
  {
    match e
    case Connects(socket, nonce) => assert B.Vouched(config, s.registry.sessions, s.connections, session);
    case Receives(socket, message, now) =>
      if B.Delivers(s, socket) {
        MessageKeeps(config, s, session, socket, message, now);
      }
    case SocketCloses(socket) =>
    case AuthTimerFires(socket) => ClosingKeeps(s, session, socket, B.NOT_AUTHENTICATED, 0);
    case GetActiveCalled(now) =>
    case Routes(requestId, timeoutMs, valid, now) =>
    case RequestTimerFires(timer) =>
    case ShutsDown =>
  }

  lemma PingDates(config: B.Config, s: B.State, session: nat, now: int)
    requires B.Inv(config, s) && IsOpen(s, session)
    ensures var e := B.Receives(s.registry.sessions[session].socket, B.Ping(true), now);
            B.Step(config, s, e).registry.sessions[session].lastSeen == now
  {
    assert B.Vouched(config, s.registry.sessions, s.connections, session);
  }

  /** The session was heard from no earlier than ping `arrived` was sent, as long as its socket is open. */
  ghost predicate Recent(s: B.State, session: nat, since: int) {
    IsOpen(s, session) ==> since <= s.registry.sessions[session].lastSeen
  }

  /** Looking at the registry at this point keeps the session and changes nothing. */
  ghost predicate LookKeeps(config: B.Config, s: B.State, session: nat, e: B.Event) {
    (e.GetActiveCalled? || e.Routes?) && IsOpen(s, session) ==>
      Active(config.policy, s.registry, e.now).1 == Some(session) && B.Step(config, s, e).registry == s.registry
  }

  lemma LookFindsRecent(config: B.Config, s: B.State, session: nat, since: int, e: B.Event)
    requires B.Inv(config, s) && Recent(s, session, since)
    requires Look(e) && IsOpen(s, session) ==> e.now <= since + config.policy.heartbeatTimeoutMs
    ensures LookKeeps(config, s, session, e)
  {
  }

  /** On the whole server, in any run of any events on any sockets in which the client of a session pings on time:
      whenever `getActive` or a routed request looks at the registry while the session's socket is open, it finds
      this session, and evicts nothing. So a session whose client is punctual never loses its socket to its age. */
  lemma {:induction false} PunctualClientIsNotEvicted(config: B.Config, s: B.State, session: nat, intervalMs: nat,
      start: int, arrived: nat, clock: int, events: seq<B.Event>, i: nat)
    requires B.Inv(config, s) && session < |s.registry.sessions| && Recent(s, session, start + arrived * intervalMs)
    requires start + arrived * intervalMs <= clock && i < |events|
    requires Punctual(config, s, session, s.registry.sessions[session].socket, intervalMs, start, arrived, clock,
                      events)
    ensures LookKeeps(config, B.Run(config, s, events[..i]), session, events[i])
    decreases |events|
  {
    var e := events[0];
    var s' := B.Step(config, s, e);
    assert (arrived + 1) * intervalMs == arrived * intervalMs + intervalMs;
    if i == 0 {
      LookFindsRecent(config, s, session, start + arrived * intervalMs, e);
    } else {
      var socket := s.registry.sessions[session].socket;
      var own := Look(e) || (e.Receives? && e.socket == socket);
      var pings := if PingFrom(socket, e) then arrived + 1 else arrived;
      B.StepKeepsInv(config, s, e);
      StepKeeps(config, s, session, e);
      if PingFrom(socket, e) && IsOpen(s, session) {
        PingDates(config, s, session, e.now);
      }
      assert events[..i][1..] == events[1..][..i - 1];
      PunctualClientIsNotEvicted(config, s', session, intervalMs, start, pings,
                                 if own then e.now else clock, events[1..], i - 1);
    }
  }

  lemma RegistrationDates(config: B.Config, s: B.State, socket: nat, registration: Registration, start: int)
    requires B.Inv(config, s)
    requires var s' := B.Step(config, s, B.Receives(socket, B.Register(Some(registration)), start));
             |s'.registry.sessions| == |s.registry.sessions| + 1
    ensures var s' := B.Step(config, s, B.Receives(socket, B.Register(Some(registration)), start));
            s'.registry.sessions[|s.registry.sessions|] == Session(socket, registration, start)
  {
  }

  /** In particular from its registration on: a registration at `start` is as good as ping 0. */
  lemma PunctualFromRegistration(config: B.Config, before: seq<B.Event>, socket: nat, registration: Registration,
      start: int, intervalMs: nat, events: seq<B.Event>, i: nat)
    requires var s := B.Run(config, B.INITIAL, before);
             var s' := B.Step(config, s, B.Receives(socket, B.Register(Some(registration)), start));
             && |s'.registry.sessions| == |s.registry.sessions| + 1
             && Punctual(config, s', |s.registry.sessions|, socket, intervalMs, start, 0, start, events)
    requires i < |events|
    ensures var s := B.Run(config, B.INITIAL, before);
            var s' := B.Step(config, s, B.Receives(socket, B.Register(Some(registration)), start));
            LookKeeps(config, B.Run(config, s', events[..i]), |s.registry.sessions|, events[i])
  {
    var s := B.Run(config, B.INITIAL, before);
    var register := B.Receives(socket, B.Register(Some(registration)), start);
    var s' := B.Step(config, s, register);
    B.EveryRunKeepsInv(config, before);
    B.StepKeepsInv(config, s, register);
    RegistrationDates(config, s, socket, registration, start);
    PunctualClientIsNotEvicted(config, s', |s.registry.sessions|, intervalMs, start, 0, start, events, i);
  }
}
