// The bridge server: connection handlers, registry, capability cache and pending requests as one system.
module BridgeServer {
  import opened Common
  import opened SessionRegistry
  import P = PendingRequests

  /** `digest` is the presented HMAC once decoded, `None` when it is not 64 hexadecimal digits. */
  datatype Proof = Proof(nonce: string, worldId: string, userId: string, digest: Option<nat>)

  /** `mac(secret, text)` stands for HMAC-SHA-256. */
  datatype Config = Config(policy: Policy, secret: string, mac: (string, string) -> nat)

  function ProofText(nonce: string, worldId: string, userId: string): string {
    nonce + ":" + worldId + ":" + userId
  }

  predicate Verifies(config: Config, proof: Proof, nonce: string) {
    && proof.nonce == nonce && proof.worldId == config.policy.targetWorldId
    && proof.digest == Some(config.mac(config.secret, ProofText(proof.nonce, proof.worldId, proof.userId)))
  }

  /** The closure state of one connection; `proof` is the accepted proof, kept as history. */
  datatype Connection = Connection(nonce: string, userId: Option<string>, session: Option<nat>, authTimer: bool,
                                   proof: Option<Proof>)

  /** A parsed socket message; `None` and `false` stand for a payload that fails its schema. */
  datatype Message =
    | Malformed
    | AuthProof(proof: Option<Proof>)
    | Register(registration: Option<Registration>)
    | Ping(valid: bool)
    | Response(response: Option<P.BridgeResponse>)
    | Unknown

  /** A request written to a socket. */
  datatype Delivery = Delivery(socket: nat, session: nat, requestId: string)

  datatype State = State(
    registry: Registry,
    connections: map<nat, Connection>,
    cache: Option<Registration>,
    pending: P.State,
    accepting: bool,
    deliveries: seq<Delivery>)

  const INITIAL := State(Registry(map[], [], None), map[], None, P.INITIAL, true, [])

  const INVALID_MESSAGE: nat := 4002
  const NOT_AUTHENTICATED: nat := 4003

  datatype Event =
    | Connects(socket: nat, nonce: string)
    | Receives(socket: nat, message: Message, now: int)
    | SocketCloses(socket: nat)
    | AuthTimerFires(socket: nat)
    | GetActiveCalled(now: int)
    | Routes(requestId: string, timeoutMs: nat, valid: bool, now: int)
    | RequestTimerFires(timer: nat)
    | ShutsDown

  // ---- Transitions ----

  function Closing(s: State, socket: nat, code: nat): State {
    s.(registry := s.registry.(sockets := CloseSocket(s.registry.sockets, socket, code)))
  }

  function Connected(s: State, socket: nat, nonce: string): State {
    if !s.accepting || socket in s.connections || socket in s.registry.sockets then s else
      s.(registry := s.registry.(sockets := s.registry.sockets[socket := Socket(Open, None)]),
         connections := s.connections[socket := Connection(nonce, None, None, true, None)])
  }

  /** A socket still delivers messages while it is closing, none once it is closed. */
  predicate Delivers(s: State, socket: nat) {
    socket in s.connections && socket in s.registry.sockets && !s.registry.sockets[socket].ready.Closed?
  }

  function Touched(s: State, session: nat, now: int): State
    requires session < |s.registry.sessions|
  {
    var dated := s.registry.sessions[session].(lastSeen := now);
    s.(registry := s.registry.(sessions := s.registry.sessions[session := dated]))
  }

  function Proved(config: Config, s: State, socket: nat, proof: Option<Proof>): State
    requires socket in s.connections
  {
    var c := s.connections[socket];
    if proof.None? then Closing(s, socket, INVALID_MESSAGE)
    else if c.userId.Some? || !Verifies(config, proof.value, c.nonce) then Closing(s, socket, NOT_AUTHENTICATED)
    else
      var authenticated := c.(userId := Some(proof.value.userId), authTimer := false, proof := proof);
      s.(connections := s.connections[socket := authenticated])
  }

  function RegisterReceived(config: Config, s: State, socket: nat, registration: Option<Registration>, now: int): State
    requires socket in s.connections
  {
    var c := s.connections[socket];
    if c.session.Some? || registration.None? || Some(registration.value.userId) != c.userId
       || !Admissible(config.policy, registration.value)
    then Closing(s, socket, INVALID_MESSAGE)
    else s.(registry := Registered(s.registry, socket, registration.value, now),
            connections := s.connections[socket := c.(session := Some(|s.registry.sessions|))],
            cache := registration)
  }

  function Received(config: Config, s: State, socket: nat, message: Message, now: int): State
    requires socket in s.connections
  {
    var c := s.connections[socket];
    if message.Malformed? then Closing(s, socket, INVALID_MESSAGE)
    else if message.AuthProof? then Proved(config, s, socket, message.proof)
    else if c.userId.None? then Closing(s, socket, NOT_AUTHENTICATED)
    else if message.Register? then RegisterReceived(config, s, socket, message.registration, now)
    else if c.session.None? || c.session.value >= |s.registry.sessions| then Closing(s, socket, INVALID_MESSAGE)
    else
      var touched := Touched(s, c.session.value, now);
      match message
      case Ping(valid) => if valid then touched else Closing(touched, socket, INVALID_MESSAGE)
      case Response(Some(response)) => touched.(pending := P.Settled(s.pending, response))
      case _ => Closing(touched, socket, INVALID_MESSAGE)
  }

  function SocketClosed(s: State, socket: nat): State
    requires Delivers(s, socket)
  {
    var c := s.connections[socket];
    var closed := s.(
      registry := s.registry.(sockets := s.registry.sockets[socket := s.registry.sockets[socket].(ready := Closed)]),
      connections := s.connections[socket := c.(authTimer := false)]);
    if c.session.Some? && s.registry.current == c.session
    then closed.(registry := closed.registry.(current := None), cache := None, pending := P.RejectedAll(s.pending))
    else closed
  }

  function AuthTimedOut(s: State, socket: nat): State {
    if socket !in s.connections || !s.connections[socket].authTimer then s else
      var fired := s.connections[socket].(authTimer := false);
      Closing(s.(connections := s.connections[socket := fired]), socket, NOT_AUTHENTICATED)
  }

  function ActiveCalled(config: Config, s: State, now: int): State {
    s.(registry := Active(config.policy, s.registry, now).0)
  }

  /** `dispatch`: no session, a request that fails its schema (`valid`), or a request id already in use, rejects the
      promise and sends nothing. */
  function Routed(config: Config, s: State, requestId: string, timeoutMs: nat, valid: bool, now: int): State {
    var (registry, active) := Active(config.policy, s.registry, now);
    if active.None? || active.value >= |registry.sessions| || !valid || requestId in s.pending.requests
    then s.(registry := registry) else
      s.(registry := registry,
         pending := P.Waited(s.pending, requestId, timeoutMs, now),
         deliveries := s.deliveries + [Delivery(registry.sessions[active.value].socket, active.value, requestId)])
  }

  function Stopped(s: State): State {
    s.(registry := ShutDown(s.registry), pending := P.RejectedAll(s.pending), accepting := false)
  }

  function Step(config: Config, s: State, e: Event): State {
    match e
    case Connects(socket, nonce) => Connected(s, socket, nonce)
    case Receives(socket, message, now) => if Delivers(s, socket) then Received(config, s, socket, message, now) else s
    case SocketCloses(socket) => if Delivers(s, socket) then SocketClosed(s, socket) else s
    case AuthTimerFires(socket) => AuthTimedOut(s, socket)
    case GetActiveCalled(now) => ActiveCalled(config, s, now)
    case Routes(requestId, timeoutMs, valid, now) => Routed(config, s, requestId, timeoutMs, valid, now)
    case RequestTimerFires(timer) => s.(pending := P.Fired(s.pending, timer))
    case ShutsDown => Stopped(s)
  }

  function Run(config: Config, s: State, events: seq<Event>): State
    decreases |events|
  {
    if events == [] then s else Run(config, Step(config, s, events[0]), events[1..])
  }

  // ---- Invariant ----

  /** An authenticated connection once presented a proof for its own nonce, and for the target world. */
  ghost predicate Authenticated(config: Config, c: Connection) {
    c.userId.Some? ==>
      c.proof.Some? && Verifies(config, c.proof.value, c.nonce) && c.proof.value.userId == c.userId.value
  }

  /** A registered session belongs to a connection whose proof verified, for the same user and the target world. */
  ghost predicate Vouched(config: Config, sessions: seq<Session>, connections: map<nat, Connection>, session: nat)
    requires session < |sessions|
  {
    var x := sessions[session];
    && x.socket in connections
    && connections[x.socket].session == Some(session)
    && connections[x.socket].userId == Some(x.registration.userId)
    && x.registration.worldId == config.policy.targetWorldId && x.registration.isGM
  }

  ghost predicate Wired(config: Config, s: State) {
    && s.registry.sockets.Keys == s.connections.Keys
    && (forall id <- s.connections :: Authenticated(config, s.connections[id]))
    && (forall id <- s.connections :: s.connections[id].session.Some? ==>
          s.connections[id].session.value < |s.registry.sessions|
            && s.registry.sessions[s.connections[id].session.value].socket == id)
    && (forall x: nat | x < |s.registry.sessions| :: Vouched(config, s.registry.sessions, s.connections, x))
  }

  ghost predicate CacheFollows(s: State) {
    s.registry.current.Some? && s.registry.current.value < |s.registry.sessions| ==>
      s.cache == Some(s.registry.sessions[s.registry.current.value].registration)
  }

  /** Requests went only to the sockets of registered sessions. */
  ghost predicate DeliveredToSessions(s: State) {
    forall d <- s.deliveries :: d.session < |s.registry.sessions| && s.registry.sessions[d.session].socket == d.socket
  }

  ghost predicate Inv(config: Config, s: State) {
    Wired(config, s) && OneOpenSession(s.registry) && CacheFollows(s) && DeliveredToSessions(s)
  }

  // ---- Every transition keeps the invariant ----

  lemma ClosingKeepsInv(config: Config, s: State, socket: nat, code: nat)
    requires Inv(config, s)
    ensures Inv(config, Closing(s, socket, code))
  {
  }

  lemma ConnectedKeepsInv(config: Config, s: State, socket: nat, nonce: string)
    requires Inv(config, s)
    ensures Inv(config, Connected(s, socket, nonce))
  {
    var s' := Connected(s, socket, nonce);
    if s' != s {
      forall x: nat | x < |s'.registry.sessions|
        ensures Vouched(config, s'.registry.sessions, s'.connections, x) && s'.registry.sessions[x].socket != socket
      {
        assert Vouched(config, s.registry.sessions, s.connections, x);
      }
      assert forall x: nat | x < |s'.registry.sessions| ::
               HasOpenSocket(s'.registry, x) ==> HasOpenSocket(s.registry, x);
    }
  }

  /** A change of one connection that keeps its nonce, session and authentication. */
  lemma ConnectionChangeKeepsWired(config: Config, s: State, socket: nat, c: Connection)
    requires Wired(config, s) && socket in s.connections && Authenticated(config, c)
    requires c.session == s.connections[socket].session
    requires s.connections[socket].userId.Some? ==> c.userId == s.connections[socket].userId
    ensures Wired(config, s.(connections := s.connections[socket := c]))
  {
    var s' := s.(connections := s.connections[socket := c]);
    forall x: nat | x < |s'.registry.sessions| ensures Vouched(config, s'.registry.sessions, s'.connections, x) {
      assert Vouched(config, s.registry.sessions, s.connections, x);
    }
  }

  lemma ProvedKeepsInv(config: Config, s: State, socket: nat, proof: Option<Proof>)
    requires Inv(config, s) && socket in s.connections
    ensures Inv(config, Proved(config, s, socket, proof))
  {
    var c := s.connections[socket];
    if proof.None? {
      ClosingKeepsInv(config, s, socket, INVALID_MESSAGE);
    } else if c.userId.Some? || !Verifies(config, proof.value, c.nonce) {
      ClosingKeepsInv(config, s, socket, NOT_AUTHENTICATED);
    } else {
      ConnectionChangeKeepsWired(config, s, socket,
                                 c.(userId := Some(proof.value.userId), authTimer := false, proof := proof));
    }
  }

  lemma RegisterKeepsWired(config: Config, s: State, socket: nat, registration: Registration, now: int)
    requires Wired(config, s) && socket in s.connections
    requires s.connections[socket].session == None && Some(registration.userId) == s.connections[socket].userId
    requires Admissible(config.policy, registration)
    ensures var s' := RegisterReceived(config, s, socket, Some(registration), now);
            Wired(config, s') && forall x: nat | x < |s.registry.sessions| :: s.registry.sessions[x].socket != socket
  {
    var s' := RegisterReceived(config, s, socket, Some(registration), now);
    forall x: nat | x < |s.registry.sessions|
      ensures Vouched(config, s'.registry.sessions, s'.connections, x) && s.registry.sessions[x].socket != socket
    {
      assert Vouched(config, s.registry.sessions, s.connections, x);
    }
    assert Vouched(config, s'.registry.sessions, s'.connections, |s.registry.sessions|);
  }

  lemma RegisterReceivedKeepsInv(config: Config, s: State, socket: nat, registration: Option<Registration>, now: int)
    requires Inv(config, s) && socket in s.connections
    ensures Inv(config, RegisterReceived(config, s, socket, registration, now))
  {
    var c := s.connections[socket];
    if c.session.Some? || registration.None? || Some(registration.value.userId) != c.userId
       || !Admissible(config.policy, registration.value) {
      ClosingKeepsInv(config, s, socket, INVALID_MESSAGE);
    } else {
      RegisterKeepsWired(config, s, socket, registration.value, now);
      RegisteredKeepsOneOpen(s.registry, socket, registration.value, now);
    }
  }

  lemma TouchedKeepsInv(config: Config, s: State, session: nat, now: int)
    requires Inv(config, s) && session < |s.registry.sessions|
    ensures Inv(config, Touched(s, session, now))
  {
    var s' := Touched(s, session, now);
    forall x: nat | x < |s'.registry.sessions| ensures Vouched(config, s'.registry.sessions, s'.connections, x) {
      assert Vouched(config, s.registry.sessions, s.connections, x);
    }
    assert forall x: nat | x < |s'.registry.sessions| :: HasOpenSocket(s'.registry, x) ==> HasOpenSocket(s.registry, x);
  }

  lemma ReceivedKeepsInv(config: Config, s: State, socket: nat, message: Message, now: int)
    requires Inv(config, s) && socket in s.connections
    ensures Inv(config, Received(config, s, socket, message, now))
  {
    var c := s.connections[socket];
    ClosingKeepsInv(config, s, socket, INVALID_MESSAGE);
    ClosingKeepsInv(config, s, socket, NOT_AUTHENTICATED);
    if message.AuthProof? {
      ProvedKeepsInv(config, s, socket, message.proof);
    } else if message.Register? {
      RegisterReceivedKeepsInv(config, s, socket, message.registration, now);
    } else if c.session.Some? {
      TouchedKeepsInv(config, s, c.session.value, now);
      ClosingKeepsInv(config, Touched(s, c.session.value, now), socket, INVALID_MESSAGE);
    }
  }

  lemma SocketClosedKeepsWired(config: Config, s: State, socket: nat)
    requires Wired(config, s) && Delivers(s, socket)
    ensures Wired(config, SocketClosed(s, socket))
  {
    ConnectionChangeKeepsWired(config, s, socket, s.connections[socket].(authTimer := false));
  }

  lemma SocketClosedKeepsInv(config: Config, s: State, socket: nat)
    requires Inv(config, s) && Delivers(s, socket)
    ensures Inv(config, SocketClosed(s, socket))
  {
    SocketClosedKeepsWired(config, s, socket);
    ClosedKeepsOneOpen(s.registry, socket, SocketClosed(s, socket).registry);
  }

  lemma RegistryOnlyKeepsInv(config: Config, s: State, registry: Registry)
    requires Inv(config, s)
    requires registry.sockets.Keys == s.registry.sockets.Keys && registry.sessions == s.registry.sessions
    requires OneOpenSession(registry) && (registry.current == s.registry.current || registry.current == None)
    ensures Inv(config, s.(registry := registry))
  {
  }

  lemma RoutedKeepsInv(config: Config, s: State, requestId: string, timeoutMs: nat, valid: bool, now: int)
    requires Inv(config, s)
    ensures Inv(config, Routed(config, s, requestId, timeoutMs, valid, now))
  {
    ActiveKeepsOneOpen(config.policy, s.registry, now);
    RegistryOnlyKeepsInv(config, s, Active(config.policy, s.registry, now).0);
  }

  lemma AuthTimeoutKeepsInv(config: Config, s: State, socket: nat)
    requires Inv(config, s)
    ensures Inv(config, AuthTimedOut(s, socket))
  {
    if socket in s.connections && s.connections[socket].authTimer {
      var c := s.connections[socket].(authTimer := false);
      ConnectionChangeKeepsWired(config, s, socket, c);
      ClosingKeepsInv(config, s.(connections := s.connections[socket := c]), socket, NOT_AUTHENTICATED);
    }
  }

  lemma ActiveKeepsInv(config: Config, s: State, now: int)
    requires Inv(config, s)
    ensures Inv(config, ActiveCalled(config, s, now))
  {
    ActiveKeepsOneOpen(config.policy, s.registry, now);
    RegistryOnlyKeepsInv(config, s, Active(config.policy, s.registry, now).0);
  }

  lemma StepKeepsInv(config: Config, s: State, e: Event)
    requires Inv(config, s)
    ensures Inv(config, Step(config, s, e))
  {
    match e
    case Connects(socket, nonce) => ConnectedKeepsInv(config, s, socket, nonce);
    case Receives(socket, message, now) => if Delivers(s, socket) { ReceivedKeepsInv(config, s, socket, message, now); }
    case SocketCloses(socket) => if Delivers(s, socket) { SocketClosedKeepsInv(config, s, socket); }
    case AuthTimerFires(socket) =>
      AuthTimeoutKeepsInv(config, s, socket);
    case GetActiveCalled(now) => ActiveKeepsInv(config, s, now);
    case Routes(requestId, timeoutMs, valid, now) => RoutedKeepsInv(config, s, requestId, timeoutMs, valid, now);
    case RequestTimerFires(timer) =>
    case ShutsDown =>
      ShutDownKeepsOneOpen(s.registry);
      RegistryOnlyKeepsInv(config, s, ShutDown(s.registry));
  }

  /** What an event means to the pending requests, if anything. */
  function PendingEvent(config: Config, s: State, e: Event): Option<P.Event> {
    match e
    case Receives(socket, Response(Some(response)), _) =>
      if Delivers(s, socket) && s.connections[socket].userId.Some? && s.connections[socket].session.Some?
         && s.connections[socket].session.value < |s.registry.sessions| then Some(P.SettleCalled(response)) else None
    case SocketCloses(socket) =>
      if Delivers(s, socket) && s.registry.current.Some? && s.registry.current == s.connections[socket].session
      then Some(P.RejectAllCalled) else None
    case Routes(requestId, timeoutMs, valid, now) =>
      var (registry, active) := Active(config.policy, s.registry, now);
      if active.Some? && active.value < |registry.sessions| && valid
      then Some(P.WaitCalled(requestId, timeoutMs, now)) else None
    case RequestTimerFires(timer) => Some(P.TimerFires(timer))
    case ShutsDown => Some(P.RejectAllCalled)
    case _ => None
  }

  /** Answers count only from registered sessions, and the pending requests are dropped only when the current
      session's own socket closes or the server shuts down. */
  lemma PendingFollowsEvents(config: Config, s: State, e: Event)
    ensures Step(config, s, e).pending
         == if PendingEvent(config, s, e).Some? then P.Step(s.pending, PendingEvent(config, s, e).value) else s.pending
  {
  }

  lemma StepKeepsPending(config: Config, s: State, e: Event)
    requires P.Inv(s.pending)
    ensures P.Inv(Step(config, s, e).pending)
  {
    PendingFollowsEvents(config, s, e);
    if PendingEvent(config, s, e).Some? {
      P.StepKeepsInv(s.pending, PendingEvent(config, s, e).value);
    }
  }

  lemma {:induction false} RunKeepsInv(config: Config, s: State, events: seq<Event>)
    requires Inv(config, s) && P.Inv(s.pending)
    ensures Inv(config, Run(config, s, events)) && P.Inv(Run(config, s, events).pending)
    decreases |events|
  {
    if events != [] {
      StepKeepsInv(config, s, events[0]);
      StepKeepsPending(config, s, events[0]);
      RunKeepsInv(config, Step(config, s, events[0]), events[1..]);
    }
  }

  /** In every reachable state, whatever the interleaving: at most one registered session has an open socket and
      it is the registry's; every session is vouched for by a verified proof; the cache follows the registry;
      every request is pending under a live timer or was settled once. */
  lemma EveryRunKeepsInv(config: Config, events: seq<Event>)
    ensures Inv(config, Run(config, INITIAL, events)) && P.Inv(Run(config, INITIAL, events).pending)
  {
    assert P.Inv(P.INITIAL);
    RunKeepsInv(config, INITIAL, events);
  }

  // ---- Consequences ----

  /** `getActive` finds a session exactly when some registered session has an open socket and was heard from in time. */
  lemma ActiveIsTheOpenSession(config: Config, events: seq<Event>, now: int, session: nat)
    ensures var r := Run(config, INITIAL, events).registry;
            Active(config.policy, r, now).1 == Some(session) <==>
              && session < |r.sessions| && r.sessions[session].socket in r.sockets
              && r.sockets[r.sessions[session].socket].ready == Open
              && now - r.sessions[session].lastSeen <= config.policy.heartbeatTimeoutMs
  {
    EveryRunKeepsInv(config, events);
    var r := Run(config, INITIAL, events).registry;
    if session < |r.sessions| && Alive(config.policy, r, session, now) {
      assert HasOpenSocket(r, session);
    }
  }

  /** A routed request goes, if anywhere, to the one open session, whose user proved knowledge of the secret for
      the target world, and a timer then guards it. Otherwise nothing is sent and nothing is left pending. */
  lemma RoutesOnlyToAVerifiedSession(config: Config, events: seq<Event>, requestId: string, timeoutMs: nat,
      valid: bool, now: int)
    ensures var s := Run(config, INITIAL, events);
            var s' := Routed(config, s, requestId, timeoutMs, valid, now);
            if s'.deliveries == s.deliveries then s'.pending == s.pending
            else && |s'.deliveries| == |s.deliveries| + 1 && s.deliveries <= s'.deliveries
                 && var d := s'.deliveries[|s.deliveries|];
                    && d.requestId == requestId && requestId in s'.pending.requests
                    && d.session < |s.registry.sessions| && Alive(config.policy, s.registry, d.session, now)
                    && d.socket == s.registry.sessions[d.session].socket && d.socket in s.connections
                    && var c := s.connections[d.socket];
                       && c.proof.Some? && c.proof.value.nonce == c.nonce
                       && c.proof.value.digest == Some(config.mac(config.secret,
                               c.nonce + ":" + config.policy.targetWorldId + ":" + c.proof.value.userId))
                       && c.proof.value.userId == s.registry.sessions[d.session].registration.userId
  {
    EveryRunKeepsInv(config, events);
    var s := Run(config, INITIAL, events);
    var active := Active(config.policy, s.registry, now).1;
    if active.Some? {
      assert Vouched(config, s.registry.sessions, s.connections, active.value);
    }
  }

  /** The late close of a replaced or evicted session disturbs neither its successor, nor the cache, nor what is
      pending. */
  lemma LateCloseChangesNothingElse(config: Config, events: seq<Event>, socket: nat)
    requires var s := Run(config, INITIAL, events);
             && Delivers(s, socket)
             && forall x: nat | x < |s.registry.sessions| && s.registry.sessions[x].socket == socket ::
                  s.registry.current != Some(x)
    ensures var s := Run(config, INITIAL, events);
            var s' := SocketClosed(s, socket);
            && s'.registry.current == s.registry.current && s'.registry.sessions == s.registry.sessions
            && s'.cache == s.cache && s'.pending == s.pending
            && (forall id <- s.registry.sockets :: id != socket ==> s'.registry.sockets[id] == s.registry.sockets[id])
  {
    EveryRunKeepsInv(config, events);
  }

  lemma ReceivingKeepsTheSession(config: Config, s: State, socket: nat, message: Message, now: int)
    requires socket in s.connections && s.registry.current.Some?
    ensures Received(config, s, socket, message, now).registry.current.Some?
  {
  }

  lemma LosingTheSession(config: Config, s: State, e: Event)
    requires Inv(config, s) && s.registry.current.Some? && Step(config, s, e).registry.current.None?
    ensures e.SocketCloses? ==> Step(config, s, e).cache == None
    ensures !e.SocketCloses? ==> Step(config, s, e).cache == s.cache && s.cache.Some?
  {
    if e.Receives? && Delivers(s, e.socket) {
      ReceivingKeepsTheSession(config, s, e.socket, e.message, e.now);
    }
  }

  /** When the current session is lost, the cache is emptied exactly if the loss was its own socket's close event. */
  lemma CacheEmptiedIffClosed(config: Config, events: seq<Event>, e: Event)
    requires var s := Run(config, INITIAL, events);
             s.registry.current.Some? && Step(config, s, e).registry.current.None?
    ensures var s := Run(config, INITIAL, events);
            Step(config, s, e).cache == None <==> e.SocketCloses?
  {
    EveryRunKeepsInv(config, events);
    LosingTheSession(config, Run(config, INITIAL, events), e);
  }

  /** A GM's browser connects on socket 1, proves the secret and registers. */
  function Joining(registration: Registration, nonce: string, proof: Proof): seq<Event> {
    [Connects(1, nonce), Receives(1, AuthProof(Some(proof)), 0), Receives(1, Register(Some(registration)), 0)]
  }

  /** The server that has just been joined. */
  function Joined(registration: Registration, nonce: string, proof: Proof): State {
    INITIAL.(registry := Registry(map[1 := Socket(Open, None)], [Session(1, registration, 0)], Some(0)),
             connections := map[1 := Connection(nonce, Some(proof.userId), Some(0), false, Some(proof))],
             cache := Some(registration))
  }

  lemma JoiningWorks(config: Config, registration: Registration, nonce: string, proof: Proof)
    requires Verifies(config, proof, nonce) && Admissible(config.policy, registration)
             && registration.userId == proof.userId
    ensures Run(config, INITIAL, Joining(registration, nonce, proof)) == Joined(registration, nonce, proof)
  {
    var e := Joining(registration, nonce, proof);
    var s1 := Step(config, INITIAL, e[0]);
    var s2 := Step(config, s1, e[1]);
    assert s1.connections == map[1 := Connection(nonce, None, None, true, None)];
    assert s2.connections == map[1 := Connection(nonce, Some(proof.userId), None, false, Some(proof))];
    assert Step(config, s2, e[2]) == Joined(registration, nonce, proof);
    calc {
      Run(config, INITIAL, e);
      Run(config, s1, e[1..]);
      Run(config, s2, e[1..][1..]);
      Run(config, Joined(registration, nonce, proof), e[1..][1..][1..]);
    }
  }

  /** "No session, no cached capabilities" does not hold: an eviction by `getActive` leaves the cache behind, and the
      close event that follows no longer finds a session to clear. */
  lemma EvictionLeavesTheCache(config: Config, registration: Registration, nonce: string, proof: Proof, now: int)
    requires Verifies(config, proof, nonce) && Admissible(config.policy, registration)
             && registration.userId == proof.userId
    requires now > config.policy.heartbeatTimeoutMs
    ensures var joined := Run(config, INITIAL, Joining(registration, nonce, proof));
            var s := Run(config, joined, [GetActiveCalled(now), SocketCloses(1)]);
            && s.registry.current == None && s.cache == Some(registration)
            && 1 in s.registry.sockets && s.registry.sockets[1].ready == Closed
  {
    JoiningWorks(config, registration, nonce, proof);
    var joined := Joined(registration, nonce, proof);
    var e := [GetActiveCalled(now), SocketCloses(1)];
    var s1 := Step(config, joined, e[0]);
    var s2 := Step(config, s1, e[1]);
    assert s1.registry.current == None;
    calc {
      Run(config, joined, e);
      Run(config, s1, e[1..]);
      Run(config, s2, e[1..][1..]);
    }
  }

  // ---- The classes of the program ----

  class CapabilityCache {
    var registration: Option<Registration>

    constructor ()
      ensures registration == None
    {
      registration := None;
    }

    method Set(value: Registration)
      modifies this
      ensures registration == Some(value)
    {
      registration := Some(value);
    }

    method Clear()
      modifies this
      ensures registration == None
    {
      registration := None;
    }
  }

  class Server {
    const config: Config
    const wire: Wire
    const sessions: Sessions
    const capabilities: CapabilityCache
    const pending: P.Store
    var connections: map<nat, Connection>
    var accepting: bool
    var deliveries: seq<Delivery>

    ghost predicate Valid()
      reads this, sessions, wire
    {
      && sessions.wire == wire && sessions.policy == config.policy && sessions.Valid()
      && wire.sockets.Keys == connections.Keys
      && (forall id <- connections :: connections[id].session.Some? ==>
           connections[id].session.value < |sessions.sessions|)
    }

    ghost function View(): State
      reads this, sessions, sessions.wire, capabilities, pending
    {
      State(sessions.View(), connections, capabilities.registration, pending.View(), accepting, deliveries)
    }

    constructor (config: Config)
      ensures Valid() && View() == INITIAL && this.config == config
      ensures fresh(wire) && fresh(sessions) && fresh(capabilities) && fresh(pending)
    {
      this.config := config;
      var sockets := new Wire();
      wire := sockets;
      sessions := new Sessions(config.policy, sockets);
      capabilities := new CapabilityCache();
      pending := new P.Store();
      connections, accepting, deliveries := map[], true, [];
    }

    method OnConnection(socket: nat, nonce: string)
      requires Valid()
      modifies this, wire
      ensures Valid() && View() == Connected(old(View()), socket, nonce)
    {
      if !accepting || socket in connections {
        return;
      }
      wire.sockets := wire.sockets[socket := Socket(Open, None)];
      connections := connections[socket := Connection(nonce, None, None, true, None)];
    }

    method OnProof(socket: nat, proof: Option<Proof>)
      requires Valid() && socket in connections
      modifies this, wire
      ensures Valid() && View() == Proved(config, old(View()), socket, proof)
    {
      var state := connections[socket];
      if proof.None? {
        wire.Close(socket, INVALID_MESSAGE);
        return;
      }
      if state.userId.Some? || !Verifies(config, proof.value, state.nonce) {
        wire.Close(socket, NOT_AUTHENTICATED);
        return;
      }
      var authenticated := state.(userId := Some(proof.value.userId), authTimer := false, proof := proof);
      connections := connections[socket := authenticated];
    }

    method OnRegister(socket: nat, registration: Option<Registration>, now: int)
      requires Valid() && socket in connections
      modifies this, wire, sessions, capabilities
      ensures Valid() && View() == RegisterReceived(config, old(View()), socket, registration, now)
    {
      var state := connections[socket];
      if state.session.Some? || registration.None? || Some(registration.value.userId) != state.userId {
        wire.Close(socket, INVALID_MESSAGE);
        return;
      }
      var created := sessions.Register(socket, registration.value, now);
      if created.None? {
        wire.Close(socket, INVALID_MESSAGE);
        return;
      }
      connections := connections[socket := state.(session := created)];
      capabilities.Set(registration.value);
    }

    method OnMessage(socket: nat, message: Message, now: int)
      requires Valid() && Delivers(View(), socket)
      modifies this, wire, sessions, capabilities, pending
      ensures Valid() && View() == Received(config, old(View()), socket, message, now)
    {
      var state := connections[socket];
      if message.Malformed? {
        wire.Close(socket, INVALID_MESSAGE);
        return;
      }
      if message.AuthProof? {
        OnProof(socket, message.proof);
        return;
      }
      if state.userId.None? {
        wire.Close(socket, NOT_AUTHENTICATED);
        return;
      }
      if message.Register? {
        OnRegister(socket, message.registration, now);
        return;
      }
      if state.session.None? {
        wire.Close(socket, INVALID_MESSAGE);
        return;
      }
      sessions.Touch(state.session.value, now);
      if message.Ping? && message.valid {
        return;
      }
      if message.Response? && message.response.Some? {
        var known := pending.Settle(message.response.value);
        return;
      }
      wire.Close(socket, INVALID_MESSAGE);
    }

    method OnClose(socket: nat)
      requires Valid() && Delivers(View(), socket)
      modifies this, wire, sessions, capabilities, pending
      ensures Valid() && View() == SocketClosed(old(View()), socket)
    {
      wire.sockets := wire.sockets[socket := wire.sockets[socket].(ready := Closed)];
      var state := connections[socket];
      connections := connections[socket := state.(authTimer := false)];
      if state.session.Some? {
        var cleared := sessions.Clear(state.session.value);
        if cleared {
          capabilities.Clear();
          pending.RejectAll();
        }
      }
    }

    method OnAuthTimeout(socket: nat)
      requires Valid()
      modifies this, wire
      ensures Valid() && View() == AuthTimedOut(old(View()), socket)
    {
      if socket in connections && connections[socket].authTimer {
        connections := connections[socket := connections[socket].(authTimer := false)];
        wire.Close(socket, NOT_AUTHENTICATED);
      }
    }

    /** The synchronous part of `dispatch`; `sent` is false where its promise rejects at once. */
    method Dispatch(requestId: string, timeoutMs: nat, valid: bool, now: int) returns (sent: bool)
      requires Valid()
      modifies this, wire, sessions, pending
      ensures Valid() && View() == Routed(config, old(View()), requestId, timeoutMs, valid, now)
      ensures sent <==> |deliveries| > |old(deliveries)|
    {
      var active := sessions.GetActive(now);
      if active.None? || !valid {
        return false;
      }
      var ok := pending.Await(requestId, timeoutMs, now);
      if !ok {
        return false;
      }
      deliveries := deliveries + [Delivery(sessions.sessions[active.value].socket, active.value, requestId)];
      return true;
    }

    method Shutdown()
      requires Valid()
      modifies this, wire, sessions, pending
      ensures Valid() && View() == Stopped(old(View()))
    {
      pending.RejectAll();
      sessions.Shutdown();
      accepting := false;
    }
  }
}
