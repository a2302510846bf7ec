// The bridge protocol from outside: what each event does to the server, with the conditions and close codes spelled
// out,
// and what must have been received before.
module BridgeLaws {
  import opened Common
  import opened SessionRegistry
  import B = BridgeServer
  import P = PendingRequests

  /** The proof answers the challenge `nonce`, names the target world, and carries the HMAC that only the secret
      gives. */
  ghost predicate Answers(config: B.Config, nonce: string, p: B.Proof) {
    && p.nonce == nonce && p.worldId == config.policy.targetWorldId
    && p.digest == Some(config.mac(config.secret, nonce + ":" + p.worldId + ":" + p.userId))
  }

  /** The sockets with this one closing; one that was closing already keeps its code. */
  function Closing(sockets: map<nat, Socket>, socket: nat, code: nat): map<nat, Socket>
    requires socket in sockets
  {
    if sockets[socket].ready == Open then sockets[socket := Socket(Ready.Closing, Some(code))] else sockets
  }

  /** Nothing happens but that the socket is closed with this code. */
  ghost predicate OnlyCloses(s: B.State, s': B.State, socket: nat, code: nat)
    requires socket in s.registry.sockets
  {
    s' == s.(registry := s.registry.(sockets := Closing(s.registry.sockets, socket, code)))
  }

  ghost predicate Attached(s: B.State, socket: nat) {
    socket in s.connections && socket in s.registry.sockets
  }

  // ---- One message ----

  lemma ClosingIsClose(s: B.State, socket: nat, code: nat)
    requires socket in s.registry.sockets
    ensures OnlyCloses(s, B.Closing(s, socket, code), socket, code)
  {
    assert s.registry.sockets[socket := s.registry.sockets[socket]] == s.registry.sockets;
  }

  /** A proof authenticates a connection exactly when it is its first good one; any other leaves the socket not open. */
  lemma ProofDecides(config: B.Config, s: B.State, socket: nat, proof: Option<B.Proof>, now: int)
    requires Attached(s, socket)
    ensures var c := s.connections[socket];
            var s' := B.Received(config, s, socket, B.AuthProof(proof), now);
            if proof.Some? && c.userId == None && Answers(config, c.nonce, proof.value)
            then s' == s.(connections := s.connections[socket :=
                            B.Connection(c.nonce, Some(proof.value.userId), c.session, false, proof)])
            else && OnlyCloses(s, s', socket, if proof == None then 4002 else 4003)
                 && s'.registry.sockets[socket].ready != Open
  {
    ClosingIsClose(s, socket, 4002);
    ClosingIsClose(s, socket, 4003);
  }

  /** Before authentication every other message closes the socket and does nothing else. */
  lemma UnprovedIsRefused(config: B.Config, s: B.State, socket: nat, message: B.Message, now: int)
    requires Attached(s, socket) && s.connections[socket].userId == None && !message.AuthProof?
    ensures OnlyCloses(s, B.Received(config, s, socket, message, now), socket,
              if message == B.Malformed then 4002 else 4003)
  {
    ClosingIsClose(s, socket, 4002);
    ClosingIsClose(s, socket, 4003);
  }

  function CloseOther(sockets: map<nat, Socket>, previous: nat, socket: nat): map<nat, Socket> {
    if previous != socket && previous in sockets then Closing(sockets, previous, 4001) else sockets
  }

  /** Registering works exactly once for a connection, for the user that proved the secret, as a GM of the target
      world. The newcomer becomes the current session with its capabilities cached, and the socket of another one
      before it is closed. */
  lemma RegistrationDecides(config: B.Config, s: B.State, socket: nat, m: Option<Registration>, now: int)
    requires B.Inv(config, s) && Attached(s, socket) && s.connections[socket].userId.Some?
    ensures var c := s.connections[socket];
            var s' := B.Received(config, s, socket, B.Register(m), now);
            if c.session == None && m.Some? && m.value.userId == c.userId.value
               && m.value.worldId == config.policy.targetWorldId && m.value.isGM
            then && s'.registry.sessions == s.registry.sessions + [Session(socket, m.value, now)]
                 && s'.registry.current == Some(|s.registry.sessions|) && s'.cache == m
                 && s'.connections == s.connections[socket := c.(session := Some(|s.registry.sessions|))]
                 && s'.pending == s.pending && s'.deliveries == s.deliveries && s'.accepting == s.accepting
                 && s'.registry.sockets == (if s.registry.current == None then s.registry.sockets
                      else CloseOther(s.registry.sockets, s.registry.sessions[s.registry.current.value].socket, socket))
            else OnlyCloses(s, s', socket, 4002)
  {
    ClosingIsClose(s, socket, 4002);
    if s.registry.current.Some? {
      var previous := s.registry.sessions[s.registry.current.value].socket;
      assert B.Vouched(config, s.registry.sessions, s.connections, s.registry.current.value);
      assert s.registry.sockets[previous := s.registry.sockets[previous]] == s.registry.sockets;
    }
  }

  /** The state with one session heard from just now. */
  function Dated(s: B.State, session: nat, now: int): B.State
    requires session < |s.registry.sessions|
  {
    var x := s.registry.sessions[session];
    s.(registry := s.registry.(sessions := s.registry.sessions[session := Session(x.socket, x.registration, now)]))
  }

  /** An authenticated connection without a session can only register; one with a session is heard from, and its answers
      settle requests; anything else closes the socket. */
  lemma LaterMessageDecides(config: B.Config, s: B.State, socket: nat, message: B.Message, now: int)
    requires B.Inv(config, s) && Attached(s, socket) && s.connections[socket].userId.Some?
    requires !message.AuthProof? && !message.Register?
    ensures var session := s.connections[socket].session;
            var s' := B.Received(config, s, socket, message, now);
            if message == B.Malformed || session == None then OnlyCloses(s, s', socket, 4002)
            else if message == B.Ping(true) then s' == Dated(s, session.value, now)
            else if message.Response? && message.response.Some?
            then s' == Dated(s, session.value, now).(pending := P.Settled(s.pending, message.response.value))
            else OnlyCloses(Dated(s, session.value, now), s', socket, 4002)
  {
    ClosingIsClose(s, socket, 4002);
    var session := s.connections[socket].session;
    if session.Some? {
      ClosingIsClose(Dated(s, session.value, now), socket, 4002);
    }
  }

  // ---- Other events ----

  /** The current session, when its socket is open and it was heard from within the timeout. */
  ghost predicate IsLive(config: B.Config, s: B.State, now: int) {
    && s.registry.current.Some? && s.registry.current.value < |s.registry.sessions|
    && var x := s.registry.sessions[s.registry.current.value];
       && x.socket in s.registry.sockets && s.registry.sockets[x.socket].ready == Open
       && now - x.lastSeen <= config.policy.heartbeatTimeoutMs
  }

  /** Looking at the registry changes nothing while the current session is live; otherwise it evicts it with code
      4000. */
  lemma LookDecides(config: B.Config, s: B.State, now: int)
    requires B.Inv(config, s)
    ensures var (r', active) := Active(config.policy, s.registry, now);
            if IsLive(config, s, now) then r' == s.registry && active == s.registry.current
            else && active == None && r'.current == None && r'.sessions == s.registry.sessions
                 && (s.registry.current.None? ==> r'.sockets == s.registry.sockets)
                 && (s.registry.current.Some? ==>
                       var socket := s.registry.sessions[s.registry.current.value].socket;
                       socket in s.registry.sockets && r'.sockets == Closing(s.registry.sockets, socket, 4000))
  {
    if s.registry.current.Some? {
      var socket := s.registry.sessions[s.registry.current.value].socket;
      assert B.Vouched(config, s.registry.sessions, s.connections, s.registry.current.value);
      assert s.registry.sockets[socket := s.registry.sockets[socket]] == s.registry.sockets;
    }
  }

  /** A request goes out exactly when the current session is live, the request meets its schema and its id is not in
      use; it is written to that session's socket and pending until its deadline. Otherwise nothing is sent or left
      pending. */
  lemma DispatchDecides(config: B.Config, s: B.State, requestId: string, timeoutMs: nat, valid: bool, now: int)
    requires B.Inv(config, s)
    ensures var s' := B.Routed(config, s, requestId, timeoutMs, valid, now);
            && s'.registry == Active(config.policy, s.registry, now).0
            && if IsLive(config, s, now) && valid && requestId !in s.pending.requests
               then && s'.deliveries == s.deliveries + [B.Delivery(s.registry.sessions[s.registry.current.value].socket,
                                                                   s.registry.current.value, requestId)]
                    && s'.pending.waits == s.pending.waits + [P.Wait(requestId, now + timeoutMs)]
                    && requestId in s'.pending.requests
               else s'.deliveries == s.deliveries && s'.pending == s.pending
  {
    LookDecides(config, s, now);
  }

  /** A close event empties cache and pending requests exactly when it is the current session's; it never touches
      another connection. */
  lemma CloseDecides(config: B.Config, s: B.State, socket: nat)
    requires B.Inv(config, s) && B.Delivers(s, socket)
    ensures var s' := B.SocketClosed(s, socket);
            var own := s.registry.current.Some? && s.registry.sessions[s.registry.current.value].socket == socket;
            && s'.registry.sockets == s.registry.sockets[socket := Socket(Closed, s.registry.sockets[socket].closeCode)]
            && s'.registry.sessions == s.registry.sessions && s'.deliveries == s.deliveries
            && s'.registry.current == (if own then None else s.registry.current)
            && s'.cache == (if own then None else s.cache)
            && s'.pending == (if own then P.RejectedAll(s.pending) else s.pending)
            && s'.connections == s.connections[socket := s.connections[socket].(authTimer := false)]
  {
    if s.registry.current.Some? {
      assert B.Vouched(config, s.registry.sessions, s.connections, s.registry.current.value);
    }
  }

  /** A new connection starts with its own nonce, unproved, with an open socket and an armed timer, unless the server no
      longer accepts any. */
  lemma ConnectDecides(s: B.State, socket: nat, nonce: string)
    requires socket !in s.connections && socket !in s.registry.sockets
    ensures var s' := B.Connected(s, socket, nonce);
            if s.accepting
            then && s'.connections == s.connections[socket := B.Connection(nonce, None, None, true, None)]
                 && s'.registry == s.registry.(sockets := s.registry.sockets[socket := Socket(Open, None)])
            else s' == s
  {
  }

  /** After a shutdown nothing is pending, there is no current session and no registered session has an open socket, and
      nobody can connect. */
  lemma ShutdownDecides(config: B.Config, s: B.State, socket: nat, nonce: string)
    requires B.Inv(config, s)
    ensures var s' := B.Stopped(s);
            && s'.pending == P.RejectedAll(s.pending) && s'.registry.current == None
            && B.Connected(s', socket, nonce) == s'
            && (forall x: nat | x < |s.registry.sessions| :: !HasOpenSocket(s'.registry, x))
            && (s.registry.current.Some? ==>
                  var last := s.registry.sessions[s.registry.current.value].socket;
                  last in s.registry.sockets && s'.registry.sockets == Closing(s.registry.sockets, last, 1001))
  {
    ShutDownKeepsOneOpen(s.registry);
    if s.registry.current.Some? {
      var last := s.registry.sessions[s.registry.current.value].socket;
      assert B.Vouched(config, s.registry.sessions, s.connections, s.registry.current.value);
      assert s.registry.sockets[last := s.registry.sockets[last]] == s.registry.sockets;
    }
  }

  // ---- Over every run ----

  ghost predicate WasSent(events: seq<B.Event>, socket: nat, message: B.Message) {
    exists i :: 0 <= i < |events| && events[i].Receives? && events[i].socket == socket && events[i].message == message
  }

  /** A proof that answers the challenge `nonce` came in on the socket, for this user. */
  ghost predicate WasProved(config: B.Config, events: seq<B.Event>, socket: nat, nonce: string, userId: string) {
    exists p: B.Proof :: p.userId == userId && Answers(config, nonce, p)
      && WasSent(events, socket, B.AuthProof(Some(p)))
  }

  ghost predicate ProofWasSent(config: B.Config, events: seq<B.Event>, socket: nat, c: B.Connection) {
    c.userId.Some? ==> WasProved(config, events, socket, c.nonce, c.userId.value)
  }

  ghost predicate ProofsWereSent(config: B.Config, s: B.State, events: seq<B.Event>) {
    forall socket <- s.connections :: ProofWasSent(config, events, socket, s.connections[socket])
  }

  lemma SentBefore(events: seq<B.Event>, e: B.Event, socket: nat, message: B.Message)
    requires WasSent(events, socket, message) || (e.Receives? && e.socket == socket && e.message == message)
    ensures WasSent(events + [e], socket, message)
  {
    if WasSent(events, socket, message) {
      var i :| 0 <= i < |events| && events[i].Receives? && events[i].socket == socket && events[i].message == message;
      assert (events + [e])[i] == events[i];
    } else {
      assert (events + [e])[|events|] == e;
    }
  }

  /** What one event may do to a connection's nonce and user. */
  lemma StepProves(config: B.Config, s: B.State, e: B.Event, socket: nat)
    requires socket in B.Step(config, s, e).connections && s.registry.sockets.Keys == s.connections.Keys
    ensures var c' := B.Step(config, s, e).connections[socket];
            || c'.userId == None
            || (socket in s.connections && c'.nonce == s.connections[socket].nonce
                  && c'.userId == s.connections[socket].userId)
            || (exists p: B.Proof :: e.Receives? && e.socket == socket && e.message == B.AuthProof(Some(p))
                  && p.userId == c'.userId.value && Answers(config, c'.nonce, p))
  {
    if e.Receives? && e.message.AuthProof? && e.socket == socket && B.Delivers(s, socket) {
      ProofDecides(config, s, socket, e.message.proof, e.now);
    }
  }

  lemma StepKeepsProofs(config: B.Config, s: B.State, events: seq<B.Event>, e: B.Event)
    requires ProofsWereSent(config, s, events) && s.registry.sockets.Keys == s.connections.Keys
    ensures ProofsWereSent(config, B.Step(config, s, e), events + [e])
  {
    var s' := B.Step(config, s, e);
    forall socket <- s'.connections ensures ProofWasSent(config, events + [e], socket, s'.connections[socket]) {
      var c' := s'.connections[socket];
      StepProves(config, s, e, socket);
      if c'.userId.Some? {
        var p: B.Proof :| p.userId == c'.userId.value && Answers(config, c'.nonce, p)
          && (WasSent(events, socket, B.AuthProof(Some(p)))
              || (e.Receives? && e.socket == socket && e.message == B.AuthProof(Some(p))));
        SentBefore(events, e, socket, B.AuthProof(Some(p)));
      }
    }
  }

  lemma {:induction false} RunSnoc(config: B.Config, s: B.State, events: seq<B.Event>, e: B.Event)
    ensures B.Run(config, s, events + [e]) == B.Step(config, B.Run(config, s, events), e)
    decreases |events|
  {
    if events == [] {
      assert [] + [e] == [e] && [e][1..] == [];
    } else {
      assert (events + [e])[1..] == events[1..] + [e];
      RunSnoc(config, B.Step(config, s, events[0]), events[1..], e);
    }
  }

  /** Every authenticated connection was sent a proof that answers its own challenge, for that user, made with the
      secret. */
  lemma {:induction false} AuthenticatedWasProved(config: B.Config, events: seq<B.Event>)
    ensures ProofsWereSent(config, B.Run(config, B.INITIAL, events), events)
    decreases |events|
  {
    if events != [] {
      var init, last := events[..|events| - 1], events[|events| - 1];
      assert events == init + [last];
      AuthenticatedWasProved(config, init);
      B.EveryRunKeepsInv(config, init);
      RunSnoc(config, B.INITIAL, init, last);
      StepKeepsProofs(config, B.Run(config, B.INITIAL, init), init, last);
    }
  }

  /** Every registered session was registered by its own socket, as a GM of the target world, for a user who had
      proved the secret on that socket. */
  lemma SessionsWereProved(config: B.Config, events: seq<B.Event>, session: nat)
    requires session < |B.Run(config, B.INITIAL, events).registry.sessions|
    ensures var s := B.Run(config, B.INITIAL, events);
            var x := s.registry.sessions[session];
            && x.registration.worldId == config.policy.targetWorldId && x.registration.isGM
            && x.socket in s.connections
            && WasProved(config, events, x.socket, s.connections[x.socket].nonce, x.registration.userId)
  {
    B.EveryRunKeepsInv(config, events);
    AuthenticatedWasProved(config, events);
    var s := B.Run(config, B.INITIAL, events);
    assert B.Vouched(config, s.registry.sessions, s.connections, session);
  }

  ghost predicate TimersAwaitProof(s: B.State) {
    forall socket <- s.connections :: s.connections[socket].authTimer ==> s.connections[socket].userId == None
  }

  lemma {:induction false} RunAwaitsProof(config: B.Config, s: B.State, events: seq<B.Event>)
    requires TimersAwaitProof(s)
    ensures TimersAwaitProof(B.Run(config, s, events))
    decreases |events|
  {
    if events != [] {
      RunAwaitsProof(config, B.Step(config, s, events[0]), events[1..]);
    }
  }

  /** The authentication timer closes exactly the connections that have not proved anything and have not closed. */
  lemma AuthTimeoutDecides(config: B.Config, events: seq<B.Event>, socket: nat)
    requires socket in B.Run(config, B.INITIAL, events).connections
    ensures var s := B.Run(config, B.INITIAL, events);
            var c := s.connections[socket];
            var s' := B.AuthTimedOut(s, socket);
            && socket in s.registry.sockets && (c.userId.Some? ==> s' == s)
            && s'.registry.sockets ==
               (if c.authTimer then Closing(s.registry.sockets, socket, 4003) else s.registry.sockets)
            && s'.registry.sessions == s.registry.sessions && s'.registry.current == s.registry.current
  {
    B.EveryRunKeepsInv(config, events);
    RunAwaitsProof(config, B.INITIAL, events);
    ClosingIsClose(B.Run(config, B.INITIAL, events), socket, 4003);
  }
}
