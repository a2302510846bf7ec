// Sockets, the sessions registered on them, and the registry's one current session.
module SessionRegistry {
  import opened Common

  /** `close()` only moves a socket to CLOSING; the close event comes later (section 7.1.3 of RFC 6455). */
  datatype Ready = Open | Closing | Closed

  datatype Socket = Socket(ready: Ready, closeCode: Option<nat>) {
    function Close(code: nat): Socket {
      if ready.Open? then Socket(Closing, Some(code)) else this
    }
  }

  datatype Registration = Registration(worldId: string, userId: string, isGM: bool, details: string)

  datatype Session = Session(socket: nat, registration: Registration, lastSeen: int)

  /** A session is named by the order of its creation. */
  datatype Registry = Registry(sockets: map<nat, Socket>, sessions: seq<Session>, current: Option<nat>)

  datatype Policy = Policy(targetWorldId: string, heartbeatTimeoutMs: int)

  const REPLACED: nat := 4001
  const HEARTBEAT_TIMEOUT: nat := 4000
  const SHUTTING_DOWN: nat := 1001

  function CloseSocket(sockets: map<nat, Socket>, socket: nat, code: nat): map<nat, Socket> {
    if socket in sockets then sockets[socket := sockets[socket].Close(code)] else sockets
  }

  predicate Admissible(policy: Policy, registration: Registration) {
    registration.worldId == policy.targetWorldId && registration.isGM
  }

  function Registered(r: Registry, socket: nat, registration: Registration, now: int): Registry {
    Registry(if r.current.Some? && r.current.value < |r.sessions| && r.sessions[r.current.value].socket != socket
             then CloseSocket(r.sockets, r.sessions[r.current.value].socket, REPLACED) else r.sockets,
             r.sessions + [Session(socket, registration, now)],
             Some(|r.sessions|))
  }

  predicate Alive(policy: Policy, r: Registry, session: nat, now: int)
    requires session < |r.sessions|
  {
    var x := r.sessions[session];
    x.socket in r.sockets && r.sockets[x.socket].ready.Open? && now - x.lastSeen <= policy.heartbeatTimeoutMs
  }

  /** The session that `getActive` returns, and the registry after it has evicted a dead one. */
  function Active(policy: Policy, r: Registry, now: int): (Registry, Option<nat>) {
    if r.current.None? || r.current.value >= |r.sessions| then (r, None)
    else if Alive(policy, r, r.current.value, now) then (r, r.current)
    else (r.(sockets := CloseSocket(r.sockets, r.sessions[r.current.value].socket, HEARTBEAT_TIMEOUT), current :=
      None), None)
  }

  function ShutDown(r: Registry): Registry {
    if r.current.None? || r.current.value >= |r.sessions| then r.(current := None)
    else r.(sockets := CloseSocket(r.sockets, r.sessions[r.current.value].socket, SHUTTING_DOWN), current := None)
  }

  /** The sockets of the running server. */
  class Wire {
    var sockets: map<nat, Socket>

    constructor ()
      ensures sockets == map[]
    {
      sockets := map[];
    }

    method Close(socket: nat, code: nat)
      modifies this
      ensures sockets == CloseSocket(old(sockets), socket, code)
    {
      if socket in sockets && sockets[socket].ready.Open? {
        sockets := sockets[socket := Socket(Closing, Some(code))];
      }
    }
  }

  class Sessions {
    const policy: Policy
    const wire: Wire
    var sessions: seq<Session>
    var session: Option<nat>

    ghost predicate Valid()
      reads this
    {
      session.Some? ==> session.value < |sessions|
    }

    ghost function View(): Registry
      reads this, wire
    {
      Registry(wire.sockets, sessions, session)
    }

    constructor (policy: Policy, wire: Wire)
      ensures Valid() && this.policy == policy && this.wire == wire && sessions == [] && session == None
    {
      this.policy, this.wire := policy, wire;
      sessions, session := [], None;
    }

    /** `None` where the program throws: wrong world, or not a GM. */
    method Register(socket: nat, registration: Registration, now: int) returns (created: Option<nat>)
      requires Valid()
      modifies this, wire
      ensures Valid()
      ensures created == if Admissible(policy, registration) then Some(|old(sessions)|) else None
      ensures View() == if Admissible(policy, registration) then Registered(old(View()), socket, registration, now)
              else old(View())
    {
      if registration.worldId != policy.targetWorldId || !registration.isGM {
        return None;
      }
      var previous := session;
      created := Some(|sessions|);
      sessions := sessions + [Session(socket, registration, now)];
      session := created;
      if previous.Some? && sessions[previous.value].socket != socket {
        wire.Close(sessions[previous.value].socket, REPLACED);
      }
    }

    method Clear(which: nat) returns (cleared: bool)
      requires Valid()
      modifies this
      ensures Valid() && sessions == old(sessions)
      ensures cleared == (old(session) == Some(which)) && session == if cleared then None else old(session)
    {
      if session == Some(which) {
        session := None;
        return true;
      }
      return false;
    }

    method GetActive(now: int) returns (active: Option<nat>)
      requires Valid()
      modifies this, wire
      ensures Valid()
      ensures (View(), active) == Active(policy, old(View()), now)
    {
      if session.None? {
        return None;
      }
      var current := sessions[session.value];
      var open := current.socket in wire.sockets && wire.sockets[current.socket].ready.Open?;
      if !open || now - current.lastSeen > policy.heartbeatTimeoutMs {
        wire.Close(current.socket, HEARTBEAT_TIMEOUT);
        var cleared := Clear(session.value);
        return None;
      }
      return session;
    }

    method Touch(which: nat, now: int)
      requires Valid() && which < |sessions|
      modifies this
      ensures Valid() && session == old(session)
      ensures sessions == old(sessions)[which := old(sessions)[which].(lastSeen := now)]
    {
      sessions := sessions[which := sessions[which].(lastSeen := now)];
    }

    method Shutdown()
      requires Valid()
      modifies this, wire
      ensures Valid()
      ensures View() == ShutDown(old(View()))
    {
      if session.Some? {
        wire.Close(sessions[session.value].socket, SHUTTING_DOWN);
      }
      session := None;
    }
  }

  // ---- At most one session with an open socket ----

  ghost predicate HasOpenSocket(r: Registry, session: nat)
    requires session < |r.sessions|
  {
    r.sessions[session].socket in r.sockets && r.sockets[r.sessions[session].socket].ready.Open?
  }

  /** The only registered session that may have an open socket is the registry's. */
  ghost predicate OneOpenSession(r: Registry) {
    && (r.current.Some? ==> r.current.value < |r.sessions|)
    && (forall x: nat | x < |r.sessions| && HasOpenSocket(r, x) :: r.current == Some(x))
  }

  /** Registering closes the socket of the session it replaces. */
  lemma RegisteredKeepsOneOpen(r: Registry, socket: nat, registration: Registration, now: int)
    requires OneOpenSession(r) && forall x: nat | x < |r.sessions| :: r.sessions[x].socket != socket
    ensures OneOpenSession(Registered(r, socket, registration, now))
  {
  }

  lemma ActiveKeepsOneOpen(policy: Policy, r: Registry, now: int)
    requires OneOpenSession(r)
    ensures OneOpenSession(Active(policy, r, now).0)
  {
  }

  lemma ShutDownKeepsOneOpen(r: Registry)
    requires OneOpenSession(r)
    ensures OneOpenSession(ShutDown(r)) && forall x: nat | x < |r.sessions| :: !HasOpenSocket(ShutDown(r), x)
  {
  }

  lemma ClosedKeepsOneOpen(r: Registry, socket: nat, r': Registry)
    requires OneOpenSession(r) && socket in r.sockets
    requires r'.sockets == r.sockets[socket := r.sockets[socket].(ready := Closed)] && r'.sessions == r.sessions
    requires r'.current == r.current
             || (r'.current == None && r.current.Some? && r.sessions[r.current.value].socket == socket)
    ensures OneOpenSession(r')
  {
  }
}
