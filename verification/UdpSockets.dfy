/** The multicaster: one legacy socket for its own port, one cached socket per other port, and two
    counters. What the sockets do is an input of every call; where a datagram goes is decided by
    the socket that sends it. */
module UdpSockets {
  import opened Bits
  import opened Text

  /** A socket with its creation number and the port it is connected to, if connecting worked. */
  datatype Socket = Socket(id: nat, peer: Option<u16>)

  datatype SendOutcome = Sent(bytes: nat) | Blocked | Broken

  /** What the operating system answers during one call. */
  datatype Answers = Answers(binds: bool, connects: bool, send: SendOutcome)

  datatype Result = Done | BindFailed | SendFailed

  /** A datagram that left the host, with the port it was sent to. */
  datatype Delivery = Delivery(port: u16, data: seq<u8>, bytes: nat)

  datatype State = State(target: u16, legacy: Socket, sockets: map<u16, Socket>, made: nat,
                         packetsSent: u64, bytesSent: u64, log: seq<Delivery>)

  function Fresh(target: u16, connected: bool): State {
    State(target, Socket(0, if connected then Some(target) else None), map[], 1, 0, 0, [])
  }

  /** A datagram handed to the system for a destination. */
  function SendTo(s: State, port: u16, data: seq<u8>, outcome: SendOutcome): (State, Result) {
    match outcome
    case Sent(bytes) =>
      (s.(packetsSent := (s.packetsSent + 1) % TWO_64, bytesSent := (s.bytesSent + bytes) % TWO_64,
          log := s.log + [Delivery(port, data, bytes)]), Done)
    case Blocked => (s, Done)
    case Broken => (s, SendFailed)
  }

  /** A send that names no address goes to the peer of its socket, and fails without one. */
  function SendOn(s: State, socket: Socket, data: seq<u8>, outcome: SendOutcome): (State, Result) {
    match socket.peer
    case None => (s, SendFailed)
    case Some(port) => SendTo(s, port, data, outcome)
  }

  /** The socket a call uses for a port that is not the legacy one, if it can have one. */
  function SocketFor(s: State, port: u16, answers: Answers): Option<Socket> {
    if port in s.sockets then Some(s.sockets[port])
    else if answers.binds then Some(Socket(s.made, if answers.connects then Some(port) else None))
    else None
  }

  function WithSocket(s: State, port: u16, answers: Answers): State {
    if port in s.sockets || !answers.binds then s
    else s.(sockets := s.sockets[port := SocketFor(s, port, answers).value], made := s.made + 1)
  }

  /** The legacy path: a connected socket sends to its peer, another one names the target. */
  function AfterLegacySend(s: State, data: seq<u8>, answers: Answers): (State, Result) {
    if s.legacy.peer.Some? then SendOn(s, s.legacy, data, answers.send) else SendTo(s, s.target, data, answers.send)
  }

  function AfterSend(s: State, port: u16, data: seq<u8>, answers: Answers): (State, Result) {
    if port == s.target then AfterLegacySend(s, data, answers)
    else
      match SocketFor(s, port, answers)
      case None => (s, BindFailed)
      case Some(socket) => SendOn(WithSocket(s, port, answers), socket, data, answers.send)
  }

  function AfterReset(s: State): State {
    s.(packetsSent := 0, bytesSent := 0)
  }

  class UdpMulticaster {
    const target: u16
    const connected: bool
    const legacy: Socket
    var sockets: map<u16, Socket>
    var packetsSent: u64
    var bytesSent: u64
    var made: nat
    ghost var log: seq<Delivery>

    ghost function View(): State
      reads this
    {
      State(target, legacy, sockets, made, packetsSent, bytesSent, log)
    }

    ghost predicate Valid()
      reads this
    {
      CacheInv(View()) && (connected <==> legacy.peer.Some?)
    }

    constructor (target: u16, connects: bool)
      ensures View() == Fresh(target, connects) && Valid()
    {
      this.target, connected := target, connects;
      legacy := Socket(0, if connects then Some(target) else None);
      sockets, packetsSent, bytesSent := map[], 0, 0;
      made, log := 1, [];
    }

    /** What happens to the counters when the system answers a send to `port`. */
    method Account(port: u16, data: seq<u8>, outcome: SendOutcome) returns (r: Result)
      requires Valid()
      modifies this`packetsSent, this`bytesSent, this`log
      ensures (View(), r) == SendTo(old(View()), port, data, outcome) && Valid()
    {
      match outcome
      case Sent(bytes) =>
        packetsSent := (packetsSent + 1) % TWO_64;
        bytesSent := (bytesSent + bytes) % TWO_64;
        log := log + [Delivery(port, data, bytes)];
        r := Done;
      case Blocked => r := Done;
      case Broken => r := SendFailed;
    }

    /** A send on a socket, without an address. */
    method SocketSend(socket: Socket, data: seq<u8>, outcome: SendOutcome) returns (r: Result)
      requires Valid()
      modifies this`packetsSent, this`bytesSent, this`log
      ensures (View(), r) == SendOn(old(View()), socket, data, outcome) && Valid()
    {
      if socket.peer.None? {
        return SendFailed;
      }
      r := Account(socket.peer.value, data, outcome);
    }

    /** The legacy port. A socket that could not be connected names the target in every send. */
    method SendPacket(data: seq<u8>, answers: Answers) returns (r: Result)
      requires Valid()
      modifies this`packetsSent, this`bytesSent, this`log
      ensures Valid() && (View(), r) == SendTo(old(View()), target, data, answers.send)
    {
      if connected {
        r := SocketSend(legacy, data, answers.send);
      } else {
        r := Account(target, data, answers.send);
      }
    }

    method SendPacketToPort(data: seq<u8>, port: u16, answers: Answers) returns (r: Result)
      requires Valid()
      modifies this
      ensures Valid() && (View(), r) == AfterSend(old(View()), port, data, answers)
    {
      hide CacheInv;
      StepKeepsCache(View(), ToPort(port, data, answers));
      LegacyReachesTarget(View(), data, answers);
      if port == target {
        r := SendPacket(data, answers);
        return;
      }
      if port !in sockets {
        if !answers.binds {
          return BindFailed;
        }
        var socket := Socket(made, if answers.connects then Some(port) else None);
        NewSocketKeepsCache(View(), port, answers);
        made := made + 1;
        sockets := sockets[port := socket];
      }
      r := SocketSend(sockets[port], data, answers.send);
    }

    method ResetStats()
      requires Valid()
      modifies this`packetsSent, this`bytesSent
      ensures Valid() && View() == AfterReset(old(View()))
    {
      packetsSent, bytesSent := 0, 0;
    }
  }

  // ----- Runs -----

  datatype Operation =
    | ToPort(port: u16, data: seq<u8>, answers: Answers)
    | Legacy(data: seq<u8>, answers: Answers)
    | Reset

  function After(s: State, op: Operation): State {
    match op
    case ToPort(port, data, answers) => AfterSend(s, port, data, answers).0
    case Legacy(data, answers) => AfterLegacySend(s, data, answers).0
    case Reset => AfterReset(s)
  }

  function RunFrom(s: State, ops: seq<Operation>): State
    decreases |ops|
  {
    if ops == [] then s else RunFrom(After(s, ops[0]), ops[1..])
  }

  /** Each cached port has its own socket, made for that port; the legacy port has none, and its own
      socket is connected to nothing else. */
  ghost predicate CacheInv(s: State) {
    && s.target !in s.sockets
    && (s.legacy.peer == None || s.legacy.peer == Some(s.target)) && s.legacy.id < s.made
    && (forall p :: p in s.sockets ==> s.sockets[p].id < s.made && s.sockets[p].id != s.legacy.id)
    && (forall p :: p in s.sockets ==> s.sockets[p].peer == None || s.sockets[p].peer == Some(p))
    && (forall p, q :: p in s.sockets && q in s.sockets && p != q ==> s.sockets[p].id != s.sockets[q].id)
  }

  /** `t` still uses every socket of `s`. */
  ghost predicate KeepsSockets(s: State, t: State) {
    && s.target == t.target && s.legacy == t.legacy
    && forall p :: p in s.sockets ==> p in t.sockets && t.sockets[p] == s.sockets[p]
  }

  lemma NewSocketKeepsCache(s: State, port: u16, answers: Answers)
    requires CacheInv(s) && port != s.target
    ensures CacheInv(WithSocket(s, port, answers)) && KeepsSockets(s, WithSocket(s, port, answers))
  {
  }

  /** Sending touches the log and the counters only. */
  lemma SendingKeepsSockets(s: State, socket: Socket, port: u16, data: seq<u8>, outcome: SendOutcome)
    ensures SameSockets(s, SendTo(s, port, data, outcome).0)
    ensures SameSockets(s, SendOn(s, socket, data, outcome).0)
  {
  }

  predicate SameSockets(s: State, t: State) {
    t.target == s.target && t.legacy == s.legacy && t.sockets == s.sockets && t.made == s.made
  }

  lemma SameSocketsSameCache(s: State, t: State, u: State)
    requires SameSockets(t, u)
    requires CacheInv(t) && KeepsSockets(s, t)
    ensures CacheInv(u) && KeepsSockets(s, u)
  {
  }

  lemma StepKeepsCache(s: State, op: Operation)
    requires CacheInv(s)
    ensures CacheInv(After(s, op)) && KeepsSockets(s, After(s, op))
  {
    hide CacheInv, SendTo, SendOn, WithSocket, SocketFor, SameSockets;
    var u := After(s, op);
    if op.ToPort? && op.port != s.target && SocketFor(s, op.port, op.answers).Some? {
      var t := WithSocket(s, op.port, op.answers);
      NewSocketKeepsCache(s, op.port, op.answers);
      SendingKeepsSockets(t, SocketFor(s, op.port, op.answers).value, op.port, op.data, op.answers.send);
      SameSocketsSameCache(s, t, u);
    } else {
      if !op.Reset? {
        SendingKeepsSockets(s, s.legacy, s.target, op.data, op.answers.send);
      }
      NothingChanges(s, u);
      SameSocketsSameCache(s, s, u);
    }
  }

  lemma NothingChanges(s: State, u: State)
    requires SameSockets(s, u) || u == s || u == AfterReset(s)
    ensures SameSockets(s, u)
  {
  }

  /** On every run, whatever the sockets do: one socket per cached port, made for that port and
      never replaced, and the legacy port is never cached. */
  lemma {:induction false} SocketsStay(s: State, ops: seq<Operation>)
    requires CacheInv(s)
    ensures CacheInv(RunFrom(s, ops)) && KeepsSockets(s, RunFrom(s, ops))
    decreases |ops|
  {
    if ops != [] {
      hide CacheInv, After;
      StepKeepsCache(s, ops[0]);
      SocketsStay(After(s, ops[0]), ops[1..]);
    }
  }

  lemma FreshStart(target: u16, connected: bool)
    ensures CacheInv(Fresh(target, connected)) && CountsFrom(Fresh(target, connected), 0)
  {
  }

  // ----- Where datagrams go -----

  /** The legacy path reaches the target with and without a connected socket. */
  lemma LegacyReachesTarget(s: State, data: seq<u8>, answers: Answers)
    requires CacheInv(s)
    ensures AfterLegacySend(s, data, answers) == SendTo(s, s.target, data, answers.send)
  {
  }

  predicate Requests(op: Operation, target: u16, d: Delivery) {
    match op
    case ToPort(port, data, answers) => d == Delivery(port, data, d.bytes) && answers.send == Sent(d.bytes)
    case Legacy(data, answers) => d == Delivery(target, data, d.bytes) && answers.send == Sent(d.bytes)
    case Reset => false
  }

  /** A step delivers at most once, and only what was requested, where it was requested: the socket
      that sends has the requested port as its peer. */
  lemma StepDelivers(s: State, op: Operation)
    requires CacheInv(s)
    ensures var t := After(s, op);
            t.log == s.log || (exists d :: t.log == s.log + [d] && Requests(op, s.target, d))
  {
    var t := After(s, op);
    if t.log != s.log {
      assert |t.log| == |s.log| + 1;
      var d := t.log[|s.log|];
      assert t.log == s.log + [d] && Requests(op, s.target, d);
    }
  }

  /** Without the invariant it need not: a socket connected elsewhere takes the datagram there. */
  lemma WrongPeerMisdelivers(s: State, port: u16, other: u16, data: seq<u8>, bytes: nat)
    requires port != s.target && port in s.sockets && s.sockets[port].peer == Some(other) && other != port
    ensures var t := After(s, ToPort(port, data, Answers(true, true, Sent(bytes))));
            t.log == s.log + [Delivery(other, data, bytes)]
  {
  }

  /** What one send does, by what the system answers: without a socket, or on one without a peer, it
      fails and nothing leaves; otherwise the answer decides, and only a datagram that left is counted. */
  lemma SendOutcomes(s: State, port: u16, data: seq<u8>, answers: Answers)
    requires CacheInv(s)
    ensures var (t, r) := AfterSend(s, port, data, answers);
            var bound := port == s.target || port in s.sockets || answers.binds;
            var connected := port == s.target
                             || if port in s.sockets then s.sockets[port].peer.Some? else answers.connects;
            if !bound then t == s && r == BindFailed
            else if !connected then SameCounts(s, t) && r == SendFailed
            else match answers.send
                 case Blocked => SameCounts(s, t) && r == Done
                 case Broken => SameCounts(s, t) && r == SendFailed
                 case Sent(bytes) =>
                   && t.log == s.log + [Delivery(port, data, bytes)] && r == Done
                   && t.packetsSent == (s.packetsSent + 1) % TWO_64 && t.bytesSent == (s.bytesSent + bytes) % TWO_64
  {
  }

  predicate SameCounts(s: State, t: State) {
    t.log == s.log && t.packetsSent == s.packetsSent && t.bytesSent == s.bytesSent
  }

  // ----- Counters -----

  function TotalBytes(log: seq<Delivery>): nat {
    if log == [] then 0 else TotalBytes(log[..|log| - 1]) + log[|log| - 1].bytes
  }

  /** The counters hold the number and the bytes of the deliveries from position `from` on. */
  ghost predicate CountsFrom(s: State, from: nat) {
    && from <= |s.log|
    && s.packetsSent == (|s.log| - from) % TWO_64
    && s.bytesSent == TotalBytes(s.log[from..]) % TWO_64
  }

  lemma AddModulo(a: nat, b: nat)
    ensures (a % TWO_64 + b) % TWO_64 == (a + b) % TWO_64
  {
    var q := a / TWO_64;
    assert a == TWO_64 * q + a % TWO_64;
    assert (a % TWO_64 + b + TWO_64 * q) % TWO_64 == (a % TWO_64 + b) % TWO_64;
  }

  lemma SendKeepsCounts(s: State, port: u16, data: seq<u8>, outcome: SendOutcome, from: nat)
    requires CountsFrom(s, from)
    ensures CountsFrom(SendTo(s, port, data, outcome).0, from)
  {
    if outcome.Sent? {
      var t := SendTo(s, port, data, outcome).0;
      var shown := t.log[from..];
      assert shown[..|shown| - 1] == s.log[from..];
      AddModulo(|s.log| - from, 1);
      AddModulo(TotalBytes(s.log[from..]), outcome.bytes);
    }
  }

  lemma SocketKeepsCounts(s: State, socket: Socket, data: seq<u8>, outcome: SendOutcome, from: nat)
    requires CountsFrom(s, from)
    ensures CountsFrom(SendOn(s, socket, data, outcome).0, from)
  {
    hide CountsFrom, SendTo;
    if socket.peer.Some? {
      SendKeepsCounts(s, socket.peer.value, data, outcome, from);
    }
  }

  lemma StepCounts(s: State, op: Operation, from: nat)
    requires CountsFrom(s, from)
    ensures CountsFrom(After(s, op), if op.Reset? then |s.log| else from)
  {
    match op
    case ToPort(port, data, answers) =>
      if port == s.target {
        LegacyKeepsCounts(s, data, answers, from);
      } else if SocketFor(s, port, answers).Some? {
        SocketKeepsCounts(WithSocket(s, port, answers), SocketFor(s, port, answers).value, data, answers.send, from);
      }
    case Legacy(data, answers) => LegacyKeepsCounts(s, data, answers, from);
    case Reset => assert s.log[|s.log|..] == [];
  }

  lemma LegacyKeepsCounts(s: State, data: seq<u8>, answers: Answers, from: nat)
    requires CountsFrom(s, from)
    ensures CountsFrom(AfterLegacySend(s, data, answers).0, from)
  {
    hide CountsFrom, SendTo, SendOn;
    SocketKeepsCounts(s, s.legacy, data, answers.send, from);
    SendKeepsCounts(s, s.target, data, answers.send, from);
  }

  /** Where the log stood at the last reset of a run. */
  function LastReset(s: State, ops: seq<Operation>, from: nat): nat
    decreases |ops|
  {
    if ops == [] then from
    else LastReset(After(s, ops[0]), ops[1..], if ops[0].Reset? then |s.log| else from)
  }

  /** On every run the two counters are the number and the byte total of the successful sends since
      construction or the last reset, modulo 2^64. */
  lemma {:induction false} CountersCountDeliveries(s: State, ops: seq<Operation>, from: nat)
    requires CountsFrom(s, from)
    ensures CountsFrom(RunFrom(s, ops), LastReset(s, ops, from))
    decreases |ops|
  {
    if ops != [] {
      hide CountsFrom, After;
      StepCounts(s, ops[0], from);
      CountersCountDeliveries(After(s, ops[0]), ops[1..], if ops[0].Reset? then |s.log| else from);
    }
  }

  // ----- Cached sends against direct sends -----

  /** The visible effect of a call: result, log and counters. */
  datatype Effect = Effect(result: Result, packetsSent: u64, bytesSent: u64, log: seq<Delivery>)

  function EffectOf(r: (State, Result)): Effect {
    Effect(r.1, r.0.packetsSent, r.0.bytesSent, r.0.log)
  }

  /** A send through the cache acts like a send that names the port, exactly when the port is the
      legacy one, or its socket exists and is connected, or exists and the direct send would have
      failed too. */
  lemma CachedLikeDirect(s: State, port: u16, data: seq<u8>, answers: Answers)
    requires CacheInv(s)
    ensures EffectOf(AfterSend(s, port, data, answers)) == EffectOf(SendTo(s, port, data, answers.send)) <==>
            var socket := SocketFor(s, port, answers);
            port == s.target || (socket.Some? && (socket.value.peer.Some? || answers.send.Broken?))
  {
    if answers.send.Sent? {
      var log := s.log + [Delivery(port, data, answers.send.bytes)];
      assert |log| != |s.log|;
    }
  }

  /** The same operations with every send naming its port. */
  function DirectAfter(s: State, op: Operation): State {
    match op
    case ToPort(port, data, answers) => SendTo(s, port, data, answers.send).0
    case Legacy(data, answers) => SendTo(s, s.target, data, answers.send).0
    case Reset => AfterReset(s)
  }

  function DirectRunFrom(s: State, ops: seq<Operation>): State
    decreases |ops|
  {
    if ops == [] then s else DirectRunFrom(DirectAfter(s, ops[0]), ops[1..])
  }

  /** The same target, counters and log; the sockets may differ. */
  predicate LooksLike(s: State, d: State) {
    s.target == d.target && s.packetsSent == d.packetsSent && s.bytesSent == d.bytesSent && s.log == d.log
  }

  predicate SocketsConnect(op: Operation) {
    op.ToPort? ==> op.answers.binds && op.answers.connects
  }

  ghost predicate AllConnected(s: State) {
    forall p :: p in s.sockets ==> s.sockets[p].peer.Some?
  }

  lemma TransparentStep(s: State, d: State, op: Operation)
    requires CacheInv(s) && AllConnected(s) && LooksLike(s, d) && SocketsConnect(op)
    ensures AllConnected(After(s, op)) && LooksLike(After(s, op), DirectAfter(d, op))
  {
    if op.ToPort? && op.port != s.target {
      var socket := SocketFor(s, op.port, op.answers).value;
      assert socket.peer == Some(op.port);
    }
  }

  /** As long as binding and connecting work, no run can tell the socket cache from sends that name
      their port: the datagrams, their order, their destinations and both counters are the same. */
  lemma {:induction false} CacheIsTransparent(s: State, d: State, ops: seq<Operation>)
    requires CacheInv(s) && AllConnected(s) && LooksLike(s, d)
    requires forall op :: op in ops ==> SocketsConnect(op)
    ensures LooksLike(RunFrom(s, ops), DirectRunFrom(d, ops))
    decreases |ops|
  {
    if ops != [] {
      hide CacheInv, AllConnected, LooksLike, After, DirectAfter;
      TransparentStep(s, d, ops[0]);
      StepKeepsCache(s, ops[0]);
      CacheIsTransparent(After(s, ops[0]), DirectAfter(d, ops[0]), ops[1..]);
    }
  }

  // ----- Dead ports -----

  /** No socket of the multicaster is connected to the port. */
  ghost predicate Unreachable(s: State, port: u16) {
    && s.legacy.peer != Some(port) && s.target != port
    && forall p :: p in s.sockets ==> s.sockets[p].peer != Some(port)
  }

  /** The socket of a port is the only one that could reach it. */
  lemma OnlyOwnSocketReaches(s: State, port: u16)
    requires CacheInv(s) && port in s.sockets && s.sockets[port].peer.None?
    ensures Unreachable(s, port)
  {
  }

  lemma SilentStep(s: State, op: Operation, port: u16)
    requires CacheInv(s) && Unreachable(s, port) && port in s.sockets && s.sockets[port].peer.None?
    ensures var t := After(s, op);
            s.log <= t.log && forall k :: |s.log| <= k < |t.log| ==> t.log[k].port != port
  {
  }

  /** A port whose socket could not be connected stays silent for ever: the socket is never
      replaced, no other socket reaches the port, no send falls back to naming the address, and
      every later send to it fails. */
  lemma {:induction false} UnconnectedPortIsSilent(s: State, ops: seq<Operation>, port: u16)
    requires CacheInv(s) && port in s.sockets && s.sockets[port].peer.None?
    ensures var t := RunFrom(s, ops);
            && s.log <= t.log
            && (forall k :: |s.log| <= k < |t.log| ==> t.log[k].port != port)
            && forall data, answers :: AfterSend(t, port, data, answers).1 == SendFailed
    decreases |ops|
  {
    if ops == [] {
    } else {
      hide CacheInv, Unreachable, After, AfterSend;
      OnlyOwnSocketReaches(s, port);
      StepKeepsCache(s, ops[0]);
      SilentStep(s, ops[0], port);
      UnconnectedPortIsSilent(After(s, ops[0]), ops[1..], port);
    }
  }

  /** One refused connect is enough: after it, from a new multicaster on, nothing ever reaches the
      port, although a send that names the port would have. */
  lemma RefusedConnectKillsPort(target: u16, connected: bool, port: u16, data: seq<u8>, send: SendOutcome,
                                ops: seq<Operation>)
    requires port != target
    ensures var first := ToPort(port, data, Answers(true, false, send));
            var t := RunFrom(Fresh(target, connected), [first] + ops);
            && (forall k :: 0 <= k < |t.log| ==> t.log[k].port != port)
            && forall data, answers :: AfterSend(t, port, data, answers).1 == SendFailed
    ensures send.Sent? ==> DirectAfter(Fresh(target, connected), ToPort(port, data, Answers(true, false, send))).log
                           == [Delivery(port, data, send.bytes)]
  {
    var start := Fresh(target, connected);
    var first := ToPort(port, data, Answers(true, false, send));
    FreshStart(target, connected);
    StepKeepsCache(start, first);
    var s := After(start, first);
    assert s.sockets[port] == Socket(1, None) && s.log == [];
    UnconnectedPortIsSilent(s, ops, port);
    assert ([first] + ops)[1..] == ops;
  }
}
