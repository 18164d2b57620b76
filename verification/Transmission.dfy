/** Sessions and sockets together: what the sockets answer decides what a session loses, and the
    datagrams that leave the host are the packets the sessions sent. */
module Transmission {
  import opened Bits
  import opened Sequences
  import opened Text
  import opened Sessions
  import opened Reassembly
  import Udp = UdpSockets

  datatype Host = Host(system: System, udp: Udp.State)

  /** Session `i` starts a call, draws one number, or hands its next packet to the sockets. */
  datatype Step =
    | Begins(i: nat, call: Call)
    | Draws(i: nat, now: u64)
    | Transmits(i: nat, answers: Udp.Answers)

  /** What handing over the next packet of session `i` does to the sockets. */
  function Transmitted(h: Host, ports: seq<u16>, i: nat, answers: Udp.Answers): (Udp.State, Udp.Result)
    requires i < |h.system.sessions| && i < |ports| && h.system.sessions[i].built != []
  {
    Udp.AfterSend(h.udp, ports[i], BytesOf(h.system.sessions[i].built[0]), answers)
  }

  predicate Possible(h: Host, ports: seq<u16>, step: Step) {
    && step.i < |ports|
    && Enabled(h.system, match step
                         case Begins(i, call) => Begin(i, call)
                         case Draws(i, now) => DrawNext(i, now)
                         case Transmits(i, answers) => Send(i))
  }

  /** What the step means for the session: a packet that left was sent; one that did not although
      the call succeeded was dropped; an error abandons the rest of the message. */
  function ActionOf(h: Host, ports: seq<u16>, step: Step): Action
    requires Possible(h, ports, step)
  {
    match step
    case Begins(i, call) => Begin(i, call)
    case Draws(i, now) => DrawNext(i, now)
    case Transmits(i, answers) =>
      var (udp, result) := Transmitted(h, ports, i, answers);
      if |udp.log| > |h.udp.log| then Send(i) else if result == Udp.Done then WouldBlock(i) else SendError(i)
  }

  function Next(h: Host, ports: seq<u16>, step: Step): Host
    requires Possible(h, ports, step)
  {
    Host(Apply(h.system, ActionOf(h, ports, step)),
         if step.Transmits? then Transmitted(h, ports, step.i, step.answers).0 else h.udp)
  }

  function Begun(ports: seq<u16>, target: u16, connected: bool): Host {
    Host(Start(|ports|), Udp.Fresh(target, connected))
  }

  function HostRun(ports: seq<u16>, target: u16, connected: bool, steps: seq<Step>): Option<Host> {
    if steps == [] then Some(Begun(ports, target, connected))
    else
      match HostRun(ports, target, connected, steps[..|steps| - 1])
      case None => None
      case Some(h) =>
        if Possible(h, ports, steps[|steps| - 1]) then Some(Next(h, ports, steps[|steps| - 1])) else None
  }

  /** The session actions of a run. */
  function Actions(ports: seq<u16>, target: u16, connected: bool, steps: seq<Step>): seq<Action>
    requires HostRun(ports, target, connected, steps).Some?
  {
    if steps == [] then []
    else
      var init := steps[..|steps| - 1];
      Actions(ports, target, connected, init)
      + [ActionOf(HostRun(ports, target, connected, init).value, ports, steps[|steps| - 1])]
  }

  /** Seen from the sessions, every run of the host is a run of the sessions. */
  lemma {:induction false} SessionsRun(ports: seq<u16>, target: u16, connected: bool, steps: seq<Step>)
    requires HostRun(ports, target, connected, steps).Some?
    ensures Run(|ports|, Actions(ports, target, connected, steps))
         == Some(HostRun(ports, target, connected, steps).value.system)
    decreases |steps|
  {
    if steps == [] {
      RunNothing(|ports|);
    } else {
      hide Transmitted, Enabled, Apply, Possible, ActionOf, Run;
      var init, step := steps[..|steps| - 1], steps[|steps| - 1];
      SessionsRun(ports, target, connected, init);
      var h := HostRun(ports, target, connected, init).value;
      StaysEnabled(h, ports, step);
      var action := ActionOf(h, ports, step);
      RunNext(|ports|, Actions(ports, target, connected, init), action, h.system, Apply(h.system, action));
    }
  }

  lemma StaysEnabled(h: Host, ports: seq<u16>, step: Step)
    requires Possible(h, ports, step)
    ensures Enabled(h.system, ActionOf(h, ports, step))
  {
    hide Transmitted;
  }

  // ----- The log is the wire -----

  predicate Carries(d: Udp.Delivery, ports: seq<u16>, p: Stamped) {
    p.sender < |ports| && d.port == ports[p.sender] && d.data == BytesOf(p)
  }

  /** The datagrams that left the host are, one by one, the packets that the sessions sent, each on
      the port of its session. */
  ghost predicate LogIsWire(h: Host, ports: seq<u16>) {
    && |h.udp.log| == |h.system.wire|
    && forall k :: 0 <= k < |h.udp.log| ==> Carries(h.udp.log[k], ports, h.system.wire[k])
  }

  ghost predicate HostInv(h: Host, ports: seq<u16>) {
    SystemInv(h.system) && |h.system.sessions| == |ports| && Udp.CacheInv(h.udp) && LogIsWire(h, ports)
  }

  lemma HostStep(h: Host, ports: seq<u16>, step: Step)
    requires HostInv(h, ports) && Possible(h, ports, step)
    ensures HostInv(Next(h, ports, step), ports)
  {
    hide SystemInv, Udp.CacheInv, LogIsWire, Transmitted, Apply, ActionOf;
    StaysEnabled(h, ports, step);
    StepInv(h.system, ActionOf(h, ports, step));
    SessionsStay(h.system, ActionOf(h, ports, step));
    if step.Transmits? {
      TransmitKeepsCache(h, ports, step.i, step.answers);
      TransmitKeepsLog(h, ports, step);
    } else {
      OtherStepsKeepLog(h, ports, step);
    }
  }

  lemma SessionsStay(s: System, a: Action)
    requires Enabled(s, a)
    ensures |Apply(s, a).sessions| == |s.sessions|
  {
    hide CallPlan;
  }

  lemma TransmitKeepsCache(h: Host, ports: seq<u16>, i: nat, answers: Udp.Answers)
    requires i < |h.system.sessions| && i < |ports| && h.system.sessions[i].built != [] && Udp.CacheInv(h.udp)
    ensures Udp.CacheInv(Transmitted(h, ports, i, answers).0)
    ensures Udp.KeepsSockets(h.udp, Transmitted(h, ports, i, answers).0)
  {
    hide Udp.CacheInv, Udp.AfterSend, Udp.KeepsSockets, BytesOf;
    Udp.StepKeepsCache(h.udp, Udp.ToPort(ports[i], BytesOf(h.system.sessions[i].built[0]), answers));
  }

  lemma OtherStepsKeepLog(h: Host, ports: seq<u16>, step: Step)
    requires LogIsWire(h, ports) && Possible(h, ports, step) && !step.Transmits?
    ensures LogIsWire(Next(h, ports, step), ports)
  {
    hide CallPlan, BytesOf;
  }

  /** A transmission delivers the packet on its session's port, or leaves the log alone. */
  lemma TransmitDelivers(h: Host, ports: seq<u16>, i: nat, answers: Udp.Answers)
    requires i < |h.system.sessions| && i < |ports| && h.system.sessions[i].built != [] && Udp.CacheInv(h.udp)
    ensures var log := Transmitted(h, ports, i, answers).0.log;
            log == h.udp.log
            || exists d ::
                 log == h.udp.log + [d] && d.port == ports[i] && d.data == BytesOf(h.system.sessions[i].built[0])
  {
    hide Udp.CacheInv, Udp.AfterSend, BytesOf;
    Udp.StepDelivers(h.udp, Udp.ToPort(ports[i], BytesOf(h.system.sessions[i].built[0]), answers));
  }

  lemma TransmitKeepsLog(h: Host, ports: seq<u16>, step: Step)
    requires HostInv(h, ports) && Possible(h, ports, step) && step.Transmits?
    ensures LogIsWire(Next(h, ports, step), ports)
  {
    hide Udp.CacheInv, Transmitted, BytesOf, SessionInv, CallPlan;
    TransmitDelivers(h, ports, step.i, step.answers);
    assert SessionInv(h.system, step.i);
    HeadIsOwn(h.system, step.i);
  }

  /** So on every run. */
  lemma {:induction false} EveryRunKeepsLog(ports: seq<u16>, target: u16, connected: bool, steps: seq<Step>)
    requires HostRun(ports, target, connected, steps).Some?
    ensures HostInv(HostRun(ports, target, connected, steps).value, ports)
    decreases |steps|
  {
    hide HostInv, Possible, Next;
    if steps == [] {
      NothingLogged(ports, target, connected);
    } else {
      var init, step := steps[..|steps| - 1], steps[|steps| - 1];
      EveryRunKeepsLog(ports, target, connected, init);
      HostStep(HostRun(ports, target, connected, init).value, ports, step);
    }
  }

  lemma NothingLogged(ports: seq<u16>, target: u16, connected: bool)
    ensures HostInv(Begun(ports, target, connected), ports)
  {
    hide SystemInv, Udp.CacheInv;
    StartInv(|ports|);
    Udp.FreshStart(target, connected);
  }

  function OnPorts(listens: set<u16>): Udp.Delivery -> bool {
    (d: Udp.Delivery) => d.port in listens
  }

  function DataOf(d: Udp.Delivery): seq<u8> { d.data }

  /** What reaches a receiver that listens to some ports of the host. */
  function Received(log: seq<Udp.Delivery>, listens: set<u16>): seq<seq<u8>> {
    Map(DataOf, Filter(OnPorts(listens), log))
  }

  lemma {:induction false} ReceivedIsHeard(log: seq<Udp.Delivery>, wire: seq<Stamped>, ports: seq<u16>,
                                            listens: set<u16>)
    requires |log| == |wire| && forall k :: 0 <= k < |log| ==> Carries(log[k], ports, wire[k])
    ensures Received(log, listens) == Map(BytesOf, HeardOn(ports, listens, wire))
  {
    hide BytesOf;
    if log != [] {
      assert Carries(log[0], ports, wire[0]);
      forall k | 0 <= k < |log[1..]| ensures Carries(log[1..][k], ports, wire[1..][k]) {
        assert Carries(log[k + 1], ports, wire[k + 1]);
      }
      ReceivedIsHeard(log[1..], wire[1..], ports, listens);
      if log[0].port in listens {
        MapFirst(DataOf, Filter(OnPorts(listens), log));
        MapFirst(BytesOf, HeardOn(ports, listens, wire));
      }
    }
  }

  // ----- Refused connects -----

  /** Whether the socket of a port could be connected when the first socket for it was bound. */
  function FirstConnect(ports: seq<u16>, steps: seq<Step>, port: u16): Option<bool> {
    if steps == [] then None
    else
      var earlier, step := FirstConnect(ports, steps[..|steps| - 1], port), steps[|steps| - 1];
      if earlier.Some? then earlier
      else if step.Transmits? && step.i < |ports| && ports[step.i] == port && step.answers.binds then
        Some(step.answers.connects)
      else None
  }

  lemma SocketsAfter(s: Udp.State, port: u16, data: seq<u8>, answers: Udp.Answers, other: u16)
    requires s.target != other
    ensures var t := Udp.AfterSend(s, port, data, answers).0;
            && t.target == s.target
            && (other in t.sockets <==> other in s.sockets || (port == other && answers.binds))
            && (other in s.sockets ==> t.sockets[other] == s.sockets[other])
            && (other !in s.sockets && port == other && answers.binds ==>
                  t.sockets[other].peer == if answers.connects then Some(other) else None)
  {
  }

  /** The socket of a port other than the legacy one is decided by the first connect. */
  lemma {:induction false} SocketIsFirstConnect(ports: seq<u16>, target: u16, connected: bool, steps: seq<Step>,
                                                port: u16)
    requires HostRun(ports, target, connected, steps).Some? && port != target
    ensures var udp := HostRun(ports, target, connected, steps).value.udp;
            && udp.target == target
            && (port in udp.sockets <==> FirstConnect(ports, steps, port).Some?)
            && (port in udp.sockets ==>
                  udp.sockets[port].peer == if FirstConnect(ports, steps, port).value then Some(port) else None)
    decreases |steps|
  {
    if steps != [] {
      hide Udp.AfterSend, Apply, ActionOf, BytesOf, Enabled;
      var init, step := steps[..|steps| - 1], steps[|steps| - 1];
      SocketIsFirstConnect(ports, target, connected, init, port);
      var h := HostRun(ports, target, connected, init).value;
      if step.Transmits? {
        SentIsQueued(h, ports, step);
        SocketsAfter(h.udp, ports[step.i], BytesOf(h.system.sessions[step.i].built[0]), step.answers, port);
      }
    }
  }

  lemma SentIsQueued(h: Host, ports: seq<u16>, step: Step)
    requires Possible(h, ports, step) && step.Transmits?
    ensures step.i < |h.system.sessions| && h.system.sessions[step.i].built != []
  {
  }

  ghost predicate NothingOn(log: seq<Udp.Delivery>, port: u16) {
    forall k :: 0 <= k < |log| ==> log[k].port != port
  }

  /** As long as a port has no connected socket, nothing leaves for it. */
  lemma {:induction false} UnconnectedGetsNothing(ports: seq<u16>, target: u16, connected: bool, steps: seq<Step>,
                                                  port: u16)
    requires HostRun(ports, target, connected, steps).Some? && port != target
    requires FirstConnect(ports, steps, port) != Some(true)
    ensures NothingOn(HostRun(ports, target, connected, steps).value.udp.log, port)
    decreases |steps|
  {
    if steps != [] {
      hide Udp.AfterSend, Apply, ActionOf, BytesOf, Enabled, Udp.CacheInv, SystemInv, LogIsWire;
      var init, step := steps[..|steps| - 1], steps[|steps| - 1];
      UnconnectedGetsNothing(ports, target, connected, init, port);
      var h := HostRun(ports, target, connected, init).value;
      if step.Transmits? {
        SentIsQueued(h, ports, step);
        EveryRunKeepsLog(ports, target, connected, init);
        SocketIsFirstConnect(ports, target, connected, init, port);
        NothingMore(h.udp, ports[step.i], BytesOf(h.system.sessions[step.i].built[0]), step.answers, port);
      }
    }
  }

  lemma NothingMore(s: Udp.State, port: u16, data: seq<u8>, answers: Udp.Answers, silent: u16)
    requires Udp.CacheInv(s) && NothingOn(s.log, silent) && silent != s.target
    requires silent in s.sockets ==> s.sockets[silent].peer.None?
    requires port == silent && silent !in s.sockets && answers.binds ==> !answers.connects
    ensures NothingOn(Udp.AfterSend(s, port, data, answers).0.log, silent)
  {
  }

  /** A session whose port had its first connect refused has no datagram on the wire, in any run. */
  lemma RefusedSessionIsSilent(ports: seq<u16>, target: u16, connected: bool, steps: seq<Step>, i: nat)
    requires HostRun(ports, target, connected, steps).Some? && i < |ports| && ports[i] != target
    requires FirstConnect(ports, steps, ports[i]) == Some(false)
    ensures Filter(By(i), HostRun(ports, target, connected, steps).value.system.wire) == []
  {
    hide SystemInv, Udp.CacheInv, BytesOf, HostRun;
    EveryRunKeepsLog(ports, target, connected, steps);
    UnconnectedGetsNothing(ports, target, connected, steps, ports[i]);
    var h := HostRun(ports, target, connected, steps).value;
    forall p | p in h.system.wire ensures !By(i)(p) {
      var k :| 0 <= k < |h.system.wire| && h.system.wire[k] == p;
      assert Carries(h.udp.log[k], ports, p);
    }
    FilterNone(By(i), h.system.wire);
  }

  // ----- Losses -----

  /** Transmission `m` has a socket to leave through: the legacy one, or one that the first connect for
      its port connected. */
  predicate HasSocket(ports: seq<u16>, target: u16, steps: seq<Step>, m: nat)
    requires m < |steps| && steps[m].Transmits?
  {
    var step := steps[m];
    && step.i < |ports|
    && (ports[step.i] == target || FirstConnect(ports, steps[..m + 1], ports[step.i]) == Some(true))
  }

  /** It has one and is answered as sent. */
  predicate GoesOut(ports: seq<u16>, target: u16, steps: seq<Step>, m: nat)
    requires m < |steps| && steps[m].Transmits?
  {
    HasSocket(ports, target, steps, m) && steps[m].answers.send.Sent?
  }

  /** Step `m` is a transmission of session `i` that does not go out. */
  predicate Fails(ports: seq<u16>, target: u16, steps: seq<Step>, i: nat, m: nat) {
    m < |steps| && steps[m].Transmits? && steps[m].i == i && !GoesOut(ports, target, steps, m)
  }

  ghost predicate SomeFails(ports: seq<u16>, target: u16, steps: seq<Step>, i: nat) {
    exists m :: 0 <= m < |steps| && Fails(ports, target, steps, i, m)
  }

  lemma LastStep(ports: seq<u16>, target: u16, connected: bool, steps: seq<Step>)
    requires steps != [] && HostRun(ports, target, connected, steps).Some?
    ensures var init, step := steps[..|steps| - 1], steps[|steps| - 1];
            && HostRun(ports, target, connected, init).Some?
            && Possible(HostRun(ports, target, connected, init).value, ports, step)
            && HostRun(ports, target, connected, steps).value
            == Next(HostRun(ports, target, connected, init).value, ports, step)
  {
    hide Possible, Next;
  }

  lemma TargetOfNext(h: Host, ports: seq<u16>, step: Step)
    requires Possible(h, ports, step)
    ensures Next(h, ports, step).udp.target == h.udp.target
  {
    hide Apply, ActionOf, BytesOf;
  }

  lemma {:induction false} TargetStays(ports: seq<u16>, target: u16, connected: bool, steps: seq<Step>)
    requires HostRun(ports, target, connected, steps).Some?
    ensures HostRun(ports, target, connected, steps).value.udp.target == target
    decreases |steps|
  {
    if steps != [] {
      hide HostRun, Possible, Next;
      var init := steps[..|steps| - 1];
      LastStep(ports, target, connected, steps);
      TargetStays(ports, target, connected, init);
      TargetOfNext(HostRun(ports, target, connected, init).value, ports, steps[|steps| - 1]);
    }
  }

  /** A send adds to the log exactly when it is answered as sent and its socket has a peer. */
  lemma LogGrows(s: Udp.State, port: u16, data: seq<u8>, answers: Udp.Answers)
    ensures |Udp.AfterSend(s, port, data, answers).0.log| > |s.log|
       <==> && answers.send.Sent?
            && (port == s.target || (Udp.SocketFor(s, port, answers).Some?
                                     && Udp.SocketFor(s, port, answers).value.peer.Some?))
  {
  }

  lemma LeavesWhenItGoesOut(ports: seq<u16>, target: u16, connected: bool, steps: seq<Step>)
    requires HostRun(ports, target, connected, steps).Some? && steps != [] && steps[|steps| - 1].Transmits?
    requires HostRun(ports, target, connected, steps[..|steps| - 1]).Some?
    requires Possible(HostRun(ports, target, connected, steps[..|steps| - 1]).value, ports, steps[|steps| - 1])
    ensures var h, step := HostRun(ports, target, connected, steps[..|steps| - 1]).value, steps[|steps| - 1];
            && step.i < |h.system.sessions| && h.system.sessions[step.i].built != []
            && (|Transmitted(h, ports, step.i, step.answers).0.log| > |h.udp.log|
                <==> GoesOut(ports, target, steps, |steps| - 1))
  {
    hide HostRun, Udp.AfterSend, Apply, ActionOf, BytesOf, Enabled;
    var init, step := steps[..|steps| - 1], steps[|steps| - 1];
    var h := HostRun(ports, target, connected, init).value;
    var port := ports[step.i];
    SentIsQueued(h, ports, step);
    TargetStays(ports, target, connected, init);
    LogGrows(h.udp, port, BytesOf(h.system.sessions[step.i].built[0]), step.answers);
    assert steps[..|steps|] == steps;
    if port != target {
      SocketIsFirstConnect(ports, target, connected, init, port);
    }
  }

  lemma LossOfStep(h: Host, ports: seq<u16>, step: Step, i: nat)
    requires Possible(h, ports, step) && i < |h.system.sessions|
    ensures var g := Next(h, ports, step);
            && i < |g.system.sessions|
            && (g.system.sessions[i].lossy <==>
                  || h.system.sessions[i].lossy
                  || (step.Transmits? && step.i == i
                      && |Transmitted(h, ports, i, step.answers).0.log| <= |h.udp.log|))
  {
    hide Transmitted, CallPlan;
  }

  lemma FailsEarlierOrLast(ports: seq<u16>, target: u16, steps: seq<Step>, i: nat)
    requires steps != []
    ensures SomeFails(ports, target, steps, i)
       <==> SomeFails(ports, target, steps[..|steps| - 1], i) || Fails(ports, target, steps, i, |steps| - 1)
  {
    hide FirstConnect;
    var init := steps[..|steps| - 1];
    forall m | 0 <= m < |init| ensures Fails(ports, target, init, i, m) <==> Fails(ports, target, steps, i, m) {
      assert init[..m + 1] == steps[..m + 1];
    }
  }

  lemma BegunLossless(ports: seq<u16>, target: u16, connected: bool, i: nat)
    requires i < |ports|
    ensures HostRun(ports, target, connected, []) == Some(Begun(ports, target, connected))
    ensures var sessions := Begun(ports, target, connected).system.sessions;
            i < |sessions| && !sessions[i].lossy
    ensures !SomeFails(ports, target, [], i)
  {
  }

  /** On every run, whatever happens to the sockets of other ports: a session loses something exactly
      when some transmission of it does not go out. */
  lemma {:induction false} LossyWhenUnanswered(ports: seq<u16>, target: u16, connected: bool, steps: seq<Step>,
                                               i: nat)
    requires HostRun(ports, target, connected, steps).Some? && i < |ports|
    ensures var h := HostRun(ports, target, connected, steps).value;
            && i < |h.system.sessions|
            && (h.system.sessions[i].lossy <==> SomeFails(ports, target, steps, i))
    decreases |steps|
  {
    hide HostRun, Next, Possible, GoesOut, Transmitted, SomeFails;
    if steps == [] {
      BegunLossless(ports, target, connected, i);
    } else {
      var init, step := steps[..|steps| - 1], steps[|steps| - 1];
      LastStep(ports, target, connected, steps);
      LossyWhenUnanswered(ports, target, connected, init, i);
      FailsEarlierOrLast(ports, target, steps, i);
      LossOfStep(HostRun(ports, target, connected, init).value, ports, step, i);
      if step.Transmits? && step.i == i {
        LeavesWhenItGoesOut(ports, target, connected, steps);
      }
    }
  }

  /** What becomes of a packet, in every run: with a socket and an answer `Sent` it is on the wire; with a
      socket that would block it is skipped; otherwise it and the rest of its message are abandoned. */
  lemma AnswersDecide(ports: seq<u16>, target: u16, connected: bool, steps: seq<Step>)
    requires HostRun(ports, target, connected, steps).Some? && steps != [] && steps[|steps| - 1].Transmits?
    ensures var m, step := |steps| - 1, steps[|steps| - 1];
            var i := step.i;
            var h, g := HostRun(ports, target, connected, steps[..m]), HostRun(ports, target, connected, steps);
            && h.Some? && i < |h.value.system.sessions| == |g.value.system.sessions|
            && var queue, left := h.value.system.sessions[i].built, g.value.system.sessions[i].built;
               && queue != []
               && g.value.system.wire
               == h.value.system.wire + (if GoesOut(ports, target, steps, m) then [queue[0]] else [])
               && left == if HasSocket(ports, target, steps, m) && !step.answers.send.Broken? then queue[1..] else []
  {
    hide HostRun, Possible, Next, HasSocket, Transmitted, Udp.CacheInv;
    var init, step := steps[..|steps| - 1], steps[|steps| - 1];
    LastStep(ports, target, connected, steps);
    var h := HostRun(ports, target, connected, init).value;
    SentIsQueued(h, ports, step);
    LeavesWhenItGoesOut(ports, target, connected, steps);
    DoneWhenSocket(ports, target, connected, steps);
    EffectOfTransmit(h, ports, step);
  }

  lemma DoneWhenSocket(ports: seq<u16>, target: u16, connected: bool, steps: seq<Step>)
    requires HostRun(ports, target, connected, steps).Some? && steps != [] && steps[|steps| - 1].Transmits?
    requires HostRun(ports, target, connected, steps[..|steps| - 1]).Some?
    requires Possible(HostRun(ports, target, connected, steps[..|steps| - 1]).value, ports, steps[|steps| - 1])
    ensures var h, step := HostRun(ports, target, connected, steps[..|steps| - 1]).value, steps[|steps| - 1];
            && step.i < |h.system.sessions| && h.system.sessions[step.i].built != []
            && (Transmitted(h, ports, step.i, step.answers).1 == Udp.Done
                <==> HasSocket(ports, target, steps, |steps| - 1) && !step.answers.send.Broken?)
  {
    hide HostRun, Udp.AfterSend, Apply, ActionOf, BytesOf, Enabled, SystemInv, LogIsWire, Udp.CacheInv;
    var init, step := steps[..|steps| - 1], steps[|steps| - 1];
    var h := HostRun(ports, target, connected, init).value;
    var port := ports[step.i];
    SentIsQueued(h, ports, step);
    TargetStays(ports, target, connected, init);
    EveryRunKeepsLog(ports, target, connected, init);
    Udp.SendOutcomes(h.udp, port, BytesOf(h.system.sessions[step.i].built[0]), step.answers);
    assert steps[..|steps|] == steps;
    if port != target {
      SocketIsFirstConnect(ports, target, connected, init, port);
    }
  }

  lemma EffectOfTransmit(h: Host, ports: seq<u16>, step: Step)
    requires Possible(h, ports, step) && step.Transmits?
    requires step.i < |h.system.sessions| && h.system.sessions[step.i].built != []
    ensures var g, x := Next(h, ports, step), h.system.sessions[step.i];
            var (udp, result) := Transmitted(h, ports, step.i, step.answers);
            && |g.system.sessions| == |h.system.sessions|
            && g.system.wire == h.system.wire + (if |udp.log| > |h.udp.log| then [x.built[0]] else [])
            && (g.system.sessions[step.i].built
                == if |udp.log| > |h.udp.log| || result == Udp.Done then x.built[1..] else [])
  {
    hide Transmitted, CallPlan;
    var wire := h.system.wire;
    assert wire + [] == wire;
  }

  /** From the sockets to the messages: when every transmission of a session goes out, whatever
      happens to the sockets of other ports, a receiver on its port rebuilds from the datagrams that
      left the host the beginning of exactly the session's messages under a key it owns, and all of
      them once it is idle. */
  lemma DatagramsGiveBackMessages(ports: seq<u16>, target: u16, connected: bool, steps: seq<Step>,
                                  listens: set<u16>, i: nat, key: Key)
    requires HostRun(ports, target, connected, steps).Some? && i < |ports| && ports[i] in listens
    requires !SomeFails(ports, target, steps, i)
    requires OwnedBy(HostRun(ports, target, connected, steps).value.system, ports, listens, i, key)
    ensures var h := HostRun(ports, target, connected, steps).value;
            && i < |h.system.sessions|
            && Received(h.udp.log, listens) == HeardBytes(h.system, ports, listens)
            && var got := Reassemble(HeardBytes(h.system, ports, listens), key, []);
               && got <= MessagesFor(h.system.sessions[i].history, key)
               && (h.system.sessions[i].Idle() ==> got == MessagesFor(h.system.sessions[i].history, key))
  {
    hide HostRun, SystemInv, Udp.CacheInv, OwnedBy, Reassemble, MessagesFor, Run, BytesOf, SomeFails;
    SessionsRun(ports, target, connected, steps);
    EveryRunKeepsLog(ports, target, connected, steps);
    LossyWhenUnanswered(ports, target, connected, steps, i);
    var h := HostRun(ports, target, connected, steps).value;
    ReceivedIsHeard(h.udp.log, h.system.wire, ports, listens);
    WireGivesBackMessages(ports, listens, Actions(ports, target, connected, steps), i, key);
  }
}
