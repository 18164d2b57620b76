/** The receiver's documented loss check: each sequence number must be one more than that of the
    datagram before it. What it accepts, and when it is wrong. */
module LossCheck {
  import opened Bits
  import opened Sequences
  import opened Text
  import opened Protocol
  import opened PacketPlan
  import opened Sessions

  /** The number that must follow. */
  function Successor(n: u64): u64 {
    (n + 1) % TWO_64
  }

  /** The check on the datagrams a receiver gets, in the order in which they arrive. */
  predicate AcceptsBytes(datagrams: seq<seq<u8>>)
    requires forall d :: d in datagrams ==> |d| >= HEADER_SIZE
  {
    forall k :: 0 < k < |datagrams| ==>
      HeaderOf(datagrams[k]).sequence == Successor(HeaderOf(datagrams[k - 1]).sequence)
  }

  predicate Accepts(w: seq<Stamped>) {
    forall k :: 0 < k < |w| ==> w[k].sequence == Successor(w[k - 1].sequence)
  }

  lemma SequenceReadBack(p: Stamped)
    ensures |BytesOf(p)| >= HEADER_SIZE && HeaderOf(BytesOf(p)).sequence == p.sequence
  {
    hide HeaderOf, Stamp;
    StampReadBack(p.template, p.sequence, p.now);
  }

  /** The check reads the numbers that were drawn. */
  lemma CheckReadsNumbers(w: seq<Stamped>)
    ensures forall d :: d in Map(BytesOf, w) ==> |d| >= HEADER_SIZE
    ensures AcceptsBytes(Map(BytesOf, w)) <==> Accepts(w)
  {
    hide BytesOf, HeaderOf, Successor;
    forall k | 0 <= k < |w|
      ensures |Map(BytesOf, w)[k]| >= HEADER_SIZE && HeaderOf(Map(BytesOf, w)[k]).sequence == w[k].sequence
    {
      SequenceReadBack(w[k]);
    }
    SamePairs(w);
  }

  lemma SamePairs(w: seq<Stamped>)
    requires forall k :: 0 <= k < |w| ==>
      |Map(BytesOf, w)[k]| >= HEADER_SIZE && HeaderOf(Map(BytesOf, w)[k]).sequence == w[k].sequence
    ensures forall d :: d in Map(BytesOf, w) ==> |d| >= HEADER_SIZE
    ensures AcceptsBytes(Map(BytesOf, w)) <==> Accepts(w)
  {
    hide BytesOf, HeaderOf, Successor;
    var bytes := Map(BytesOf, w);
    if Accepts(w) {
      forall k | 0 < k < |bytes|
        ensures HeaderOf(bytes[k]).sequence == Successor(HeaderOf(bytes[k - 1]).sequence)
      {
        assert w[k].sequence == Successor(w[k - 1].sequence);
      }
    }
    if AcceptsBytes(bytes) {
      forall k | 0 < k < |w| ensures w[k].sequence == Successor(w[k - 1].sequence) {
        assert HeaderOf(bytes[k]).sequence == Successor(HeaderOf(bytes[k - 1]).sequence);
      }
    }
  }

  // ----- What it accepts -----

  /** `w` is an uninterrupted stretch of `drawn`. */
  ghost predicate IsSlice(w: seq<Stamped>, drawn: seq<Stamped>) {
    exists a :: StartsAt(w, drawn, a)
  }

  predicate StartsAt(w: seq<Stamped>, drawn: seq<Stamped>, a: nat) {
    a + |w| <= |drawn| && w == drawn[a..a + |w|]
  }

  /** Below the wrap, a number is the successor of another exactly when it was drawn next. */
  lemma SuccessorIsNextDraw(s: System, a: nat, b: nat)
    requires SystemInv(s) && |s.drawn| < TWO_64 && a < |s.drawn| && b < |s.drawn|
    ensures s.drawn[b].sequence == Successor(s.drawn[a].sequence) <==> b == a + 1
    ensures s.drawn[a] == s.drawn[b] ==> a == b
  {
    hide SessionInv, Draw, Successor;
    assert s.drawn[a].sequence == Draw(1, a) && s.drawn[b].sequence == Draw(1, b);
    SuccessorBelowWrap(a, b);
  }

  lemma SuccessorBelowWrap(a: nat, b: nat)
    requires a + 1 < TWO_64 && b + 1 < TWO_64
    ensures Draw(1, b) == Successor(Draw(1, a)) <==> b == a + 1
    ensures Draw(1, a) == Draw(1, b) ==> a == b
  {
    assert Draw(1, a) == a + 1 && Draw(1, b) == b + 1;
  }

  lemma {:induction false} AcceptedFollows(s: System, w: seq<Stamped>, a: nat, k: nat)
    requires SystemInv(s) && |s.drawn| < TWO_64 && Accepts(w)
    requires forall p :: p in w ==> p in s.drawn
    requires k < |w| && a < |s.drawn| && w[0] == s.drawn[a]
    ensures a + k < |s.drawn| && w[k] == s.drawn[a + k]
  {
    hide SystemInv, Successor;
    if k > 0 {
      AcceptedFollows(s, w, a, k - 1);
      assert w[k] in s.drawn;
      var b :| 0 <= b < |s.drawn| && s.drawn[b] == w[k];
      SuccessorIsNextDraw(s, a + k - 1, b);
    }
  }

  /** In every state of every run, below the wrap: the check accepts what a receiver heard, on any
      set of ports, exactly when that is an uninterrupted stretch of the packets in the order in
      which all sessions drew them. */
  lemma AcceptedIsSlice(ports: seq<u16>, listens: set<u16>, actions: seq<Action>)
    requires Run(|ports|, actions).Some? && |Run(|ports|, actions).value.drawn| < TWO_64
    ensures var s := Run(|ports|, actions).value;
            Accepts(HeardOn(ports, listens, s.wire)) <==> IsSlice(HeardOn(ports, listens, s.wire), s.drawn)
  {
    hide Run, SystemInv, IsSlice;
    RunInv(|ports|, actions);
    var s := Run(|ports|, actions).value;
    WireWasDrawn(s);
    SliceWhenAccepted(s, HeardOn(ports, listens, s.wire));
    AcceptedWhenSlice(s, HeardOn(ports, listens, s.wire));
  }

  lemma SliceWhenAccepted(s: System, w: seq<Stamped>)
    requires SystemInv(s) && |s.drawn| < TWO_64
    requires forall p :: p in w ==> p in s.drawn
    ensures Accepts(w) ==> IsSlice(w, s.drawn)
  {
    hide SystemInv, Successor;
    if Accepts(w) {
      if w == [] {
        assert StartsAt(w, s.drawn, 0);
      } else {
        assert w[0] in s.drawn;
        var a :| 0 <= a < |s.drawn| && s.drawn[a] == w[0];
        forall k | 0 <= k < |w| ensures a + k < |s.drawn| && w[k] == s.drawn[a + k] {
          AcceptedFollows(s, w, a, k);
        }
        AcceptedFollows(s, w, a, |w| - 1);
        assert StartsAt(w, s.drawn, a);
      }
    }
  }

  lemma AcceptedWhenSlice(s: System, w: seq<Stamped>)
    requires SystemInv(s)
    ensures IsSlice(w, s.drawn) ==> Accepts(w)
  {
    hide SessionInv, Successor, Draw;
    if a: nat :| StartsAt(w, s.drawn, a) {
      forall k | 0 < k < |w| ensures w[k].sequence == Successor(w[k - 1].sequence) {
        assert w[k] == s.drawn[a + k] && w[k - 1] == s.drawn[a + k - 1];
        NextDraw(a + k - 1);
      }
    }
  }

  lemma NextDraw(k: nat)
    ensures Draw(1, k + 1) == Successor(Draw(1, k))
  {
    var q := (1 + k) / TWO_64;
    assert 1 + k == TWO_64 * q + Draw(1, k);
    assert (Draw(1, k) + 1 + TWO_64 * q) % TWO_64 == (Draw(1, k) + 1) % TWO_64;
  }

  // ----- What must hold before each send -----

  /** `q` was drawn right after `p`. */
  ghost predicate DrawnNext(drawn: seq<Stamped>, p: Stamped, q: Stamped) {
    exists k :: 0 < k < |drawn| && drawn[k - 1] == p && drawn[k] == q
  }

  /** The guard of a send that the check will accept: the head of the queue is the next packet that
      anyone drew after the last one heard. */
  ghost predicate SendsNext(s: System, heard: seq<Stamped>, i: nat)
    requires i < |s.sessions| && s.sessions[i].built != []
  {
    heard == [] || DrawnNext(s.drawn, heard[|heard| - 1], s.sessions[i].built[0])
  }

  /** Every send of the run that the receiver hears satisfied the guard when it was made. */
  ghost predicate SendsInDrawOrder(ports: seq<u16>, listens: set<u16>, actions: seq<Action>)
    requires Run(|ports|, actions).Some?
  {
    if actions == [] then true
    else
      var init, a := actions[..|actions| - 1], actions[|actions| - 1];
      && SendsInDrawOrder(ports, listens, init)
      && var s := Run(|ports|, init).value;
         (a.Send? && a.i < |ports| && ports[a.i] in listens ==>
            SendsNext(s, HeardOn(ports, listens, s.wire), a.i))
  }

  lemma HeardSend(ports: seq<u16>, listens: set<u16>, s: System, a: Action)
    requires Enabled(s, a) && |s.sessions| == |ports|
    requires a.Send? ==> s.sessions[a.i].built[0].sender == a.i
    ensures HeardOn(ports, listens, Apply(s, a).wire)
         == if a.Send? && ports[a.i] in listens
            then HeardOn(ports, listens, s.wire) + [s.sessions[a.i].built[0]]
            else HeardOn(ports, listens, s.wire)
  {
    hide CallPlan;
    if a.Send? {
      FilterAppend(Heard(ports, listens), s.wire, [s.sessions[a.i].built[0]]);
    }
  }

  lemma AcceptsNext(w: seq<Stamped>, p: Stamped)
    ensures Accepts(w + [p]) <==>
            Accepts(w) && (w == [] || p.sequence == Successor(w[|w| - 1].sequence))
  {
    hide Successor;
    var v := w + [p];
    assert forall k :: 0 <= k < |w| ==> v[k] == w[k];
    if Accepts(v) {
      forall k | 0 < k < |w| ensures w[k].sequence == Successor(w[k - 1].sequence) {
        assert v[k].sequence == Successor(v[k - 1].sequence);
      }
      if w != [] {
        assert v[|w|].sequence == Successor(v[|w| - 1].sequence);
      }
    }
  }

  /** For a queued packet and a packet already sent, being the successor is being drawn next. */
  lemma GuardIsSuccessor(s: System, p: Stamped, q: Stamped)
    requires SystemInv(s) && |s.drawn| < TWO_64 && p in s.drawn && q in s.drawn
    ensures DrawnNext(s.drawn, p, q) <==> q.sequence == Successor(p.sequence)
  {
    hide SystemInv, Successor;
    var a :| 0 <= a < |s.drawn| && s.drawn[a] == p;
    var b :| 0 <= b < |s.drawn| && s.drawn[b] == q;
    SuccessorIsNextDraw(s, a, b);
    if DrawnNext(s.drawn, p, q) {
      var k :| 0 < k < |s.drawn| && s.drawn[k - 1] == p && s.drawn[k] == q;
      SuccessorIsNextDraw(s, a, k - 1);
      SuccessorIsNextDraw(s, b, k);
    }
    if b == a + 1 {
      assert 0 < b < |s.drawn| && s.drawn[b - 1] == p && s.drawn[b] == q;
    }
  }

  lemma DrawsOnlyGrow(n: nat, actions: seq<Action>)
    requires actions != [] && Run(n, actions).Some?
    ensures var init, a := actions[..|actions| - 1], actions[|actions| - 1];
            && Run(n, init).Some? && Enabled(Run(n, init).value, a)
            && Run(n, actions).value == Apply(Run(n, init).value, a)
            && |Run(n, init).value.drawn| <= |Run(n, actions).value.drawn|
  {
    hide CallPlan;
  }

  /** Below the wrap, for every set of ports: the check accepts a run exactly when each send that
      the receiver hears was made while its packet was the next one drawn, by anyone, after the
      last packet heard. */
  lemma {:induction false} LossCheckMeansSendOrder(ports: seq<u16>, listens: set<u16>, actions: seq<Action>)
    requires Run(|ports|, actions).Some? && |Run(|ports|, actions).value.drawn| < TWO_64
    ensures Accepts(HeardOn(ports, listens, Run(|ports|, actions).value.wire)) <==>
            SendsInDrawOrder(ports, listens, actions)
    decreases |actions|
  {
    if actions == [] {
      assert HeardOn(ports, listens, []) == [];
    } else {
      var init, a := actions[..|actions| - 1], actions[|actions| - 1];
      DrawsOnlyGrow(|ports|, actions);
      LossCheckMeansSendOrder(ports, listens, init);
      RunInv(|ports|, init);
      SendStep(ports, listens, Run(|ports|, init).value, a);
    }
  }

  /** One step of that induction. */
  lemma SendStep(ports: seq<u16>, listens: set<u16>, s: System, a: Action)
    requires SystemInv(s) && |s.sessions| == |ports| && |s.drawn| < TWO_64 && Enabled(s, a)
    ensures Accepts(HeardOn(ports, listens, Apply(s, a).wire)) <==>
            && Accepts(HeardOn(ports, listens, s.wire))
            && (a.Send? && ports[a.i] in listens ==> SendsNext(s, HeardOn(ports, listens, s.wire), a.i))
  {
    hide CallPlan, SessionInv, Accepts, DrawnNext, Apply, Successor;
    var w := HeardOn(ports, listens, s.wire);
    if a.Send? {
      assert SessionInv(s, a.i);
      HeadIsOwn(s, a.i);
      HeardSend(ports, listens, s, a);
      if ports[a.i] in listens {
        var q := s.sessions[a.i].built[0];
        AcceptsNext(w, q);
        WireWasDrawn(s);
        if w != [] {
          assert w[|w| - 1] in w;
          GuardIsSuccessor(s, w[|w| - 1], q);
        }
      }
    } else {
      HeardSend(ports, listens, s, a);
    }
  }

  // ----- When it is right and when it is wrong -----

  /** A session that alone draws numbers never trips the check while it loses nothing. */
  lemma LoneSessionPasses(ports: seq<u16>, listens: set<u16>, actions: seq<Action>, i: nat)
    requires Run(|ports|, actions).Some? && i < |ports|
    requires var s := Run(|ports|, actions).value;
             (forall p :: p in s.drawn ==> p.sender == i) && (i < |s.sessions| ==> !s.sessions[i].lossy)
    ensures Accepts(HeardOn(ports, listens, Run(|ports|, actions).value.wire))
  {
    hide Run, SystemInv, HistoryPlan, Subsequence, Accepts;
    RunInv(|ports|, actions);
    var s := Run(|ports|, actions).value;
    WireWasDrawn(s);
    LoneWire(s, i);
    if ports[i] in listens {
      FilterAll(Heard(ports, listens), s.wire);
      assert StartsAt(s.wire, s.drawn, 0);
      AcceptedWhenSlice(s, s.wire);
    } else {
      FilterNone(Heard(ports, listens), s.wire);
      EmptyPasses();
    }
  }

  lemma EmptyPasses()
    ensures Accepts([])
  {
  }

  lemma LoneWire(s: System, i: nat)
    requires SystemInv(s) && i < |s.sessions| && !s.sessions[i].lossy
    requires forall p :: p in s.drawn ==> p.sender == i
    requires forall p :: p in s.wire ==> p in s.drawn
    ensures s.wire <= s.drawn
  {
    hide HistoryPlan, Subsequence;
    assert SessionInv(s, i);
    FilterAll(By(i), s.wire);
    FilterAll(By(i), s.drawn);
  }

  /** An idle session makes a call whose plan is one packet and has built that packet. */
  function Waiting(s: System, i: nat, call: Call): System
    requires i < |s.sessions| && |CallPlan(call)| == 1
  {
    var x := s.sessions[i];
    var p := Stamped(i, CallPlan(call)[0], s.counter, 0);
    System((s.counter + 1) % TWO_64, s.sessions[i := x.(history := x.history + [call], built := [p])],
           s.drawn + [p], s.wire)
  }

  /** The one packet that waits in a session is sent. */
  function Sent(s: System, i: nat): System
    requires i < |s.sessions| && |s.sessions[i].built| == 1
  {
    var x := s.sessions[i];
    s.(sessions := s.sessions[i := x.(built := [], released := x.released + [x.built[0]])],
       wire := s.wire + [x.built[0]])
  }

  function Build(i: nat, call: Call): seq<Action> {
    [Begin(i, call), DrawNext(i, 0)]
  }

  lemma OneWaits(n: nat, actions: seq<Action>, s: System, i: nat, call: Call)
    requires Run(n, actions) == Some(s) && i < |s.sessions| && s.sessions[i].Idle() && |CallPlan(call)| == 1
    ensures Run(n, actions + Build(i, call)) == Some(Waiting(s, i, call))
  {
    hide Run, CallPlan;
    var x := s.sessions[i];
    var x1 := x.(history := x.history + [call], todo := CallPlan(call));
    var p := Stamped(i, CallPlan(call)[0], s.counter, 0);
    assert x1.todo[1..] == [] && x1.built + [p] == [p];
    var s1 := s.(sessions := s.sessions[i := x1]);
    var one := actions + [Begin(i, call)];
    RunNext(n, actions, Begin(i, call), s, s1);
    RunNext(n, one, DrawNext(i, 0), s1, Waiting(s, i, call));
    assert actions + Build(i, call) == one + [DrawNext(i, 0)];
  }

  lemma OneSent(n: nat, actions: seq<Action>, s: System, i: nat)
    requires Run(n, actions) == Some(s) && i < |s.sessions|
    requires s.sessions[i].todo == [] && |s.sessions[i].built| == 1
    ensures Run(n, actions + [Send(i)]) == Some(Sent(s, i))
  {
    hide Run, CallPlan;
    assert s.sessions[i].built[1..] == [];
    RunNext(n, actions, Send(i), s, Sent(s, i));
  }

  /** The same call with its packet sent at once. */
  function AfterOne(s: System, i: nat, call: Call): System
    requires i < |s.sessions| && |CallPlan(call)| == 1
  {
    Sent(Waiting(s, i, call), i)
  }

  lemma OneGoesOut(n: nat, actions: seq<Action>, s: System, i: nat, call: Call)
    requires Run(n, actions) == Some(s) && i < |s.sessions| && s.sessions[i].Idle() && |CallPlan(call)| == 1
    ensures Run(n, actions + Build(i, call) + [Send(i)]) == Some(AfterOne(s, i, call))
  {
    hide Run, CallPlan;
    OneWaits(n, actions, s, i, call);
    OneSent(n, actions + Build(i, call), Waiting(s, i, call), i);
  }

  lemma EventPlan(call: Call)
    requires call.Event?
    ensures |CallPlan(call)| == 1
  {
  }

  /** All sessions are at rest and lossless. */
  ghost predicate AtRest(s: System) {
    NothingInFlight(s) && NothingLost(s)
  }

  /** A run at rest in which nothing was lost, although the check reports a loss. */
  ghost predicate FalseAlarm(ports: seq<u16>, listens: set<u16>, actions: seq<Action>) {
    && Run(|ports|, actions).Some?
    && var s := Run(|ports|, actions).value;
       AtRest(s) && !Accepts(HeardOn(ports, listens, s.wire))
  }

  lemma JumpIsRejected(p: Stamped, q: Stamped)
    requires q.sequence != Successor(p.sequence)
    ensures !Accepts([p, q])
  {
    assert [p, q][1].sequence != Successor([p, q][0].sequence);
  }

  /** Two heard sessions trip it: the second one draws later but sends first. */
  lemma OvertakingTripsCheck(ports: seq<u16>, listens: set<u16>, i: nat, j: nat, a: Call, b: Call)
    requires i < |ports| && j < |ports| && i != j && ports[i] in listens && ports[j] in listens
    requires a.Event? && b.Event?
    ensures FalseAlarm(ports, listens, Build(i, a) + Build(j, b) + [Send(j)] + [Send(i)])
  {
    hide Run, CallPlan, Accepts;
    EventPlan(a);
    EventPlan(b);
    var n := |ports|;
    RunNothing(n);
    var s0 := Start(n);
    var s1 := Waiting(s0, i, a);
    var s2 := Waiting(s1, j, b);
    var s3 := Sent(s2, j);
    var s4 := Sent(s3, i);
    OneWaits(n, [], s0, i, a);
    assert [] + Build(i, a) == Build(i, a);
    OneWaits(n, Build(i, a), s1, j, b);
    OneSent(n, Build(i, a) + Build(j, b), s2, j);
    OneSent(n, Build(i, a) + Build(j, b) + [Send(j)], s3, i);
    var p, q := s4.drawn[0], s4.drawn[1];
    assert s4.wire == [q, p];
    FilterAll(Heard(ports, listens), s4.wire);
    JumpIsRejected(q, p);
  }

  lemma OneRests(s: System, i: nat, call: Call)
    requires AtRest(s) && i < |s.sessions| && |CallPlan(call)| == 1
    ensures var t := AfterOne(s, i, call);
            var p := Stamped(i, CallPlan(call)[0], s.counter, 0);
            && AtRest(t) && |t.sessions| == |s.sessions| && t.counter == (s.counter + 1) % TWO_64
            && t.drawn == s.drawn + [p] && t.wire == s.wire + [p]
  {
    hide CallPlan;
  }

  /** A heard and an unheard session trip it even when all packets are sent in the order of their
      draws: the numbers drawn for the other port are missing. */
  lemma OtherPortTripsCheck(ports: seq<u16>, listens: set<u16>, i: nat, j: nat, a: Call, b: Call, c: Call)
    requires i < |ports| && j < |ports| && ports[i] in listens && ports[j] !in listens
    requires a.Event? && b.Event? && c.Event?
    ensures var actions := Build(i, a) + [Send(i)] + Build(j, b) + [Send(j)] + Build(i, c) + [Send(i)];
            && FalseAlarm(ports, listens, actions)
            && Run(|ports|, actions).value.wire == Run(|ports|, actions).value.drawn
  {
    hide Run, CallPlan, Waiting, Sent, Accepts, NothingInFlight, NothingLost;
    EventPlan(a);
    EventPlan(b);
    EventPlan(c);
    var n := |ports|;
    RunNothing(n);
    var s0 := Start(n);
    StartRests(n);
    var s1 := AfterOne(s0, i, a);
    OneRests(s0, i, a);
    var s2 := AfterOne(s1, j, b);
    OneRests(s1, j, b);
    var s3 := AfterOne(s2, i, c);
    OneRests(s2, i, c);
    var one := Build(i, a) + [Send(i)];
    var two := one + Build(j, b) + [Send(j)];
    RestsIdle(s0, i);
    OneGoesOut(n, [], s0, i, a);
    assert [] + Build(i, a) == Build(i, a);
    RestsIdle(s1, j);
    OneGoesOut(n, one, s1, j, b);
    RestsIdle(s2, i);
    OneGoesOut(n, two, s2, i, c);
    var p, q, r := s3.wire[0], s3.wire[1], s3.wire[2];
    assert s3.wire == [p] + [q] + [r] == s3.drawn;
    HearOutOfThree(ports, listens, p, q, r);
    JumpIsRejected(p, r);
  }

  lemma StartRests(n: nat)
    ensures AtRest(Start(n)) && |Start(n).sessions| == n
    ensures Start(n).counter == 1 && Start(n).drawn == [] == Start(n).wire
  {
  }

  lemma RestsIdle(s: System, i: nat)
    requires AtRest(s) && i < |s.sessions|
    ensures s.sessions[i].Idle()
  {
  }

  lemma HearOutOfThree(ports: seq<u16>, listens: set<u16>, p: Stamped, q: Stamped, r: Stamped)
    requires Heard(ports, listens)(p) && !Heard(ports, listens)(q) && Heard(ports, listens)(r)
    ensures HeardOn(ports, listens, [p] + [q] + [r]) == [p, r]
  {
    var h := Heard(ports, listens);
    FilterAppend(h, [p] + [q], [r]);
    FilterAppend(h, [p], [q]);
  }

  lemma SilenceRaisesNoAlarm(ports: seq<u16>, listens: set<u16>, actions: seq<Action>)
    requires forall i :: 0 <= i < |ports| ==> ports[i] !in listens
    ensures !FalseAlarm(ports, listens, actions)
  {
    hide Run, Accepts, NothingInFlight, NothingLost;
    if Run(|ports|, actions).Some? {
      FilterNone(Heard(ports, listens), Run(|ports|, actions).value.wire);
      EmptyPasses();
    }
  }

  lemma OneSessionRaisesNoAlarm(ports: seq<u16>, listens: set<u16>, actions: seq<Action>)
    requires |ports| == 1
    ensures !FalseAlarm(ports, listens, actions)
  {
    hide Run, Accepts, NothingInFlight, SystemInv;
    if Run(|ports|, actions).Some? && NothingLost(Run(|ports|, actions).value) {
      RunInv(|ports|, actions);
      assert SystemInv(Run(|ports|, actions).value);
      DrawnByExisting(Run(|ports|, actions).value);
      LoneSessionPasses(ports, listens, actions, 0);
    }
  }

  lemma DrawnByExisting(s: System)
    requires SystemInv(s)
    ensures forall p :: p in s.drawn ==> p.sender < |s.sessions|
  {
    hide SessionInv;
  }

  /** The documented check never raises a false alarm in a deployment exactly when that has at most
      one session, or the receiver hears none of them. */
  lemma CheckIsRightForOneSession(ports: seq<u16>, listens: set<u16>)
    ensures (forall actions :: !FalseAlarm(ports, listens, actions)) <==>
            |ports| <= 1 || forall i :: 0 <= i < |ports| ==> ports[i] !in listens
  {
    hide FalseAlarm;
    if forall i :: 0 <= i < |ports| ==> ports[i] !in listens {
      forall actions ensures !FalseAlarm(ports, listens, actions) {
        SilenceRaisesNoAlarm(ports, listens, actions);
      }
    } else {
      var i :| 0 <= i < |ports| && ports[i] in listens;
      if |ports| == 1 {
        forall actions ensures !FalseAlarm(ports, listens, actions) {
          OneSessionRaisesNoAlarm(ports, listens, actions);
        }
      } else {
        var j := if i == 0 then 1 else 0;
        var event := Event([], [], 101, seq(ITEM_SIZE, _ => 0));
        if ports[j] in listens {
          OvertakingTripsCheck(ports, listens, i, j, event, event);
        } else {
          OtherPortTripsCheck(ports, listens, i, j, event, event, event);
        }
      }
    }
  }
}
