/** Any number of sessions sharing one packet builder. Atomic steps are: starting a call, drawing
    one sequence number (which builds one packet), and one send, which may succeed, be dropped
    because the socket would block, or fail and abandon the rest of the message. */
module Sessions {
  import opened Bits
  import opened Sequences
  import opened Text
  import opened MarketData
  import opened PacketPlan
  import opened PacketBuilder

  /** What a session asks the builder for: the packets of a parsed message, or one event. */
  datatype Call =
    | Message(data: ParsedData)
    | Event(symbol: string, exchange: string, messageType: u8, payload: seq<u8>)

  function CallPlan(call: Call): seq<Template> {
    match call
    case Message(data) => Plan(data)
    case Event(symbol, exchange, messageType, payload) =>
      OnePacket(Subject(symbol, exchange, messageType, None), payload)
  }

  function HistoryPlan(history: seq<Call>): seq<Template> {
    Flatten(Map(CallPlan, history))
  }

  /** A packet, with the session that built it. */
  datatype Stamped = Stamped(sender: nat, template: Template, sequence: u64, now: u64)

  function TemplateOf(p: Stamped): Template { p.template }

  function BytesOf(p: Stamped): seq<u8> {
    Stamp(p.template, p.sequence, p.now)
  }

  /** `released` lists what left the session's queue, sent or not; `lossy` says whether any of it
      was not sent. */
  datatype Session = Session(history: seq<Call>, todo: seq<Template>, built: seq<Stamped>,
                             released: seq<Stamped>, lossy: bool)
  {
    predicate Idle() { todo == [] && built == [] }
  }

  datatype System = System(counter: u64, sessions: seq<Session>, drawn: seq<Stamped>, wire: seq<Stamped>)

  datatype Action =
    | Begin(i: nat, call: Call)
    | DrawNext(i: nat, now: u64)
    | Send(i: nat)
    | WouldBlock(i: nat)
    | SendError(i: nat)

  function Start(n: nat): System {
    System(1, seq(n, _ => Session([], [], [], [], false)), [], [])
  }

  predicate Enabled(s: System, a: Action) {
    && a.i < |s.sessions|
    && var x := s.sessions[a.i];
       match a
       case Begin(_, _) => x.Idle()
       case DrawNext(_, _) => x.todo != []
       case _ => x.todo == [] && x.built != []
  }

  function Apply(s: System, a: Action): System
    requires Enabled(s, a)
  {
    var x := s.sessions[a.i];
    match a
    case Begin(i, call) =>
      s.(sessions := s.sessions[i := x.(history := x.history + [call], todo := CallPlan(call))])
    case DrawNext(i, now) =>
      var p := Stamped(i, x.todo[0], s.counter, now);
      System((s.counter + 1) % TWO_64,
             s.sessions[i := x.(todo := x.todo[1..], built := x.built + [p])],
             s.drawn + [p], s.wire)
    case Send(i) =>
      s.(sessions := s.sessions[i := x.(built := x.built[1..], released := x.released + [x.built[0]])],
         wire := s.wire + [x.built[0]])
    case WouldBlock(i) =>
      s.(sessions := s.sessions[i := x.(built := x.built[1..], released := x.released + [x.built[0]], lossy := true)])
    case SendError(i) =>
      s.(sessions := s.sessions[i := x.(built := [], released := x.released + x.built, lossy := true)])
  }

  /** The state after a list of actions; none if some action was not possible. */
  function Run(n: nat, actions: seq<Action>): Option<System> {
    if actions == [] then Some(Start(n))
    else
      match Run(n, actions[..|actions| - 1])
      case None => None
      case Some(s) => if Enabled(s, actions[|actions| - 1]) then Some(Apply(s, actions[|actions| - 1])) else None
  }

  // ----- What every step keeps -----

  function By(i: nat): Stamped -> bool {
    (p: Stamped) => p.sender == i
  }

  /** `a` can be made from `b` by deleting elements. */
  predicate Subsequence<T(==)>(a: seq<T>, b: seq<T>) {
    a == [] || (b != [] && (Subsequence(a, b[..|b| - 1])
      || (a[|a| - 1] == b[|b| - 1] && Subsequence(a[..|a| - 1], b[..|b| - 1]))))
  }

  /** The packets a session drew are, in order, those it released and those still waiting; they
      and the rest of its current plan are the plans of everything it was asked for; and what is
      on the wire is what it released, except for losses. */
  ghost predicate SessionInv(s: System, i: nat)
    requires i < |s.sessions|
  {
    var x := s.sessions[i];
    && Filter(By(i), s.drawn) == x.released + x.built
    && Map(TemplateOf, x.released + x.built) + x.todo == HistoryPlan(x.history)
    && Subsequence(Filter(By(i), s.wire), x.released)
    && (!x.lossy ==> Filter(By(i), s.wire) == x.released)
  }

  ghost predicate SystemInv(s: System) {
    && s.counter == Draw(1, |s.drawn|)
    && (forall k :: 0 <= k < |s.drawn| ==> s.drawn[k].sequence == Draw(1, k) && s.drawn[k].sender < |s.sessions|)
    && (forall k :: 0 <= k < |s.wire| ==> s.wire[k].sender < |s.sessions|)
    && (forall i :: 0 <= i < |s.sessions| ==> SessionInv(s, i))
  }

  lemma StartInv(n: nat)
    ensures SystemInv(Start(n))
  {
    hide CallPlan;
    forall i | 0 <= i < n ensures SessionInv(Start(n), i) {
      var x := Start(n).sessions[i];
      assert x == Session([], [], [], [], false);
      assert x.released + x.built == [];
      assert Map(CallPlan, x.history) == [];
    }
  }

  lemma SubsequenceLonger<T>(a: seq<T>, b: seq<T>, c: seq<T>)
    requires Subsequence(a, b)
    ensures Subsequence(a, b + c)
  {
    if c == [] {
      assert b + c == b;
    } else {
      var d := c[..|c| - 1];
      SubsequenceLonger(a, b, d);
      assert (b + c)[..|b + c| - 1] == b + d;
    }
  }

  lemma SubsequenceBoth<T>(a: seq<T>, b: seq<T>, x: T)
    requires Subsequence(a, b)
    ensures Subsequence(a + [x], b + [x])
  {
    assert (a + [x])[..|a|] == a && (b + [x])[..|b|] == b;
  }

  lemma FilterOne(i: nat, s: seq<Stamped>, p: Stamped)
    ensures Filter(By(i), s + [p]) == if p.sender == i then Filter(By(i), s) + [p] else Filter(By(i), s)
  {
    FilterAppend(By(i), s, [p]);
  }

  /** A session other than the acting one is not touched by the step. */
  lemma OtherSessionKept(s: System, a: Action, i: nat)
    requires Enabled(s, a) && SystemInv(s) && i < |s.sessions| && i != a.i
    ensures SessionInv(Apply(s, a), i)
  {
    hide CallPlan, HistoryPlan, Subsequence, Map, Draw;
    assert SessionInv(s, i);
    var x := s.sessions[a.i];
    if a.DrawNext? {
      FilterOne(i, s.drawn, Stamped(a.i, x.todo[0], s.counter, a.now));
    } else if a.Send? {
      HeadIsOwn(s, a.i);
      FilterOne(i, s.wire, x.built[0]);
    }
  }

  /** The packets waiting in a session were built by it. */
  lemma HeadIsOwn(s: System, i: nat)
    requires i < |s.sessions| && SessionInv(s, i) && s.sessions[i].built != []
    ensures s.sessions[i].built[0].sender == i && s.sessions[i].built[0] in s.drawn
  {
    var x := s.sessions[i];
    assert (x.released + x.built)[|x.released|] == x.built[0];
    assert x.built[0] in Filter(By(i), s.drawn);
  }

  lemma BeginKept(s: System, a: Action)
    requires Enabled(s, a) && a.Begin? && SessionInv(s, a.i)
    ensures SessionInv(Apply(s, a), a.i)
  {
    hide CallPlan, Subsequence;
    var x := s.sessions[a.i];
    MapAppend(CallPlan, x.history, [a.call]);
    FlattenAppend(Map(CallPlan, x.history), [CallPlan(a.call)]);
    FlattenOne(CallPlan(a.call));
    assert Map(CallPlan, [a.call]) == [CallPlan(a.call)];
    var sent := Map(TemplateOf, x.released + x.built);
    assert sent + [] == sent;
  }

  lemma DrawKeepsPlan(before: seq<Stamped>, built: seq<Stamped>, p: Stamped, todo: seq<Template>)
    requires todo != [] && p.template == todo[0]
    ensures before + (built + [p]) == before + built + [p]
    ensures Map(TemplateOf, before + built + [p]) + todo[1..] == Map(TemplateOf, before + built) + todo
  {
    var sent := Map(TemplateOf, before + built);
    MapAppend(TemplateOf, before + built, [p]);
    assert Map(TemplateOf, [p]) == [todo[0]];
    assert todo == [todo[0]] + todo[1..];
    assert (sent + [todo[0]]) + todo[1..] == sent + ([todo[0]] + todo[1..]);
  }

  lemma DrawKept(s: System, a: Action)
    requires Enabled(s, a) && a.DrawNext? && SessionInv(s, a.i)
    ensures SessionInv(Apply(s, a), a.i)
  {
    hide CallPlan, HistoryPlan, Subsequence, Filter, Map, TemplateOf;
    var x := s.sessions[a.i];
    var p := Stamped(a.i, x.todo[0], s.counter, a.now);
    FilterOne(a.i, s.drawn, p);
    DrawKeepsPlan(x.released, x.built, p, x.todo);
  }

  lemma ReleaseKept(s: System, a: Action)
    requires Enabled(s, a) && !a.Begin? && !a.DrawNext? && SessionInv(s, a.i)
    ensures SessionInv(Apply(s, a), a.i)
  {
    hide CallPlan, HistoryPlan, Subsequence, Map;
    var x := s.sessions[a.i];
    var sent := Filter(By(a.i), s.wire);
    HeadIsOwn(s, a.i);
    match a
    case Send(_) =>
      ReleaseKeepsOrder(x);
      FilterOne(a.i, s.wire, x.built[0]);
      SubsequenceBoth(sent, x.released, x.built[0]);
    case WouldBlock(_) =>
      ReleaseKeepsOrder(x);
      SubsequenceLonger(sent, x.released, [x.built[0]]);
    case SendError(_) =>
      SubsequenceLonger(sent, x.released, x.built);
      assert x.released + x.built + [] == x.released + x.built;
  }

  lemma ReleaseKeepsOrder(x: Session)
    requires x.built != []
    ensures (x.released + [x.built[0]]) + x.built[1..] == x.released + x.built
  {
  }

  lemma StepInv(s: System, a: Action)
    requires Enabled(s, a) && SystemInv(s)
    ensures SystemInv(Apply(s, a))
  {
    hide SessionInv, CallPlan;
    var t := Apply(s, a);
    forall i | 0 <= i < |t.sessions| ensures SessionInv(t, i) {
      if i == a.i {
        assert SessionInv(s, i);
        if a.Begin? {
          BeginKept(s, a);
        } else if a.DrawNext? {
          DrawKept(s, a);
        } else {
          ReleaseKept(s, a);
        }
      } else {
        OtherSessionKept(s, a, i);
      }
    }
    StepNumbers(s, a);
  }

  lemma StepNumbers(s: System, a: Action)
    requires Enabled(s, a) && SystemInv(s)
    ensures var t := Apply(s, a);
            && t.counter == Draw(1, |t.drawn|)
            && (forall k :: 0 <= k < |t.drawn| ==>
                  t.drawn[k].sequence == Draw(1, k) && t.drawn[k].sender < |t.sessions|)
            && (forall k :: 0 <= k < |t.wire| ==> t.wire[k].sender < |t.sessions|)
  {
    hide CallPlan;
    if a.DrawNext? {
      DrawTwice(1, |s.drawn|, 1);
    } else if a.Send? {
      assert SessionInv(s, a.i);
      HeadIsOwn(s, a.i);
    }
  }

  /** Every state of every run satisfies the invariant, whatever is lost. */
  lemma {:induction false} RunInv(n: nat, actions: seq<Action>)
    requires Run(n, actions).Some?
    ensures SystemInv(Run(n, actions).value) && |Run(n, actions).value.sessions| == n
  {
    hide SystemInv, CallPlan;
    if actions == [] {
      StartInv(n);
    } else {
      RunInv(n, actions[..|actions| - 1]);
      StepInv(Run(n, actions[..|actions| - 1]).value, actions[|actions| - 1]);
    }
  }

  // ----- Sequence numbers -----

  ghost predicate DistinctNumbers(s: seq<Stamped>) {
    forall a, b :: 0 <= a < b < |s| ==> s[a].sequence != s[b].sequence
  }

  ghost predicate IncreasingNumbers(s: seq<Stamped>) {
    forall a, b :: 0 <= a < b < |s| ==> s[a].sequence < s[b].sequence
  }

  lemma DrawsDiffer(a: nat, b: nat)
    requires a < b < a + TWO_64
    ensures Draw(1, a) != Draw(1, b)
  {
  }

  /** In every state of every run the k-th number handed out is k + 1 modulo 2^64, so below the
      wrap they are exactly 1 .. counter - 1, and no number is handed out twice exactly as long as
      at most 2^64 were. */
  lemma NumbersHandedOut(n: nat, actions: seq<Action>)
    requires Run(n, actions).Some?
    ensures var s := Run(n, actions).value;
            && (forall k :: 0 <= k < |s.drawn| ==> s.drawn[k].sequence == (k + 1) % TWO_64)
            && s.counter == (|s.drawn| + 1) % TWO_64
            && (DistinctNumbers(s.drawn) <==> |s.drawn| <= TWO_64)
  {
    hide Run, SessionInv;
    RunInv(n, actions);
    var s := Run(n, actions).value;
    if |s.drawn| <= TWO_64 {
      forall a, b | 0 <= a < b < |s.drawn| ensures s.drawn[a].sequence != s.drawn[b].sequence {
        DrawsDiffer(a, b);
      }
    } else {
      assert s.drawn[0].sequence == s.drawn[TWO_64].sequence;
    }
  }

  lemma FilterIncreasing(i: nat, s: seq<Stamped>)
    requires IncreasingNumbers(s)
    ensures IncreasingNumbers(Filter(By(i), s))
  {
    if s != [] {
      FilterIncreasing(i, s[1..]);
      var t := Filter(By(i), s[1..]);
      forall k | 0 <= k < |t| ensures s[0].sequence < t[k].sequence {
        assert t[k] in s[1..];
      }
    }
  }

  lemma SubsequenceElements(a: seq<Stamped>, b: seq<Stamped>)
    requires Subsequence(a, b)
    ensures forall x :: x in a ==> x in b
    ensures IncreasingNumbers(b) ==> IncreasingNumbers(a)
  {
    if a != [] {
      var b' := b[..|b| - 1];
      assert b == b' + [b[|b| - 1]];
      if Subsequence(a, b') {
        SubsequenceElements(a, b');
      } else {
        var a' := a[..|a| - 1];
        assert a == a' + [a[|a| - 1]];
        SubsequenceElements(a', b');
        forall k | 0 <= k < |a'| ensures IncreasingNumbers(b) ==> a'[k].sequence < a[|a| - 1].sequence {
          assert a'[k] in b';
        }
      }
    }
  }

  /** Everything on the wire was drawn. */
  lemma WireWasDrawn(s: System)
    requires SystemInv(s)
    ensures forall p :: p in s.wire ==> p in s.drawn
  {
    forall p | p in s.wire ensures p in s.drawn {
      var i := p.sender;
      assert SessionInv(s, i);
      assert p in Filter(By(i), s.wire);
      SubsequenceElements(Filter(By(i), s.wire), s.sessions[i].released);
      assert p in s.sessions[i].released + s.sessions[i].built;
    }
  }

  /** Below the wrap, and even with losses, the packets each session builds carry increasing
      numbers, and so do those it puts on the wire. */
  lemma WireIncreasesPerSession(n: nat, actions: seq<Action>, i: nat)
    requires Run(n, actions).Some? && i < n
    requires |Run(n, actions).value.drawn| < TWO_64
    ensures var s := Run(n, actions).value;
            && i < |s.sessions|
            && IncreasingNumbers(s.sessions[i].released + s.sessions[i].built)
            && IncreasingNumbers(Filter(By(i), s.wire))
  {
    hide Run, HistoryPlan, Subsequence;
    RunInv(n, actions);
    var s := Run(n, actions).value;
    assert SessionInv(s, i);
    var x := s.sessions[i];
    forall a, b | 0 <= a < b < |s.drawn| ensures s.drawn[a].sequence < s.drawn[b].sequence {
    }
    FilterIncreasing(i, s.drawn);
    assert forall k :: 0 <= k < |x.released| ==> x.released[k] == (x.released + x.built)[k];
    SubsequenceElements(Filter(By(i), s.wire), x.released);
  }

  ghost predicate NothingInFlight(s: System) {
    forall i :: 0 <= i < |s.sessions| ==> s.sessions[i].Idle()
  }

  ghost predicate NothingLost(s: System) {
    forall i :: 0 <= i < |s.sessions| ==> !s.sessions[i].lossy
  }

  /** Once no call is in flight, whatever was lost, every packet that was numbered belongs to
      exactly one call's result: each session was given exactly its own, in the drawn order. */
  lemma EveryNumberIsReturned(n: nat, actions: seq<Action>, i: nat)
    requires Run(n, actions).Some? && NothingInFlight(Run(n, actions).value) && i < n
    ensures var s := Run(n, actions).value;
            && i < |s.sessions|
            && s.sessions[i].released == Filter(By(i), s.drawn)
            && Map(TemplateOf, s.sessions[i].released) == HistoryPlan(s.sessions[i].history)
            && forall p :: p in s.drawn ==> p.sender < n
  {
    hide Run, HistoryPlan, Subsequence;
    RunInv(n, actions);
    var s := Run(n, actions).value;
    assert SessionInv(s, i);
    var x := s.sessions[i];
    assert x.released + x.built == x.released;
    assert Map(TemplateOf, x.released) + x.todo == Map(TemplateOf, x.released);
  }

  /** Once no call is in flight and nothing was lost, every number handed out sits in exactly one
      packet on the wire. */
  lemma EveryNumberIsSent(n: nat, actions: seq<Action>)
    requires Run(n, actions).Some?
    requires NothingInFlight(Run(n, actions).value) && NothingLost(Run(n, actions).value)
    ensures multiset(Run(n, actions).value.wire) == multiset(Run(n, actions).value.drawn)
  {
    hide Run, HistoryPlan, Subsequence;
    RunInv(n, actions);
    var s := Run(n, actions).value;
    forall p ensures multiset(s.wire)[p] == multiset(s.drawn)[p] {
      if p.sender < n {
        assert SessionInv(s, p.sender);
        var x := s.sessions[p.sender];
        assert x.released + x.built == x.released;
        MultisetFilter(By(p.sender), s.wire, p);
        MultisetFilter(By(p.sender), s.drawn, p);
      } else {
        assert p !in s.wire && p !in s.drawn;
        assert p !in multiset(s.wire) && p !in multiset(s.drawn);
      }
    }
  }

  // ----- What one session puts on the wire -----

  function ActsFor(i: nat): Action -> bool {
    (a: Action) => a.i == i
  }

  /** The packets of the call that the last of a session's own actions belongs to. */
  function CurrentPlan(own: seq<Action>): seq<Template> {
    if own == [] then []
    else
      var last := own[|own| - 1];
      if last.Begin? then CallPlan(last.call) else CurrentPlan(own[..|own| - 1])
  }

  /** How many of them are done with. A failed send is the end of its message. */
  function Position(own: seq<Action>): nat {
    if own == [] then 0
    else
      match own[|own| - 1]
      case Begin(_, _) => 0
      case DrawNext(_, _) => Position(own[..|own| - 1])
      case SendError(_) => |CurrentPlan(own)|
      case _ => Position(own[..|own| - 1]) + 1
  }

  /** What those actions alone send: each successful send the next packet of its message. */
  function Passed(own: seq<Action>): seq<Template> {
    if own == [] then []
    else
      var init := own[..|own| - 1];
      Passed(init)
      + if own[|own| - 1].Send? && Position(init) < |CurrentPlan(init)| then [CurrentPlan(init)[Position(init)]] else []
  }

  /** Some of a session's own actions lost a packet. */
  predicate Loses(own: seq<Action>) {
    exists k :: 0 <= k < |own| && (own[k].WouldBlock? || own[k].SendError?)
  }

  /** What a session has queued, done and sent is what its own actions say. */
  ghost predicate FollowsOwn(s: System, i: nat, own: seq<Action>) {
    && i < |s.sessions|
    && var x := s.sessions[i];
       && Map(TemplateOf, Filter(By(i), s.wire)) == Passed(own)
       && Position(own) <= |CurrentPlan(own)|
       && Map(TemplateOf, x.built) + x.todo == CurrentPlan(own)[Position(own)..]
       && (x.lossy <==> Loses(own))
  }

  lemma NothingSent(n: nat, i: nat)
    requires i < n
    ensures FollowsOwn(Start(n), i, Filter(ActsFor(i), []))
  {
    assert Start(n).sessions[i] == Session([], [], [], [], false);
    assert Position([]) == 0 && CurrentPlan([]) == [] && Passed([]) == [];
  }

  lemma IdleAtTheEnd(s: System, i: nat, own: seq<Action>)
    requires FollowsOwn(s, i, own)
    ensures s.sessions[i].Idle() <==> Position(own) == |CurrentPlan(own)|
  {
    hide Passed, Position, CurrentPlan, Loses, Filter;
    var x := s.sessions[i];
    assert |Map(TemplateOf, x.built) + x.todo| == |CurrentPlan(own)| - Position(own);
  }

  lemma OtherStep(s: System, a: Action, i: nat, own: seq<Action>)
    requires Enabled(s, a) && SystemInv(s) && a.i != i && FollowsOwn(s, i, own)
    ensures FollowsOwn(Apply(s, a), i, own)
  {
    hide Passed, Position, CurrentPlan, Loses, CallPlan, Map;
    if a.Send? {
      assert SessionInv(s, a.i);
      HeadIsOwn(s, a.i);
      FilterOne(i, s.wire, s.sessions[a.i].built[0]);
    }
  }

  lemma OwnNext(own: seq<Action>, a: Action)
    ensures var next, plan, at := own + [a], CurrentPlan(own), Position(own);
            && CurrentPlan(next) == (if a.Begin? then CallPlan(a.call) else plan)
            && Position(next) == (match a case Begin(_, _) => 0 case DrawNext(_, _) => at
                                          case SendError(_) => |plan| case _ => at + 1)
            && Passed(next) == Passed(own) + (if a.Send? && at < |plan| then [plan[at]] else [])
            && (Loses(next) <==> Loses(own) || a.WouldBlock? || a.SendError?)
  {
    hide CallPlan, Loses;
    LosesNext(own, a);
    assert (own + [a])[..|own|] == own;
  }

  lemma LosesNext(own: seq<Action>, a: Action)
    ensures Loses(own + [a]) <==> Loses(own) || a.WouldBlock? || a.SendError?
  {
    var next := own + [a];
    if Loses(own) {
      var k :| 0 <= k < |own| && (own[k].WouldBlock? || own[k].SendError?);
      assert next[k] == own[k];
    }
    if a.WouldBlock? || a.SendError? {
      assert next[|own|] == a;
    }
  }

  lemma OwnBegin(s: System, a: Action, own: seq<Action>)
    requires Enabled(s, a) && a.Begin? && FollowsOwn(s, a.i, own)
    ensures FollowsOwn(Apply(s, a), a.i, own + [a])
  {
    hide Passed, Position, CurrentPlan, Loses, CallPlan, Filter;
    OwnNext(own, a);
    var sent := Passed(own);
    assert sent + [] == sent;
    assert Map(TemplateOf, []) + CallPlan(a.call) == CallPlan(a.call);
  }

  lemma OwnDraw(s: System, a: Action, own: seq<Action>)
    requires Enabled(s, a) && a.DrawNext? && FollowsOwn(s, a.i, own)
    ensures FollowsOwn(Apply(s, a), a.i, own + [a])
  {
    hide Passed, Position, CurrentPlan, Loses, CallPlan, Filter;
    OwnNext(own, a);
    var sent, x := Passed(own), s.sessions[a.i];
    assert sent + [] == sent;
    DrawKeepsPlan([], x.built, Stamped(a.i, x.todo[0], s.counter, a.now), x.todo);
    assert [] + x.built == x.built;
  }

  /** Taking the first packet off the queue. */
  lemma QueueAdvances(x: Session, plan: seq<Template>, at: nat)
    requires x.todo == [] && x.built != [] && at <= |plan| && Map(TemplateOf, x.built) + x.todo == plan[at..]
    ensures at < |plan| && plan[at] == x.built[0].template
    ensures Map(TemplateOf, x.built[1..]) + x.todo == plan[at + 1..]
  {
    MapFirst(TemplateOf, x.built);
    var rest := Map(TemplateOf, x.built[1..]);
    assert plan[at..] == [x.built[0].template] + rest;
    assert plan[at..][0] == plan[at] && plan[at..][1..] == plan[at + 1..];
    assert rest + [] == rest;
  }

  lemma OwnSend(s: System, a: Action, own: seq<Action>)
    requires Enabled(s, a) && a.Send? && SessionInv(s, a.i) && FollowsOwn(s, a.i, own)
    ensures FollowsOwn(Apply(s, a), a.i, own + [a])
  {
    hide Passed, Position, CurrentPlan, Loses, CallPlan, Filter, SessionInv, Map;
    OwnNext(own, a);
    var x := s.sessions[a.i];
    QueueAdvances(x, CurrentPlan(own), Position(own));
    HeadIsOwn(s, a.i);
    FilterOne(a.i, s.wire, x.built[0]);
    MapAppend(TemplateOf, Filter(By(a.i), s.wire), [x.built[0]]);
    assert Map(TemplateOf, [x.built[0]]) == [x.built[0].template];
  }

  lemma OwnLoss(s: System, a: Action, own: seq<Action>)
    requires Enabled(s, a) && (a.WouldBlock? || a.SendError?) && FollowsOwn(s, a.i, own)
    ensures FollowsOwn(Apply(s, a), a.i, own + [a])
  {
    hide Passed, Position, CurrentPlan, Loses, CallPlan, Filter;
    OwnNext(own, a);
    var sent, x := Passed(own), s.sessions[a.i];
    assert sent + [] == sent;
    QueueAdvances(x, CurrentPlan(own), Position(own));
    assert Map(TemplateOf, []) + x.todo == [];
  }

  lemma OwnStep(s: System, a: Action, own: seq<Action>)
    requires Enabled(s, a) && SystemInv(s) && FollowsOwn(s, a.i, own)
    ensures FollowsOwn(Apply(s, a), a.i, own + [a])
  {
    hide FollowsOwn, SessionInv, Apply;
    assert SessionInv(s, a.i);
    match a
    case Begin(_, _) => OwnBegin(s, a, own);
    case DrawNext(_, _) => OwnDraw(s, a, own);
    case Send(_) => OwnSend(s, a, own);
    case _ => OwnLoss(s, a, own);
  }

  /** For every interleaving: what one session puts on the wire, in which order, when it is idle and
      whether it lost something depends on its own actions alone, whatever the other sessions do. A
      dropped packet is skipped; a failed send abandons the rest of its message and nothing else. */
  lemma {:induction false} OwnActionsDecide(n: nat, actions: seq<Action>, i: nat)
    requires Run(n, actions).Some? && i < n
    ensures var s, own := Run(n, actions).value, Filter(ActsFor(i), actions);
            && FollowsOwn(s, i, own)
            && (s.sessions[i].Idle() <==> Position(own) == |CurrentPlan(own)|)
  {
    hide SystemInv, CallPlan, Passed, Position, CurrentPlan, Loses, Enabled, Apply, FollowsOwn, Filter;
    if actions == [] {
      NothingSent(n, i);
    } else {
      var init, a := actions[..|actions| - 1], actions[|actions| - 1];
      var s := Run(n, init).value;
      OwnActionsDecide(n, init, i);
      RunInv(n, init);
      OwnOf(init, a, i);
      if a.i == i {
        OwnStep(s, a, Filter(ActsFor(i), init));
      } else {
        OtherStep(s, a, i, Filter(ActsFor(i), init));
      }
      assert actions == init + [a];
    }
    IdleAtTheEnd(Run(n, actions).value, i, Filter(ActsFor(i), actions));
  }

  lemma OwnOf(init: seq<Action>, a: Action, i: nat)
    ensures Filter(ActsFor(i), init + [a])
         == if a.i == i then Filter(ActsFor(i), init) + [a] else Filter(ActsFor(i), init)
  {
    FilterAppend(ActsFor(i), init, [a]);
  }

  // ----- What a receiver hears -----

  /** Session `i` sends to port `ports[i]`; a receiver hears the ports it listens to. */
  function Heard(ports: seq<u16>, listens: set<u16>): Stamped -> bool {
    (p: Stamped) => p.sender < |ports| && ports[p.sender] in listens
  }

  function HeardOn(ports: seq<u16>, listens: set<u16>, wire: seq<Stamped>): seq<Stamped> {
    Filter(Heard(ports, listens), wire)
  }

  // ----- Runs step by step -----

  lemma RunNothing(n: nat)
    ensures Run(n, []) == Some(Start(n))
  {
  }

  lemma RunNext(n: nat, actions: seq<Action>, a: Action, s: System, t: System)
    requires Run(n, actions) == Some(s) && Enabled(s, a)
    requires Apply(s, a).sessions == t.sessions && Apply(s, a).counter == t.counter
    requires Apply(s, a).drawn == t.drawn && Apply(s, a).wire == t.wire
    ensures Run(n, actions + [a]) == Some(t)
  {
    assert (actions + [a])[..|actions|] == actions;
  }

  // ----- A call that is not interrupted -----

  function PacketFrom(p: Stamped): UdpPacket {
    PacketOf(p.template, p.sequence, p.now)
  }

  function PacketsOf(s: seq<Stamped>): seq<UdpPacket> {
    Map(PacketFrom, s)
  }

  /** All draws of one session, one after the other. */
  function AfterDraws(s: System, i: nat, nows: seq<u64>): System
    requires i < |s.sessions| && |nows| <= |s.sessions[i].todo|
    decreases |nows|
  {
    if nows == [] then s else AfterDraws(Apply(s, DrawNext(i, nows[0])), i, nows[1..])
  }

  /** A call whose draws are not interleaved with others builds exactly the packets that the
      sequential builder method promises for its plan. */
  lemma {:induction false} UninterruptedCall(s: System, i: nat, nows: seq<u64>)
    requires i < |s.sessions| && |nows| == |s.sessions[i].todo|
    ensures var t := AfterDraws(s, i, nows);
            && |t.sessions| == |s.sessions| && t.sessions[i].todo == []
            && s.sessions[i].built <= t.sessions[i].built
            && Emits(s.sessions[i].todo, s.counter, t.counter,
                     PacketsOf(t.sessions[i].built[|s.sessions[i].built|..]), nows)
    decreases |nows|
  {
    hide Emits, PacketOf, CallPlan;
    var x := s.sessions[i];
    if nows == [] {
      EmitsNothing(s.counter);
      assert x.built[|x.built|..] == [];
    } else {
      var u := Apply(s, DrawNext(i, nows[0]));
      UninterruptedCall(u, i, nows[1..]);
      var t := AfterDraws(u, i, nows[1..]);
      var p := Stamped(i, x.todo[0], s.counter, nows[0]);
      var rest := t.sessions[i].built[|x.built| + 1..];
      assert t.sessions[i].built[|x.built|..] == [p] + rest by {
        assert t.sessions[i].built[|x.built|] == u.sessions[i].built[|x.built|] == p;
      }
      EmitsOne(x.todo[0], s.counter, nows[0]);
      EmitsBoth([x.todo[0]], x.todo[1..], s.counter, u.counter, t.counter,
                [PacketOf(p.template, p.sequence, p.now)], PacketsOf(rest), [nows[0]], nows[1..]);
      assert x.todo == [x.todo[0]] + x.todo[1..] && nows == [nows[0]] + nows[1..];
      MapFirst(PacketFrom, [p] + rest);
    }
  }
}
