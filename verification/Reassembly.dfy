/** A receiver that splits the datagrams by exchange, symbol and message type and cuts at the
    last-packet flag gets back exactly the messages of the session that owns the key. */
module Reassembly {
  import opened Bits
  import opened Sequences
  import opened Text
  import opened Protocol
  import opened MarketData
  import opened PacketPlan
  import opened Decoder
  import opened Sessions

  datatype Key = Key(exchange: string, symbol: string, messageType: u8)

  /** The key a receiver reads from a datagram. */
  function KeyIn(data: seq<u8>): Key
    requires |data| >= HEADER_SIZE
  {
    var h := HeaderOf(data);
    Key(DecodeName(h.exchange), DecodeName(h.symbol), h.messageType)
  }

  /** The payloads of the complete messages of one key, in arrival order; `partial` is what the
      packets of an unfinished message brought so far. */
  function Reassemble(wire: seq<seq<u8>>, key: Key, partial: seq<u8>): seq<seq<u8>>
    requires forall d :: d in wire ==> |d| >= HEADER_SIZE
  {
    if wire == [] then []
    else
      var data, rest := wire[0], wire[1..];
      if KeyIn(data) != key then Reassemble(rest, key, partial)
      else
        var sofar := partial + data[HEADER_SIZE..];
        if IsLastOf(HeaderOf(data).flags) then [sofar] + Reassemble(rest, key, [])
        else Reassemble(rest, key, sofar)
  }

  // ----- What was meant to arrive -----

  /** A non-empty message with the key under which it travels. */
  datatype Unit = Unit(key: Key, payload: seq<u8>)

  function SubjectKey(subject: Subject): Key {
    Key(Clean(subject.exchange), Clean(subject.symbol), subject.messageType)
  }

  function LeafPayload(leaf: Leaf): seq<u8> {
    match leaf
    case Single(trade) => ItemsBytes(TradeItems([trade]))
    case Batch(_, _, _, trades) => ItemsBytes(TradeItems(trades))
    case OrderBook(_, _, bids, asks, _) => ItemsBytes(BookItems(bids, asks))
    case IndexPrice(_, _, value, _) => I64Bytes(Scaled(value))
    case MarkPrice(_, _, value, _) => I64Bytes(Scaled(value))
    case FundingRate(_, _, value, _) => I64Bytes(Scaled(value))
    case Liquidation(_, _, price, quantity, isSell, _) => ItemBytes(LiquidationItem(price, quantity, isSell))
  }

  /** A message without items is not sent at all. */
  function LeafUnits(leaf: Leaf): seq<Unit> {
    if LeafPayload(leaf) == [] then [] else [Unit(SubjectKey(SubjectOf(leaf)), LeafPayload(leaf))]
  }

  function CallUnits(call: Call): seq<Unit> {
    match call
    case Message(data) => Flatten(Map(LeafUnits, Leaves(data)))
    case Event(symbol, exchange, messageType, payload) =>
      [Unit(SubjectKey(Subject(symbol, exchange, messageType, None)), payload)]
  }

  function HistoryUnits(history: seq<Call>): seq<Unit> {
    Flatten(Map(CallUnits, history))
  }

  function HasKey(key: Key): Unit -> bool {
    (u: Unit) => u.key == key
  }

  function PayloadOfUnit(u: Unit): seq<u8> { u.payload }

  /** The messages a history holds for a key. */
  function MessagesFor(history: seq<Call>, key: Key): seq<seq<u8>> {
    Map(PayloadOfUnit, Filter(HasKey(key), HistoryUnits(history)))
  }

  // ----- The receiver on templates -----

  function TemplateKey(t: Template): Key { SubjectKey(t.subject) }

  function UnderKey(key: Key): Template -> bool {
    (t: Template) => TemplateKey(t) == key
  }

  function Gather(ts: seq<Template>, key: Key, partial: seq<u8>): seq<seq<u8>> {
    if ts == [] then []
    else if TemplateKey(ts[0]) != key then Gather(ts[1..], key, partial)
    else
      var sofar := partial + ts[0].payload;
      if ts[0].isLast then [sofar] + Gather(ts[1..], key, []) else Gather(ts[1..], key, sofar)
  }

  lemma BytesReadBack(p: Stamped)
    ensures |BytesOf(p)| >= HEADER_SIZE
    ensures KeyIn(BytesOf(p)) == TemplateKey(p.template)
    ensures IsLastOf(HeaderOf(BytesOf(p)).flags) == p.template.isLast
    ensures BytesOf(p)[HEADER_SIZE..] == p.template.payload
  {
    hide Stamp, HeaderOf, NameField, DecodeName, Clean, FlagsAndCount, IsLastOf;
    var t := p.template;
    StampReadBack(t, p.sequence, p.now);
    NameReadBack(t.subject.symbol);
    NameReadBack(t.subject.exchange);
    FlagsReadBack(t.isLast, t.count);
  }

  lemma BytesAreLong(wire: seq<Stamped>)
    ensures forall d :: d in Map(BytesOf, wire) ==> |d| >= HEADER_SIZE
  {
    hide BytesOf;
    forall i | 0 <= i < |wire| ensures |Map(BytesOf, wire)[i]| >= HEADER_SIZE {
      BytesReadBack(wire[i]);
    }
  }

  /** Reading the bytes is gathering the templates. */
  lemma {:induction false} ReassembleGathers(wire: seq<Stamped>, key: Key, partial: seq<u8>)
    ensures (forall d :: d in Map(BytesOf, wire) ==> |d| >= HEADER_SIZE)
    ensures Reassemble(Map(BytesOf, wire), key, partial) == Gather(Map(TemplateOf, wire), key, partial)
  {
    hide BytesOf, KeyIn, TemplateKey, IsLastOf, HeaderOf;
    BytesAreLong(wire);
    if wire != [] {
      BytesReadBack(wire[0]);
      var sofar := partial + wire[0].template.payload;
      assert Map(BytesOf, wire)[1..] == Map(BytesOf, wire[1..]);
      assert Map(TemplateOf, wire)[1..] == Map(TemplateOf, wire[1..]);
      ReassembleGathers(wire[1..], key, partial);
      ReassembleGathers(wire[1..], key, []);
      ReassembleGathers(wire[1..], key, sofar);
    }
  }

  /** Packets of other keys do not matter. */
  lemma {:induction false} GatherFiltered(ts: seq<Template>, key: Key, partial: seq<u8>)
    ensures Gather(Filter(UnderKey(key), ts), key, partial) == Gather(ts, key, partial)
  {
    hide TemplateKey;
    if ts != [] {
      GatherFiltered(ts[1..], key, partial);
      GatherFiltered(ts[1..], key, []);
      GatherFiltered(ts[1..], key, partial + ts[0].payload);
    }
  }

  // ----- Gathering the packets of a plan -----

  lemma GatherFirst(t: Template, rest: seq<Template>, key: Key, partial: seq<u8>)
    ensures Gather([t] + rest, key, partial) ==
            if TemplateKey(t) != key then Gather(rest, key, partial)
            else if t.isLast then [partial + t.payload] + Gather(rest, key, [])
            else Gather(rest, key, partial + t.payload)
  {
    assert ([t] + rest)[1..] == rest;
  }

  lemma {:induction false} GatherCut(subject: Subject, items: seq<Item>, size: nat, rest: seq<Template>,
                                     key: Key, partial: seq<u8>)
    requires 0 < size <= MAX_ITEMS && items != []
    ensures Gather(Cut(subject, items, size) + rest, key, partial) ==
            if SubjectKey(subject) != key then Gather(rest, key, partial)
            else [partial + ItemsBytes(items)] + Gather(rest, key, [])
    decreases |items|
  {
    hide ItemsBytes, SubjectKey, Cut, Gather;
    if |items| <= size {
      CutLast(subject, items, size);
      GatherFirst(Template(subject, true, |items|, ItemsBytes(items)), rest, key, partial);
    } else {
      var first := Template(subject, false, size, ItemsBytes(items[..size]));
      CutFirst(subject, items, size);
      assert Cut(subject, items, size) + rest == [first] + (Cut(subject, items[size..], size) + rest);
      GatherFirst(first, Cut(subject, items[size..], size) + rest, key, partial);
      GatherCut(subject, items[size..], size, rest, key, partial + ItemsBytes(items[..size]));
      GatherCut(subject, items[size..], size, rest, key, partial);
      ItemsBytesAppend(items[..size], items[size..]);
      assert items == items[..size] + items[size..];
      assert partial + ItemsBytes(items[..size]) + ItemsBytes(items[size..]) == partial + ItemsBytes(items);
    }
  }

  function PayloadsFor(units: seq<Unit>, key: Key): seq<seq<u8>> {
    Map(PayloadOfUnit, Filter(HasKey(key), units))
  }

  lemma PayloadsOne(u: Unit, key: Key)
    ensures PayloadsFor([u], key) == if u.key == key then [u.payload] else []
  {
  }

  lemma PayloadsAppend(a: seq<Unit>, b: seq<Unit>, key: Key)
    ensures PayloadsFor(a + b, key) == PayloadsFor(a, key) + PayloadsFor(b, key)
  {
    FilterAppend(HasKey(key), a, b);
    MapAppend(PayloadOfUnit, Filter(HasKey(key), a), Filter(HasKey(key), b));
  }

  lemma GatherItems(subject: Subject, items: seq<Item>, size: nat, rest: seq<Template>, key: Key)
    requires 0 < size <= MAX_ITEMS
    ensures var units := if ItemsBytes(items) == [] then [] else [Unit(SubjectKey(subject), ItemsBytes(items))];
            Gather(Cut(subject, items, size) + rest, key, []) == PayloadsFor(units, key) + Gather(rest, key, [])
  {
    hide SubjectKey, Gather, PayloadsFor;
    if items == [] {
      assert Cut(subject, items, size) + rest == rest;
      assert PayloadsFor([], key) == [] by { NoPayloads(key); }
    } else {
      GatherCut(subject, items, size, rest, key, []);
      PayloadsOne(Unit(SubjectKey(subject), ItemsBytes(items)), key);
      assert [] + ItemsBytes(items) == ItemsBytes(items);
    }
  }

  lemma NoPayloads(key: Key)
    ensures PayloadsFor([], key) == []
  {
  }

  lemma GatherOnePacket(subject: Subject, payload: seq<u8>, rest: seq<Template>, key: Key)
    ensures Gather(OnePacket(subject, payload) + rest, key, [])
         == PayloadsFor([Unit(SubjectKey(subject), payload)], key) + Gather(rest, key, [])
  {
    hide SubjectKey, Gather, PayloadsFor;
    GatherFirst(Template(subject, true, 1, payload), rest, key, []);
    PayloadsOne(Unit(SubjectKey(subject), payload), key);
    assert [] + payload == payload;
  }

  /** The packets of one message give back that message under its key and nothing under others. */
  lemma GatherLeaf(leaf: Leaf, rest: seq<Template>, key: Key)
    ensures Gather(LeafPlan(leaf) + rest, key, []) == PayloadsFor(LeafUnits(leaf), key) + Gather(rest, key, [])
  {
    hide Gather, PayloadsFor, Cut, TradeItems, BookItems, Scaled, LiquidationItem, ItemsBytes, SubjectKey;
    var subject := SubjectOf(leaf);
    match leaf
    case Single(trade) => GatherItems(subject, TradeItems([trade]), 50, rest, key);
    case Batch(_, _, _, trades) => GatherItems(subject, TradeItems(trades), MAX_ITEMS, rest, key);
    case OrderBook(_, _, bids, asks, _) => GatherItems(subject, BookItems(bids, asks), MAX_ITEMS, rest, key);
    case IndexPrice(_, _, value, _) => GatherOnePacket(subject, I64Bytes(Scaled(value)), rest, key);
    case MarkPrice(_, _, value, _) => GatherOnePacket(subject, I64Bytes(Scaled(value)), rest, key);
    case FundingRate(_, _, value, _) => GatherOnePacket(subject, I64Bytes(Scaled(value)), rest, key);
    case Liquidation(_, _, price, quantity, isSell, _) =>
      GatherOnePacket(subject, ItemBytes(LiquidationItem(price, quantity, isSell)), rest, key);
  }

  lemma {:induction false} GatherLeaves(leaves: seq<Leaf>, rest: seq<Template>, key: Key)
    ensures Gather(Flatten(Map(LeafPlan, leaves)) + rest, key, [])
         == PayloadsFor(Flatten(Map(LeafUnits, leaves)), key) + Gather(rest, key, [])
  {
    hide Gather, PayloadsFor, LeafPlan, LeafUnits;
    if leaves == [] {
      NoPayloads(key);
      assert Flatten(Map(LeafPlan, leaves)) + rest == rest;
    } else {
      var tail := Flatten(Map(LeafPlan, leaves[1..]));
      assert Map(LeafPlan, leaves)[1..] == Map(LeafPlan, leaves[1..]);
      assert Map(LeafUnits, leaves)[1..] == Map(LeafUnits, leaves[1..]);
      assert (LeafPlan(leaves[0]) + tail) + rest == LeafPlan(leaves[0]) + (tail + rest);
      GatherLeaf(leaves[0], tail + rest, key);
      GatherLeaves(leaves[1..], rest, key);
      PayloadsAppend(LeafUnits(leaves[0]), Flatten(Map(LeafUnits, leaves[1..])), key);
    }
  }

  lemma GatherCall(call: Call, rest: seq<Template>, key: Key)
    ensures Gather(CallPlan(call) + rest, key, []) == PayloadsFor(CallUnits(call), key) + Gather(rest, key, [])
  {
    hide Gather, PayloadsFor, OnePacket, Plan, LeafPlan, LeafUnits;
    match call
    case Message(data) =>
      PlanFlattens(data);
      GatherLeaves(Leaves(data), rest, key);
    case Event(symbol, exchange, messageType, payload) =>
      GatherOnePacket(Subject(symbol, exchange, messageType, None), payload, rest, key);
  }

  lemma {:induction false} GatherHistory(history: seq<Call>, key: Key)
    ensures Gather(HistoryPlan(history), key, []) == MessagesFor(history, key)
  {
    hide Gather, CallPlan, CallUnits;
    if history == [] {
      assert HistoryPlan(history) == [] && HistoryUnits(history) == [];
      GatherNothing(key);
    } else {
      var tail := history[1..];
      assert Map(CallPlan, history)[1..] == Map(CallPlan, tail);
      assert Map(CallUnits, history)[1..] == Map(CallUnits, tail);
      GatherCall(history[0], HistoryPlan(tail), key);
      GatherHistory(tail, key);
      PayloadsAppend(CallUnits(history[0]), HistoryUnits(tail), key);
    }
  }

  lemma GatherNothing(key: Key)
    ensures Gather([], key, []) == []
  {
  }

  // ----- Ownership -----

  /** No other session whose port the receiver hears was ever asked for a message under this key. */
  ghost predicate OwnedBy(s: System, ports: seq<u16>, listens: set<u16>, i: nat, key: Key) {
    forall j, u ::
      0 <= j < |s.sessions| && j < |ports| && j != i && ports[j] in listens && u in HistoryUnits(s.sessions[j].history)
      ==> u.key != key
  }

  predicate Lossless(s: System, i: nat) {
    i < |s.sessions| ==> !s.sessions[i].lossy
  }

  lemma FlattenElements<T, U(!new)>(f: T -> seq<U>, s: seq<T>)
    ensures forall x :: x in Flatten(Map(f, s)) <==> exists k :: 0 <= k < |s| && x in f(s[k])
  {
    if s != [] {
      assert Map(f, s)[1..] == Map(f, s[1..]);
      FlattenElements(f, s[1..]);
      forall x ensures x in Flatten(Map(f, s)) <==> exists k :: 0 <= k < |s| && x in f(s[k]) {
        if x in Flatten(Map(f, s[1..])) {
          var k :| 0 <= k < |s[1..]| && x in f(s[1..][k]);
          assert s[1..][k] == s[k + 1];
        }
        if k :| 0 <= k < |s| && x in f(s[k]) {
          if k > 0 {
            assert s[k] == s[1..][k - 1];
          }
        }
      }
    }
  }

  lemma LeafKeys(leaf: Leaf, t: Template)
    requires t in LeafPlan(leaf)
    ensures exists u :: u in LeafUnits(leaf) && u.key == TemplateKey(t)
  {
    hide SubjectKey, TradeItems, BookItems, Scaled, LiquidationItem;
    assert t.subject == SubjectOf(leaf);
    var u := Unit(SubjectKey(SubjectOf(leaf)), LeafPayload(leaf));
    assert u in LeafUnits(leaf);
  }

  /** Every planned packet travels under the key of a message of its call. */
  lemma CallKeys(call: Call, t: Template)
    requires t in CallPlan(call)
    ensures exists u :: u in CallUnits(call) && u.key == TemplateKey(t)
  {
    hide TemplateKey, SubjectKey, LeafPlan, LeafUnits, Plan;
    match call
    case Message(data) =>
      PlanFlattens(data);
      FlattenElements(LeafPlan, Leaves(data));
      FlattenElements(LeafUnits, Leaves(data));
      var k :| 0 <= k < |Leaves(data)| && t in LeafPlan(Leaves(data)[k]);
      LeafKeys(Leaves(data)[k], t);
    case Event(symbol, exchange, messageType, payload) =>
      EventKey(Subject(symbol, exchange, messageType, None), payload, t);
  }

  lemma EventKey(subject: Subject, payload: seq<u8>, t: Template)
    requires t in OnePacket(subject, payload)
    ensures TemplateKey(t) == Unit(SubjectKey(subject), payload).key
  {
  }

  lemma HistoryKeys(history: seq<Call>, t: Template)
    requires t in HistoryPlan(history)
    ensures exists u :: u in HistoryUnits(history) && u.key == TemplateKey(t)
  {
    hide TemplateKey, CallPlan, CallUnits;
    FlattenElements(CallPlan, history);
    FlattenElements(CallUnits, history);
    var k :| 0 <= k < |history| && t in CallPlan(history[k]);
    CallKeys(history[k], t);
  }

  function StampedUnder(key: Key): Stamped -> bool {
    (p: Stamped) => TemplateKey(p.template) == key
  }

  lemma ForeignPackets(s: System, ports: seq<u16>, listens: set<u16>, i: nat, key: Key, p: Stamped)
    requires SystemInv(s) && |ports| == |s.sessions| && OwnedBy(s, ports, listens, i, key)
    requires p in HeardOn(ports, listens, s.wire) && p.sender != i
    ensures !StampedUnder(key)(p)
  {
    hide TemplateKey, HistoryUnits, HistoryPlan;
    var j := p.sender;
    assert SessionInv(s, j);
    var x := s.sessions[j];
    assert p in Filter(By(j), s.wire);
    SubsequenceElements(Filter(By(j), s.wire), x.released);
    var k :| 0 <= k < |x.released| && x.released[k] == p;
    var planned := Map(TemplateOf, x.released + x.built) + x.todo;
    assert planned[k] == p.template;
    HistoryKeys(x.history, p.template);
  }

  lemma OwnPackets(s: System, ports: seq<u16>, listens: set<u16>, i: nat, key: Key)
    requires SystemInv(s) && |ports| == |s.sessions| && OwnedBy(s, ports, listens, i, key)
    requires i < |ports| && ports[i] in listens
    ensures Filter(UnderKey(key), Map(TemplateOf, HeardOn(ports, listens, s.wire)))
         == Filter(UnderKey(key), Map(TemplateOf, Filter(By(i), s.wire)))
  {
    hide TemplateKey, SystemInv, OwnedBy, Filter;
    var heard := HeardOn(ports, listens, s.wire);
    forall p | p in heard && StampedUnder(key)(p) ensures By(i)(p) {
      if p.sender != i {
        ForeignPackets(s, ports, listens, i, key, p);
      }
    }
    FilterInside(StampedUnder(key), By(i), heard);
    FilterInside(By(i), Heard(ports, listens), s.wire);
    FilterMap(TemplateOf, UnderKey(key), StampedUnder(key), heard);
    FilterMap(TemplateOf, UnderKey(key), StampedUnder(key), Filter(By(i), s.wire));
  }

  /** The datagrams that reach a receiver. */
  function HeardBytes(s: System, ports: seq<u16>, listens: set<u16>): (datagrams: seq<seq<u8>>)
    ensures forall d :: d in datagrams ==> |d| >= HEADER_SIZE
  {
    BytesAreLong(HeardOn(ports, listens, s.wire));
    Map(BytesOf, HeardOn(ports, listens, s.wire))
  }

  lemma {:induction false} GatherPrefix(a: seq<Template>, b: seq<Template>, key: Key, partial: seq<u8>)
    ensures Gather(a, key, partial) <= Gather(a + b, key, partial)
  {
    if a == [] {
    } else {
      hide TemplateKey;
      var rest := a[1..];
      assert a + b == [a[0]] + (rest + b) && a == [a[0]] + rest;
      GatherFirst(a[0], rest, key, partial);
      GatherFirst(a[0], rest + b, key, partial);
      GatherPrefix(rest, b, key, partial);
      GatherPrefix(rest, b, key, []);
      GatherPrefix(rest, b, key, partial + a[0].payload);
    }
  }

  /** What a session released so far gathers to the beginning of its messages. */
  lemma GatherReleased(x: Session, key: Key)
    requires Map(TemplateOf, x.released + x.built) + x.todo == HistoryPlan(x.history)
    ensures Gather(Map(TemplateOf, x.released), key, []) <= MessagesFor(x.history, key)
    ensures x.Idle() ==> Gather(Map(TemplateOf, x.released), key, []) == MessagesFor(x.history, key)
  {
    hide Gather, MessagesFor, HistoryPlan, Map;
    var released, built := Map(TemplateOf, x.released), Map(TemplateOf, x.built);
    MapAppend(TemplateOf, x.released, x.built);
    assert HistoryPlan(x.history) == released + (built + x.todo);
    GatherPrefix(released, built + x.todo, key, []);
    GatherHistory(x.history, key);
    if x.Idle() {
      assert x.released + x.built == x.released;
      assert released + x.todo == released;
    }
  }

  /** For every interleaving of any number of sessions that share one builder, in every state of it,
      and for a receiver on any set of ports: for a key that one of the sessions heard there owns,
      and that lost nothing, the receiver has the beginning of exactly that session's non-empty
      messages under the key, in order; once the session is idle it has them all. */
  lemma WireGivesBackMessages(ports: seq<u16>, listens: set<u16>, actions: seq<Action>, i: nat, key: Key)
    requires Run(|ports|, actions).Some? && i < |ports| && ports[i] in listens
    requires Lossless(Run(|ports|, actions).value, i)
    requires OwnedBy(Run(|ports|, actions).value, ports, listens, i, key)
    ensures var s := Run(|ports|, actions).value;
            var got := Reassemble(HeardBytes(s, ports, listens), key, []);
            && i < |s.sessions| && got <= MessagesFor(s.sessions[i].history, key)
            && (s.sessions[i].Idle() ==> got == MessagesFor(s.sessions[i].history, key))
  {
    hide Run, BytesOf, Gather, Reassemble, HistoryPlan, MessagesFor, OwnedBy, Subsequence;
    RunInv(|ports|, actions);
    var s := Run(|ports|, actions).value;
    assert SessionInv(s, i);
    var x := s.sessions[i];
    ReassembleGathers(HeardOn(ports, listens, s.wire), key, []);
    GatherFiltered(Map(TemplateOf, HeardOn(ports, listens, s.wire)), key, []);
    OwnPackets(s, ports, listens, i, key);
    GatherFiltered(Map(TemplateOf, x.released), key, []);
    GatherReleased(x, key);
  }

  /** The items of a trade or order-book message: the sorted trades, or the sorted sides. */
  function LeafItems(leaf: Leaf): seq<Item>
    requires HoldsItems(MessageTypeOf(leaf))
  {
    match leaf
    case Single(trade) => [TradeItem(trade)]
    case Batch(_, _, _, trades) => TradeItems(trades)
    case OrderBook(_, _, bids, asks, _) => BookItems(bids, asks)
  }

  lemma SingleTrade(trade: Trade)
    ensures TradeItems([trade]) == [TradeItem(trade)]
  {
    hide TradeItem;
  }

  /** What such a message holds: the payload of a trade or order-book message is exactly its
      items, which the receiver reads back. */
  lemma MessagePayloads(leaf: Leaf)
    requires HoldsItems(MessageTypeOf(leaf))
    ensures |LeafPayload(leaf)| == ITEM_SIZE * |LeafItems(leaf)|
    ensures ItemsIn(LeafPayload(leaf), |LeafItems(leaf)|) == LeafItems(leaf)
  {
    hide TradeItem, TradeItems, BookItems, ItemsIn, ItemsBytes;
    if leaf.Single? {
      SingleTrade(leaf.trade);
    }
    var items := LeafItems(leaf);
    assert LeafPayload(leaf) == ItemsBytes(items);
    ItemsReadBack(items, []);
    assert ItemsBytes(items) + [] == ItemsBytes(items);
  }
}
