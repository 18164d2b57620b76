/** What the packet builder must emit for a message, apart from the sequence number and the
    clock reading that each packet gets when it is built. */
module PacketPlan {
  import opened Bits
  import opened Sequences
  import opened StableSort
  import opened Text
  import opened Protocol
  import opened MarketData

  /** What the packets of one message have in common. Events take their time from the clock. */
  datatype Subject = Subject(symbol: string, exchange: string, messageType: u8, timestamp: Option<u64>)

  datatype Template = Template(subject: Subject, isLast: bool, count: u8, payload: seq<u8>)

  datatype UdpPacket = UdpPacket(data: seq<u8>, size: nat)

  function HeaderFor(t: Template, sequence: u64, now: u64): (h: Header)
    ensures h.Valid()
  {
    Header(1, sequence, if t.subject.timestamp.Some? then t.subject.timestamp.value else now, now,
           t.subject.messageType, FlagsAndCount(t.isLast, t.count),
           NameField(t.subject.symbol), NameField(t.subject.exchange))
  }

  /** The bytes of a planned packet with its number and clock reading. */
  function Stamp(t: Template, sequence: u64, now: u64): seq<u8> {
    HeaderBytes(HeaderFor(t, sequence, now)) + t.payload
  }

  function PacketOf(t: Template, sequence: u64, now: u64): UdpPacket {
    UdpPacket(Stamp(t, sequence, now), HEADER_SIZE + |t.payload|)
  }

  /** The header and the payload of a stamped template. */
  lemma StampReadBack(t: Template, sequence: u64, now: u64)
    ensures var data := Stamp(t, sequence, now);
            |data| == HEADER_SIZE + |t.payload| && HeaderOf(data) == HeaderFor(t, sequence, now)
            && data[HEADER_SIZE..] == t.payload
  {
    hide HeaderOf, HeaderBytes, HeaderFor;
    HeaderReadBack(HeaderFor(t, sequence, now), t.payload);
  }

  /** What a receiver reads of a planned packet: every field of the header, with the clock reading in
      place of a missing exchange time, and the payload. */
  lemma PacketReadBack(t: Template, sequence: u64, now: u64)
    requires t.count <= MAX_ITEMS
    ensures var p := PacketOf(t, sequence, now);
            && p.size == |p.data| == 67 + |t.payload| && p.data[67..] == t.payload
            && HeadlineOf(p.data)
            == Headline(1, sequence, match t.subject.timestamp case Some(time) => time case None => now, now,
                        t.subject.messageType, t.isLast, t.count, Clean(t.subject.symbol), Clean(t.subject.exchange))
  {
    hide Stamp, HeaderOf, NameField, DecodeName, Clean, FlagsAndCount, IsLastOf, CountOf;
    StampReadBack(t, sequence, now);
    FlagsReadBack(t.isLast, t.count);
    NameReadBack(t.subject.symbol);
    NameReadBack(t.subject.exchange);
  }

  /** The number handed out after `k` more draws from a 64-bit counter. */
  function Draw(counter: u64, k: nat): u64 {
    (counter + k) % TWO_64
  }

  function StampAll(plan: seq<Template>, counter: u64, nows: seq<u64>): (r: seq<UdpPacket>)
    requires |nows| == |plan|
    ensures |r| == |plan|
  {
    seq(|plan|, i requires 0 <= i < |plan| => PacketOf(plan[i], Draw(counter, i), nows[i]))
  }

  // ----- Chunks -----

  function Chunks<T>(s: seq<T>, size: nat): (r: seq<seq<T>>)
    requires size > 0
    ensures forall c :: c in r ==> 1 <= |c| <= size
    ensures r == [] <==> s == []
    decreases |s|
  {
    if s == [] then []
    else if |s| <= size then [s]
    else [s[..size]] + Chunks(s[size..], size)
  }

  /** Chunks partition the sequence, and only the last may be short. */
  lemma {:induction false} ChunksPartition<T>(s: seq<T>, size: nat)
    requires size > 0
    ensures Flatten(Chunks(s, size)) == s
    ensures forall i :: 0 <= i < |Chunks(s, size)| - 1 ==> |Chunks(s, size)[i]| == size
    decreases |s|
  {
    if |s| > size {
      ChunksPartition(s[size..], size);
      assert s == s[..size] + s[size..];
      assert Chunks(s, size)[1..] == Chunks(s[size..], size);
    } else if s != [] {
      FlattenOne(s);
    }
  }

  lemma {:induction false} ChunksCount<T>(s: seq<T>, size: nat)
    requires size > 0
    ensures |Chunks(s, size)| == (|s| + size - 1) / size
    decreases |s|
  {
    if |s| > size {
      ChunksCount(s[size..], size);
      QuotientStep(|s| - 1, size);
    } else if s != [] {
      QuotientUnique(|s| + size - 1, size, 1, |s| - 1);
    } else {
      QuotientUnique(size - 1, size, 0, size - 1);
    }
  }

  function ChunkTemplate(subject: Subject, chunks: seq<seq<Item>>, i: nat): Template
    requires i < |chunks| && |chunks[i]| <= MAX_ITEMS
  {
    Template(subject, i == |chunks| - 1, |chunks[i]|, ItemsBytes(chunks[i]))
  }

  /** The packets of a list of items: one per chunk, the last one marked. */
  function Cut(subject: Subject, items: seq<Item>, size: nat): (r: seq<Template>)
    requires 0 < size <= MAX_ITEMS
    ensures r == [] <==> items == []
  {
    var chunks := Chunks(items, size);
    seq(|chunks|, i requires 0 <= i < |chunks| =>
      assert chunks[i] in chunks;
      ChunkTemplate(subject, chunks, i))
  }

  lemma CutNothing(subject: Subject)
    ensures Cut(subject, [], MAX_ITEMS) == []
  {
  }

  lemma CutFirst(subject: Subject, items: seq<Item>, size: nat)
    requires 0 < size <= MAX_ITEMS && |items| > size
    ensures Cut(subject, items, size)
         == [Template(subject, false, size, ItemsBytes(items[..size]))] + Cut(subject, items[size..], size)
  {
    var chunks, rest := Chunks(items, size), Chunks(items[size..], size);
    assert chunks == [items[..size]] + rest && rest != [];
  }

  lemma CutLast(subject: Subject, items: seq<Item>, size: nat)
    requires 0 < size <= MAX_ITEMS && 0 < |items| <= size
    ensures Cut(subject, items, size) == [Template(subject, true, |items|, ItemsBytes(items))]
  {
    assert Chunks(items, size) == [items];
  }

  // ----- The plan of a message -----

  function TradeItem(t: Trade): Item {
    NewItem(t.price, t.quantity, t.isBuyerTaker)
  }

  /** The item of a level on the ask or the bid side. */
  function SideItem(isAsk: bool): Level -> Item {
    (l: Level) => NewItem(l.price, l.quantity, isAsk)
  }

  predicate HasQuantity(l: Level) {
    l.quantity > 0.0
  }

  function TradeItems(trades: seq<Trade>): seq<Item> {
    Map(TradeItem, Sort(TradeOrder, trades))
  }

  function BidItems(bids: seq<Level>): seq<Item> {
    Map(SideItem(false), Filter(HasQuantity, Sort(BidOrder, bids)))
  }

  function AskItems(asks: seq<Level>): seq<Item> {
    Map(SideItem(true), Filter(HasQuantity, Sort(AskOrder, asks)))
  }

  function BookItems(bids: seq<Level>, asks: seq<Level>): seq<Item> {
    BidItems(bids) + AskItems(asks)
  }

  function LiquidationItem(price: real, quantity: real, isSell: bool): Item {
    Item(Scaled(price), PackUnmasked(Scaled(quantity), isSell))
  }

  function MessageTypeOf(leaf: Leaf): u8 {
    match leaf
    case Single(_) => TRADE_TICK
    case Batch(_, _, _, _) => TRADE_TICK
    case OrderBook(_, _, _, _, _) => ORDER_BOOK
    case IndexPrice(_, _, _, _) => INDEX_PRICE
    case MarkPrice(_, _, _, _) => MARK_PRICE
    case FundingRate(_, _, _, _) => FUNDING_RATE
    case Liquidation(_, _, _, _, _, _) => LIQUIDATION
  }

  function SubjectOf(leaf: Leaf): Subject {
    var timestamp := if leaf.Single? then leaf.trade.timestamp else leaf.timestamp;
    Subject(SymbolOf(leaf), ExchangeOf(leaf), MessageTypeOf(leaf), Some(timestamp))
  }

  /** A message that fits one packet by itself. */
  function OnePacket(subject: Subject, payload: seq<u8>): seq<Template> {
    [Template(subject, true, 1, payload)]
  }

  function LeafPlan(leaf: Leaf): seq<Template> {
    var subject := SubjectOf(leaf);
    match leaf
    case Single(trade) => Cut(subject, TradeItems([trade]), 50)
    case Batch(_, _, _, trades) => Cut(subject, TradeItems(trades), MAX_ITEMS)
    case OrderBook(_, _, bids, asks, _) => Cut(subject, BookItems(bids, asks), MAX_ITEMS)
    case IndexPrice(_, _, value, _) => OnePacket(subject, I64Bytes(Scaled(value)))
    case MarkPrice(_, _, value, _) => OnePacket(subject, I64Bytes(Scaled(value)))
    case FundingRate(_, _, value, _) => OnePacket(subject, I64Bytes(Scaled(value)))
    case Liquidation(_, _, price, quantity, isSell, _) =>
      OnePacket(subject, ItemBytes(LiquidationItem(price, quantity, isSell)))
  }

  /** The packets of a tree of messages. */
  function Plan(data: ParsedData): seq<Template>
    decreases data
  {
    if data.Multi? then PlanAll(data.items) else LeafPlan(data)
  }

  function PlanAll(items: seq<ParsedData>): seq<Template>
    decreases items
  {
    if items == [] then [] else Plan(items[0]) + PlanAll(items[1..])
  }

  /** Grouping is invisible on the wire: the plan of a tree, however nested, is the
      concatenation of the plans of its messages. */
  lemma {:induction false} PlanFlattens(data: ParsedData)
    ensures Plan(data) == Flatten(Map(LeafPlan, Leaves(data)))
    decreases data
  {
    if data.Multi? {
      PlanAllFlattens(data.items);
    } else {
      assert Map(LeafPlan, Leaves(data)) == [LeafPlan(data)];
      FlattenOne(LeafPlan(data));
    }
  }

  lemma {:induction false} PlanAllFlattens(items: seq<ParsedData>)
    ensures PlanAll(items) == Flatten(Map(LeafPlan, LeavesOf(items)))
    decreases items
  {
    if items != [] {
      PlanFlattens(items[0]);
      PlanAllFlattens(items[1..]);
      var first, rest := Leaves(items[0]), LeavesOf(items[1..]);
      MapAppend(LeafPlan, first, rest);
      FlattenAppend(Map(LeafPlan, first), Map(LeafPlan, rest));
    }
  }

  // ----- Sizes -----

  /** What every planned packet satisfies: a count that is written without loss, and a payload
      that is one 8-byte value or exactly one 16-byte block per counted item. */
  predicate Fits(t: Template) {
    && 1 <= t.count <= MAX_ITEMS
    && (|t.payload| == ITEM_SIZE * t.count || (t.count == 1 && |t.payload| == 8))
  }

  predicate AllFit(plan: seq<Template>) {
    forall i :: 0 <= i < |plan| ==> Fits(plan[i])
  }

  lemma CutFits(subject: Subject, items: seq<Item>, size: nat)
    requires 0 < size <= MAX_ITEMS
    ensures AllFit(Cut(subject, items, size))
  {
    var chunks := Chunks(items, size);
    forall i | 0 <= i < |chunks| ensures Fits(Cut(subject, items, size)[i]) {
      assert chunks[i] in chunks;
    }
  }

  lemma {:induction false} PlanFits(data: ParsedData)
    ensures AllFit(Plan(data))
    decreases data
  {
    match data
    case Multi(items) => PlanAllFits(items);
    case Single(trade) => CutFits(SubjectOf(data), TradeItems([trade]), 50);
    case Batch(_, _, _, trades) => CutFits(SubjectOf(data), TradeItems(trades), MAX_ITEMS);
    case OrderBook(_, _, bids, asks, _) => CutFits(SubjectOf(data), BookItems(bids, asks), MAX_ITEMS);
    case _ =>
  }

  lemma {:induction false} PlanAllFits(items: seq<ParsedData>)
    ensures AllFit(PlanAll(items))
    decreases items
  {
    if items != [] {
      PlanFits(items[0]);
      PlanAllFits(items[1..]);
    }
  }

  /** The size check of the packet writer never fires on a planned packet. */
  lemma FittingPacketIsSmall(t: Template, sequence: u64, now: u64)
    requires Fits(t)
    ensures |Stamp(t, sequence, now)| == PacketOf(t, sequence, now).size <= 1347 < MAX_PACKET
  {
  }
}
