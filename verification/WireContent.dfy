/** What the datagrams of each kind of message hold, byte by byte at the documented places. */
module WireContent {
  import opened Bits
  import opened Sequences
  import opened StableSort
  import opened Text
  import opened Protocol
  import opened MarketData
  import opened PacketPlan
  import opened PacketBuilder
  import opened Decoder
  import opened EndToEnd
  import opened Sessions

  // ----- Messages in one packet -----

  /** The datagram of a message that fits one packet, with `size` bytes after the header. */
  ghost predicate OneDatagram(packets: seq<UdpPacket>, before: u64, nows: seq<u64>, messageType: u8, symbol: string,
                              exchange: string, time: Option<u64>, size: nat) {
    && |packets| == |nows| == 1 && packets[0].size == |packets[0].data| == 67 + size
    && HeadlineOf(packets[0].data)
    == Headline(1, before, if time.Some? then time.value else nows[0], nows[0], messageType, true, 1, Clean(symbol),
                Clean(exchange))
  }

  lemma OneIsSent(t: Template, before: u64, after: u64, packets: seq<UdpPacket>, nows: seq<u64>)
    requires t.isLast && t.count == 1 && Emits([t], before, after, packets, nows)
    ensures OneDatagram(packets, before, nows, t.subject.messageType, t.subject.symbol, t.subject.exchange,
                        t.subject.timestamp, |t.payload|)
    ensures packets[0].data[67..] == t.payload
  {
    hide PacketOf, HeadlineOf, Clean;
    PacketReadBack(t, before, nows[0]);
  }

  /** Index price, mark price and funding rate: one packet whose 8 bytes are the scaled value. */
  lemma ValueOnTheWire(leaf: Leaf, before: u64, after: u64, packets: seq<UdpPacket>, nows: seq<u64>)
    requires leaf.IndexPrice? || leaf.MarkPrice? || leaf.FundingRate?
    requires Emits(Plan(leaf), before, after, packets, nows)
    ensures OneDatagram(packets, before, nows, if leaf.IndexPrice? then 2 else if leaf.MarkPrice? then 3 else 4,
                        leaf.symbol, leaf.exchange, Some(leaf.timestamp), 8)
    ensures I64Of(packets[0].data[67..]) == Scaled(leaf.value)
  {
    hide Emits, Scaled, I64Bytes, I64Of, HeadlineOf, Clean;
    var payload := I64Bytes(Scaled(leaf.value));
    OneIsSent(Template(SubjectOf(leaf), true, 1, payload), before, after, packets, nows);
    WordRoundTrip(0, Scaled(leaf.value), payload);
  }

  /** A liquidation: one packet with one item, which shows the price and the quantity; the sale flag is
      raised for a sale, and also by a negative quantity. */
  lemma LiquidationOnTheWire(leaf: Leaf, before: u64, after: u64, packets: seq<UdpPacket>, nows: seq<u64>)
    requires leaf.Liquidation? && Emits(Plan(leaf), before, after, packets, nows)
    ensures OneDatagram(packets, before, nows, 5, leaf.symbol, leaf.exchange, Some(leaf.timestamp), 16)
    ensures var item := ItemOf(packets[0].data[67..]);
            && item.price == Scaled(leaf.price)
            && (item.Flag() <==> leaf.isSell || Scaled(leaf.quantity) < 0)
            && (leaf.quantity >= 0.0 ==> item.Quantity() == Scaled(leaf.quantity))
  {
    hide Emits, Scaled, ItemBytes, ItemOf, PackUnmasked, FlagOf, QuantityOf, HeadlineOf, Clean;
    var item := LiquidationItem(leaf.price, leaf.quantity, leaf.isSell);
    OneIsSent(Template(SubjectOf(leaf), true, 1, ItemBytes(item)), before, after, packets, nows);
    ItemRoundTrip(item, ItemBytes(item));
    UnmaskedReadBack(Scaled(leaf.quantity), leaf.isSell);
    if leaf.quantity >= 0.0 {
      ScaledMonotone(0.0, leaf.quantity);
    }
  }

  /** A single trade: one packet with one item that shows it. */
  lemma TradeOnTheWire(trade: Trade, before: u64, after: u64, packets: seq<UdpPacket>, nows: seq<u64>)
    requires Emits(Plan(Single(trade)), before, after, packets, nows)
    ensures OneDatagram(packets, before, nows, 1, trade.symbol, trade.exchange, Some(trade.timestamp), 16)
    ensures Shows(ItemOf(packets[0].data[67..]), trade.price, trade.quantity, trade.isBuyerTaker)
  {
    hide Emits, ItemBytes, ItemOf, Shows, NewItem, Cut, TradeItems, HeadlineOf, Clean;
    var item := TradeItem(trade);
    var subject := SubjectOf(Single(trade));
    OneTradeCut(subject, trade, 50);
    OneIsSent(Template(subject, true, 1, ItemBytes(item)), before, after, packets, nows);
    ItemRoundTrip(item, ItemBytes(item));
    NewItemReadBack(trade.price, trade.quantity, trade.isBuyerTaker);
  }

  lemma OneTradeCut(subject: Subject, trade: Trade, size: nat)
    requires 0 < size <= MAX_ITEMS
    ensures Cut(subject, TradeItems([trade]), size) == [Template(subject, true, 1, ItemBytes(TradeItem(trade)))]
  {
    hide Cut, TradeItem, ItemBytes;
    assert TradeItems([trade]) == [TradeItem(trade)];
    CutLast(subject, [TradeItem(trade)], size);
    ItemsBytesOne(TradeItem(trade));
  }

  /** An aggregate trade is sent like the single trade it holds. */
  lemma AggregateTradeIsSingle(trade: Trade)
    ensures Plan(AggregateTrade(trade)) == Plan(Single(trade))
  {
    hide Cut, TradeItems, ItemBytes;
    OneTradeCut(SubjectOf(Single(trade)), trade, 50);
    OneTradeCut(SubjectOf(Single(trade)), trade, MAX_ITEMS);
  }

  /** A system event: its own type and payload, and the same clock reading in both time fields. */
  lemma EventOnTheWire(symbol: string, exchange: string, messageType: u8, payload: seq<u8>, before: u64, after: u64,
                       packets: seq<UdpPacket>, nows: seq<u64>)
    requires Emits(CallPlan(Event(symbol, exchange, messageType, payload)), before, after, packets, nows)
    ensures OneDatagram(packets, before, nows, messageType, symbol, exchange, None, |payload|)
    ensures packets[0].data[67..] == payload
  {
    hide Emits, HeadlineOf, Clean;
    OneIsSent(Template(Subject(symbol, exchange, messageType, None), true, 1, payload), before, after, packets, nows);
  }

  /** A mark-price update: index price, mark price and funding rate, each in its own packet with its own
      type, under the session's name. */
  lemma MarkPriceUpdateOnTheWire(symbol: string, exchange: string, mark: real, index: real, funding: real, time: u64,
                                 session: string, before: u64, after: u64, packets: seq<UdpPacket>, nows: seq<u64>)
    requires var data := WithSessionExchange(MarkPriceUpdate(symbol, exchange, mark, index, funding, time), session);
             Emits(Plan(data), before, after, packets, nows)
    ensures |packets| == |nows| == 3
    ensures HoldsValue(packets[0], Draw(before, 0), nows[0], 2, symbol, session, time, index)
    ensures HoldsValue(packets[1], Draw(before, 1), nows[1], 3, symbol, session, time, mark)
    ensures HoldsValue(packets[2], Draw(before, 2), nows[2], 4, symbol, session, time, funding)
  {
    hide HoldsValue, PacketOf, Scaled, I64Bytes;
    var data := WithSessionExchange(MarkPriceUpdate(symbol, exchange, mark, index, funding, time), session);
    MarkPricePlan(symbol, exchange, mark, index, funding, time, session);
    ValuePacket(symbol, session, 2, time, index, Draw(before, 0), nows[0]);
    ValuePacket(symbol, session, 3, time, mark, Draw(before, 1), nows[1]);
    ValuePacket(symbol, session, 4, time, funding, Draw(before, 2), nows[2]);
  }

  ghost predicate HoldsValue(p: UdpPacket, sequence: u64, now: u64, messageType: u8, symbol: string, exchange: string,
                             time: u64, value: real) {
    && p.size == |p.data| == 67 + 8 && I64Of(p.data[67..]) == Scaled(value)
    && HeadlineOf(p.data)
    == Headline(1, sequence, time, now, messageType, true, 1, Clean(symbol), Clean(exchange))
  }

  function ValueTemplate(symbol: string, exchange: string, messageType: u8, time: u64, value: real): Template {
    Template(Subject(symbol, exchange, messageType, Some(time)), true, 1, I64Bytes(Scaled(value)))
  }

  lemma ValuePacket(symbol: string, exchange: string, messageType: u8, time: u64, value: real, sequence: u64, now: u64)
    ensures HoldsValue(PacketOf(ValueTemplate(symbol, exchange, messageType, time, value), sequence, now),
                       sequence, now, messageType, symbol, exchange, time, value)
  {
    hide PacketOf, Scaled, I64Bytes, I64Of, HeadlineOf, Clean;
    PacketReadBack(ValueTemplate(symbol, exchange, messageType, time, value), sequence, now);
    WordRoundTrip(0, Scaled(value), I64Bytes(Scaled(value)));
  }

  lemma MarkPricePlan(symbol: string, exchange: string, mark: real, index: real, funding: real, time: u64,
                      session: string)
    ensures Plan(WithSessionExchange(MarkPriceUpdate(symbol, exchange, mark, index, funding, time), session))
         == [ValueTemplate(symbol, session, 2, time, index), ValueTemplate(symbol, session, 3, time, mark),
             ValueTemplate(symbol, session, 4, time, funding)]
  {
    hide Scaled, I64Bytes, Plan, LeafPlan, Leaves, LeavesOf, WithSessionExchange, Renamed;
    var tree := MarkPriceUpdate(symbol, exchange, mark, index, funding, time);
    var data := WithSessionExchange(tree, session);
    FlatGroupLosesNothing(tree.items, session);
    PlanFlattens(data);
    var leaves := Leaves(data);
    var a, b, c := ValueTemplate(symbol, session, 2, time, index), ValueTemplate(symbol, session, 3, time, mark),
                   ValueTemplate(symbol, session, 4, time, funding);
    ValueLeaf(IndexPrice(symbol, exchange, index, time), session);
    ValueLeaf(MarkPrice(symbol, exchange, mark, time), session);
    ValueLeaf(FundingRate(symbol, exchange, funding, time), session);
    assert |leaves| == 3;
    assert Map(LeafPlan, leaves) == [[a], [b], [c]];
    FlattenThree(a, b, c);
  }

  lemma ValueLeaf(leaf: Leaf, session: string)
    requires leaf.IndexPrice? || leaf.MarkPrice? || leaf.FundingRate?
    ensures LeafPlan(Renamed(leaf, session))
         == [ValueTemplate(leaf.symbol, session, if leaf.IndexPrice? then 2 else if leaf.MarkPrice? then 3 else 4,
                           leaf.timestamp, leaf.value)]
  {
    hide Scaled, I64Bytes;
  }

  lemma FlattenThree<T>(a: T, b: T, c: T)
    ensures Flatten([[a], [b], [c]]) == [a, b, c]
  {
    FlattenOne([c]);
    FlattenFirst([b], [[c]]);
    FlattenFirst([a], [[b], [c]]);
    assert [[a]] + [[b], [c]] == [[a], [b], [c]] && [[b]] + [[c]] == [[b], [c]];
  }

  // ----- Messages in many packets -----

  /** The headers of consecutive packets of one message. */
  ghost predicate HeadedList(packets: seq<UdpPacket>, before: u64, nows: seq<u64>, messageType: u8, symbol: string,
                             exchange: string, time: u64) {
    && |packets| == |nows|
    && forall i :: 0 <= i < |packets| ==> HeadedAt(packets, before, nows, messageType, symbol, exchange, time, i)
  }

  ghost predicate HeadedAt(packets: seq<UdpPacket>, before: u64, nows: seq<u64>, messageType: u8, symbol: string,
                           exchange: string, time: u64, i: nat)
    requires i < |packets| == |nows|
  {
    var p := packets[i];
    && p.size == |p.data| >= 67
    && HeadlineOf(p.data) == Headline(1, (before + i) % TWO_64, time, nows[i], messageType, i == |packets| - 1,
                                      |ItemsOfPacket(p)|, Clean(symbol), Clean(exchange))
  }

  /** The headers of a cut list: consecutive numbers modulo 2^64, and everything else as announced. */
  lemma CutHeadlines(subject: Subject, items: seq<Item>, size: nat, before: u64, after: u64, packets: seq<UdpPacket>,
                     nows: seq<u64>, i: nat)
    requires HoldsItems(subject.messageType) && subject.timestamp.Some? && 0 < size <= MAX_ITEMS
    requires Emits(Cut(subject, items, size), before, after, packets, nows) && i < |packets|
    ensures |nows| == |packets|
    ensures HeadedAt(packets, before, nows, subject.messageType, subject.symbol, subject.exchange,
                     subject.timestamp.value, i)
  {
    hide PacketOf, HeadlineOf, Clean, Carries, ItemsOfPacket, HoldsItems, ItemsBytes;
    var chunks := Chunks(items, size);
    assert chunks[i] in chunks;
    DecodeCutAt(subject, items, size, before, after, packets, nows, i);
    CarriedItems(packets[i], subject, i == |packets| - 1, chunks[i]);
    PacketReadBack(ChunkTemplate(subject, chunks, i), Draw(before, i), nows[i]);
  }

  /** Every packet of an order-book update has type 0 and the update's names and time, and a receiver
      counts its positive levels as book items and nothing as ticks. */
  lemma BookOnTheWire(book: ParsedData, before: u64, after: u64, packets: seq<UdpPacket>, nows: seq<u64>)
    requires book.OrderBook? && Emits(Plan(book), before, after, packets, nows)
    ensures HeadedList(packets, before, nows, 0, book.symbol, book.exchange, book.timestamp)
    ensures var n := PositiveLevels(book.bids) + PositiveLevels(book.asks);
            CountsOf(Map(DataOf, packets)) == Counts(|packets|, 67 * |packets| + 16 * n, |packets|, 0, n, 0)
  {
    hide Emits, Cut, HeadedAt, CountsOf, BookItems;
    var items := BookItems(book.bids, book.asks);
    ReceiverTotals(SubjectOf(book), items, MAX_ITEMS, before, after, packets, nows);
    BookSize(book.bids, book.asks);
    forall i | 0 <= i < |packets| {
      CutHeadlines(SubjectOf(book), items, MAX_ITEMS, before, after, packets, nows, i);
    }
    EmittedCount(Plan(book), before, after, packets, nows);
  }

  lemma EmittedCount(plan: seq<Template>, before: u64, after: u64, packets: seq<UdpPacket>, nows: seq<u64>)
    requires Emits(plan, before, after, packets, nows)
    ensures |packets| == |nows| == |plan|
  {
  }

  /** The number of levels with a positive quantity. */
  function PositiveLevels(levels: seq<Level>): nat {
    if levels == [] then 0 else PositiveLevels(levels[1..]) + if levels[0].quantity > 0.0 then 1 else 0
  }

  lemma {:induction false} PositiveLevelsAreKept(levels: seq<Level>)
    ensures |Filter(HasQuantity, levels)| == PositiveLevels(levels)
  {
    if levels != [] {
      PositiveLevelsAreKept(levels[1..]);
    }
  }

  lemma BookSize(bids: seq<Level>, asks: seq<Level>)
    ensures |BookItems(bids, asks)| == PositiveLevels(bids) + PositiveLevels(asks)
  {
    OrdersAreTotal();
    SortThenFilter(BidOrder, HasQuantity, bids);
    SortThenFilter(AskOrder, HasQuantity, asks);
    hide Sort, Filter;
    SameLength(Sort(BidOrder, Filter(HasQuantity, bids)), Filter(HasQuantity, bids));
    SameLength(Sort(AskOrder, Filter(HasQuantity, asks)), Filter(HasQuantity, asks));
    PositiveLevelsAreKept(bids);
    PositiveLevelsAreKept(asks);
  }

  /** Every packet of a trade batch has type 1 and the batch's names and time, and a receiver counts its
      trades as tick items and nothing as book items. */
  lemma BatchOnTheWire(batch: ParsedData, before: u64, after: u64, packets: seq<UdpPacket>, nows: seq<u64>)
    requires batch.Batch? && Emits(Plan(batch), before, after, packets, nows)
    ensures HeadedList(packets, before, nows, 1, batch.symbol, batch.exchange, batch.timestamp)
    ensures var n := |batch.trades|;
            CountsOf(Map(DataOf, packets)) == Counts(|packets|, 67 * |packets| + 16 * n, 0, |packets|, 0, n)
  {
    hide Emits, Cut, HeadedAt, CountsOf, TradeItem, Sort;
    var items := TradeItems(batch.trades);
    ReceiverTotals(SubjectOf(batch), items, MAX_ITEMS, before, after, packets, nows);
    SameLength(Sort(TradeOrder, batch.trades), batch.trades);
    forall i | 0 <= i < |packets| {
      CutHeadlines(SubjectOf(batch), items, MAX_ITEMS, before, after, packets, nows, i);
    }
    EmittedCount(Plan(batch), before, after, packets, nows);
  }

  // ----- The rewrite -----

  function WithExchange(exchange: string): Template -> Template {
    (t: Template) => t.(subject := t.subject.(exchange := exchange))
  }

  lemma {:induction false} FlattenMap<T, U, V>(f: T -> seq<U>, g: T -> seq<V>, h: U -> V, s: seq<T>)
    requires forall x :: x in s ==> g(x) == Map(h, f(x))
    ensures Flatten(Map(g, s)) == Map(h, Flatten(Map(f, s)))
  {
    if s != [] {
      FlattenMap(f, g, h, s[1..]);
      MapFirst(f, s);
      MapFirst(g, s);
      assert s[0] in s;
      MapAppend(h, f(s[0]), Flatten(Map(f, s[1..])));
    }
  }

  lemma CutRenamed(subject: Subject, items: seq<Item>, size: nat, exchange: string)
    requires 0 < size <= MAX_ITEMS
    ensures Cut(subject.(exchange := exchange), items, size) == Map(WithExchange(exchange), Cut(subject, items, size))
  {
    hide ItemsBytes;
    var chunks := Chunks(items, size);
    forall i | 0 <= i < |chunks| ensures Cut(subject.(exchange := exchange), items, size)[i]
                                         == WithExchange(exchange)(Cut(subject, items, size)[i]) {
      assert chunks[i] in chunks;
    }
  }

  lemma RenamedLeafPlan(leaf: Leaf, exchange: string)
    ensures LeafPlan(Renamed(leaf, exchange)) == Map(WithExchange(exchange), LeafPlan(leaf))
  {
    hide Cut, BookItems, Scaled, LiquidationItem, ItemBytes, I64Bytes, Sort;
    var subject := SubjectOf(leaf);
    assert SubjectOf(Renamed(leaf, exchange)) == subject.(exchange := exchange);
    match leaf
    case Single(trade) =>
      SameTradeItem(trade, exchange);
      CutRenamed(subject, TradeItems([trade]), 50, exchange);
    case Batch(_, _, _, trades) => CutRenamed(subject, TradeItems(trades), MAX_ITEMS, exchange);
    case OrderBook(_, _, bids, asks, _) => CutRenamed(subject, BookItems(bids, asks), MAX_ITEMS, exchange);
    case _ =>
  }

  lemma SameTradeItem(trade: Trade, exchange: string)
    ensures TradeItems([trade.(exchange := exchange)]) == TradeItems([trade])
  {
    hide NewItem;
    var renamed := trade.(exchange := exchange);
    assert TradeItems([renamed]) == [TradeItem(renamed)] && TradeItems([trade]) == [TradeItem(trade)];
  }

  function RenamedPlan(exchange: string): Leaf -> seq<Template> {
    (leaf: Leaf) => LeafPlan(Renamed(leaf, exchange))
  }

  /** The rewrite on the wire: when no inner group holds a message, the packets of the rewritten tree are
      those of the original one, packet by packet, in everything but the exchange name. */
  lemma RewriteOnTheWire(data: ParsedData, exchange: string)
    requires data.Multi? ==> NothingNested(data.items)
    ensures Plan(WithSessionExchange(data, exchange)) == Map(WithExchange(exchange), Plan(data))
  {
    hide Leaves, LeafPlan, WithSessionExchange, NothingNested, Plan, Renamed;
    var leaves := Leaves(data);
    RewriteKeepsMessages(data, exchange);
    PlanFlattens(data);
    PlanFlattens(WithSessionExchange(data, exchange));
    assert Map(LeafPlan, Map(Renaming(exchange), leaves)) == Map(RenamedPlan(exchange), leaves);
    forall leaf | leaf in leaves ensures RenamedPlan(exchange)(leaf) == Map(WithExchange(exchange), LeafPlan(leaf)) {
      RenamedLeafPlan(leaf, exchange);
    }
    FlattenMap(LeafPlan, RenamedPlan(exchange), WithExchange(exchange), leaves);
  }
}
