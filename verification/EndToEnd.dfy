/** From market data to decoded items: what a receiver gets from the packets of one message. */
module EndToEnd {
  import opened Bits
  import opened Sequences
  import opened StableSort
  import opened Text
  import opened Protocol
  import opened MarketData
  import opened PacketPlan
  import opened PacketBuilder
  import opened Decoder

  /** The items the decoder reads from a packet. */
  function ItemsOfPacket(p: UdpPacket): seq<Item> {
    ItemsFrom(p.data)
  }

  function DecodedItems(packets: seq<UdpPacket>): seq<Item> {
    Flatten(Map(ItemsOfPacket, packets))
  }

  /** The packet decodes without error, carries the subject in its header, and its payload is
      exactly its items. */
  ghost predicate Carries(p: UdpPacket, subject: Subject, isLast: bool, items: seq<Item>) {
    var r := Decode(p.data);
    && r.Decoded? && r.items == items
    && CountOf(r.header.flags) == |items| && IsLastOf(r.header.flags) == isLast
    && r.header.messageType == subject.messageType
    && (subject.timestamp.Some? ==> r.header.exchangeTimestamp == subject.timestamp.value)
    && DecodeName(r.header.symbol) == Clean(subject.symbol)
    && DecodeName(r.header.exchange) == Clean(subject.exchange)
    && p.size == |p.data| == HEADER_SIZE + ITEM_SIZE * |items|
  }

  lemma DecodeTemplate(subject: Subject, isLast: bool, items: seq<Item>, sequence: u64, now: u64)
    requires HoldsItems(subject.messageType) && |items| <= MAX_ITEMS
    ensures Carries(PacketOf(Template(subject, isLast, |items|, ItemsBytes(items)), sequence, now),
                    subject, isLast, items)
  {
    hide NameField, DecodeName, FlagsAndCount, Stamp, HeaderOf, Clean, ItemsIn, ItemsBytes, IsLastOf, CountOf;
    var t := Template(subject, isLast, |items|, ItemsBytes(items));
    StampReadBack(t, sequence, now);
    FlagsReadBack(isLast, |items|);
    NameReadBack(subject.symbol);
    NameReadBack(subject.exchange);
    ItemsReadBack(items, []);
    assert t.payload + [] == t.payload;
  }

  lemma CarriedItems(p: UdpPacket, subject: Subject, isLast: bool, items: seq<Item>)
    requires Carries(p, subject, isLast, items)
    ensures ItemsOfPacket(p) == items
  {
    hide Decode, DecodeName, Clean, CountOf, IsLastOf;
  }

  lemma DecodeCutAt(subject: Subject, items: seq<Item>, size: nat, before: u64, after: u64,
                    packets: seq<UdpPacket>, nows: seq<u64>, i: nat)
    requires HoldsItems(subject.messageType) && 0 < size <= MAX_ITEMS
    requires Emits(Cut(subject, items, size), before, after, packets, nows)
    requires i < |packets|
    ensures |packets| == |Chunks(items, size)|
    ensures Carries(packets[i], subject, i == |packets| - 1, Chunks(items, size)[i])
  {
    hide Carries, Draw, PacketOf, HoldsItems, ItemsBytes;
    var chunks := Chunks(items, size);
    assert chunks[i] in chunks;
    DecodeTemplate(subject, i == |chunks| - 1, chunks[i], Draw(before, i), nows[i]);
  }

  /** Cutting and decoding: for any list of items, however many, the packets of its plan number
      ceil(n/size), each decodes without error or trailing bytes, only the final one is marked
      last, and together they give back exactly the items in order. */
  lemma {:induction false} DecodeCut(subject: Subject, items: seq<Item>, size: nat, before: u64, after: u64,
                                     packets: seq<UdpPacket>, nows: seq<u64>)
    requires HoldsItems(subject.messageType) && 0 < size <= MAX_ITEMS
    requires Emits(Cut(subject, items, size), before, after, packets, nows)
    ensures |packets| == (|items| + size - 1) / size
    ensures DecodedItems(packets) == items
    ensures forall i :: 0 <= i < |packets| ==>
      Carries(packets[i], subject, i == |packets| - 1, ItemsOfPacket(packets[i]))
    ensures forall i :: 0 <= i < |packets| - 1 ==> |ItemsOfPacket(packets[i])| == size
  {
    var chunks := Chunks(items, size);
    ChunksCount(items, size);
    ChunksPartition(items, size);
    assert |packets| == |chunks|;
    hide Carries, Cut, Chunks, Emits, ItemsOfPacket, HoldsItems;
    forall i | 0 <= i < |packets|
      ensures Carries(packets[i], subject, i == |packets| - 1, chunks[i]) && ItemsOfPacket(packets[i]) == chunks[i]
    {
      DecodeCutAt(subject, items, size, before, after, packets, nows, i);
      CarriedItems(packets[i], subject, i == |packets| - 1, chunks[i]);
    }
    assert Map(ItemsOfPacket, packets) == chunks;
  }

  function DataOf(p: UdpPacket): seq<u8> { p.data }

  /** The item statistics of a receiver that got exactly the packets of some items add up to the
      number of items, for each of the two message types. */
  lemma {:induction false} StatisticsAddUp(subject: Subject, items: seq<Item>, size: nat, before: u64, after: u64,
                                           packets: seq<UdpPacket>, nows: seq<u64>, messageType: u8)
    requires HoldsItems(subject.messageType) && 0 < size <= MAX_ITEMS
    requires Emits(Cut(subject, items, size), before, after, packets, nows)
    ensures AnnouncedIn(Map(DataOf, packets), messageType)
         == if messageType == subject.messageType then |items| else 0
  {
    hide Carries, Cut, Emits, ItemsOfPacket, HoldsItems, DecodedItems, AnnouncedIn, DataOf;
    DecodeCut(subject, items, size, before, after, packets, nows);
    AnnouncedCarried(subject, packets, messageType, |packets|);
    assert packets[..|packets|] == packets;
  }

  lemma AnnouncedByOne(subject: Subject, p: UdpPacket, isLast: bool, messageType: u8)
    requires Carries(p, subject, isLast, ItemsOfPacket(p))
    ensures Announced(p.data, messageType) == if messageType == subject.messageType then |ItemsOfPacket(p)| else 0
  {
    hide HeaderOf, CountOf, IsLastOf, DecodeName, Clean, ItemsIn;
  }

  lemma DecodedNext(packets: seq<UdpPacket>, n: nat)
    requires n < |packets|
    ensures |DecodedItems(packets[..n + 1])| == |DecodedItems(packets[..n])| + |ItemsOfPacket(packets[n])|
    ensures AnnouncedNext(packets, n)
  {
    hide ItemsOfPacket, Announced;
    var first, all := packets[..n], packets[..n + 1];
    assert all == first + [packets[n]];
    MapAppend(ItemsOfPacket, first, [packets[n]]);
    assert Map(ItemsOfPacket, [packets[n]]) == [ItemsOfPacket(packets[n])];
    FlattenAppend(Map(ItemsOfPacket, first), [ItemsOfPacket(packets[n])]);
    FlattenOne(ItemsOfPacket(packets[n]));
    assert Map(DataOf, all)[..n] == Map(DataOf, first);
  }

  ghost predicate AnnouncedNext(packets: seq<UdpPacket>, n: nat)
    requires n < |packets|
  {
    forall messageType: u8 ::
      AnnouncedIn(Map(DataOf, packets[..n + 1]), messageType)
      == AnnouncedIn(Map(DataOf, packets[..n]), messageType) + Announced(packets[n].data, messageType)
  }

  lemma {:induction false} AnnouncedCarried(subject: Subject, packets: seq<UdpPacket>, messageType: u8, n: nat)
    requires n <= |packets|
    requires forall i :: 0 <= i < |packets| ==>
      Carries(packets[i], subject, i == |packets| - 1, ItemsOfPacket(packets[i]))
    ensures AnnouncedIn(Map(DataOf, packets[..n]), messageType)
         == if messageType == subject.messageType then |DecodedItems(packets[..n])| else 0
  {
    hide Carries, ItemsOfPacket, Announced;
    if n > 0 {
      AnnouncedCarried(subject, packets, messageType, n - 1);
      hide DecodedItems, AnnouncedIn;
      DecodedNext(packets, n - 1);
      AnnouncedByOne(subject, packets[n - 1], n == |packets|, messageType);
    }
  }

  /** All six totals of a receiver that got exactly the packets of some items. */
  lemma ReceiverTotals(subject: Subject, items: seq<Item>, size: nat, before: u64, after: u64,
                       packets: seq<UdpPacket>, nows: seq<u64>)
    requires HoldsItems(subject.messageType) && 0 < size <= MAX_ITEMS
    requires Emits(Cut(subject, items, size), before, after, packets, nows)
    ensures CountsOf(Map(DataOf, packets)) == TotalsFor(subject.messageType, |packets|, |items|)
  {
    hide Carries, Cut, Emits, ItemsOfPacket, HoldsItems, DecodedItems, CountsOf, DataOf;
    DecodeCut(subject, items, size, before, after, packets, nows);
    TotalsCarried(subject, packets, |packets|);
    assert packets[..|packets|] == packets;
    assert Map(DataOf, packets)[..|packets|] == Map(DataOf, packets);
  }

  function TotalsFor(messageType: u8, packets: nat, items: nat): Counts {
    var bytes := 67 * packets + 16 * items;
    if messageType == ORDER_BOOK then Counts(packets, bytes, packets, 0, items, 0)
    else Counts(packets, bytes, 0, packets, 0, items)
  }

  lemma TypeOfOne(subject: Subject, p: UdpPacket, isLast: bool, messageType: u8)
    requires Carries(p, subject, isLast, ItemsOfPacket(p))
    ensures IsOfType(p.data, messageType) <==> messageType == subject.messageType
    ensures |p.data| == 67 + 16 * |ItemsOfPacket(p)|
  {
    hide HeaderOf, CountOf, IsLastOf, DecodeName, Clean, ItemsIn;
  }

  lemma {:induction false} TotalsCarried(subject: Subject, packets: seq<UdpPacket>, n: nat)
    requires n <= |packets| && HoldsItems(subject.messageType)
    requires forall i :: 0 <= i < |packets| ==>
      Carries(packets[i], subject, i == |packets| - 1, ItemsOfPacket(packets[i]))
    ensures CountsOf(Map(DataOf, packets)[..n])
         == TotalsFor(subject.messageType, n, |DecodedItems(packets[..n])|)
  {
    hide Carries, ItemsOfPacket, Announced, IsOfType;
    if n == 0 {
      assert Map(DataOf, packets)[..0] == [];
      assert packets[..0] == [];
    } else {
      TotalsCarried(subject, packets, n - 1);
      hide DecodedItems, CountsOf, AnnouncedNext;
      CountsNext(Map(DataOf, packets), n - 1);
      DecodedNext(packets, n - 1);
      var p, isLast := packets[n - 1], n == |packets|;
      TypeOfOne(subject, p, isLast, ORDER_BOOK);
      TypeOfOne(subject, p, isLast, TRADE_TICK);
      AnnouncedByOne(subject, p, isLast, ORDER_BOOK);
      AnnouncedByOne(subject, p, isLast, TRADE_TICK);
    }
  }

  // ----- Order books -----

  ghost predicate FallingPrices(items: seq<Item>) {
    forall i, j :: 0 <= i < j < |items| ==> items[i].price >= items[j].price
  }

  ghost predicate RisingPrices(items: seq<Item>) {
    forall i, j :: 0 <= i < j < |items| ==> items[i].price <= items[j].price
  }

  predicate IsAskItem(item: Item) {
    item.Flag()
  }

  predicate IsBidItem(item: Item) {
    !item.Flag()
  }

  /** What an item says: the scaled price, the flag, and the scaled quantity unless that is negative. */
  predicate Shows(item: Item, price: real, quantity: real, flag: bool) {
    && item.price == Scaled(price) && item.Flag() == flag
    && (quantity >= 0.0 ==> item.Quantity() == Scaled(quantity))
  }

  ghost predicate ShowsLevels(items: seq<Item>, levels: seq<Level>, isAsk: bool) {
    && |items| == |levels|
    && forall i :: 0 <= i < |items| ==> Shows(items[i], levels[i].price, levels[i].quantity, isAsk)
  }

  ghost predicate ShowsTrades(items: seq<Item>, trades: seq<Trade>) {
    && |items| == |trades|
    && forall i :: 0 <= i < |items| ==>
         Shows(items[i], trades[i].price, trades[i].quantity, trades[i].isBuyerTaker)
  }

  lemma NewItemReadBack(price: real, quantity: real, flag: bool)
    ensures Shows(NewItem(price, quantity, flag), price, quantity, flag)
  {
    hide PackQuantity, FlagOf, QuantityOf, Scaled;
    PackReadBack(Scaled(quantity), flag);
    if quantity >= 0.0 {
      ScaledMonotone(0.0, quantity);
    }
  }

  /** The flags of the two sides separate them again. */
  lemma SidesSeparate(bids: seq<Level>, asks: seq<Level>)
    ensures Filter(IsBidItem, BookItems(bids, asks)) == BidItems(bids)
    ensures Filter(IsAskItem, BookItems(bids, asks)) == AskItems(asks)
  {
    SideFlags(Filter(HasQuantity, Sort(BidOrder, bids)), false);
    SideFlags(Filter(HasQuantity, Sort(AskOrder, asks)), true);
    FilterAppend(IsBidItem, BidItems(bids), AskItems(asks));
    FilterAppend(IsAskItem, BidItems(bids), AskItems(asks));
    FilterAll(IsBidItem, BidItems(bids));
    FilterNone(IsBidItem, AskItems(asks));
    FilterAll(IsAskItem, AskItems(asks));
    FilterNone(IsAskItem, BidItems(bids));
  }

  lemma SideShows(levels: seq<Level>, isAsk: bool)
    ensures ShowsLevels(Map(SideItem(isAsk), levels), levels, isAsk)
  {
    hide NewItem, Shows;
    forall i | 0 <= i < |levels| {
      NewItemReadBack(levels[i].price, levels[i].quantity, isAsk);
    }
  }

  lemma SideFlags(levels: seq<Level>, isAsk: bool)
    ensures forall item :: item in Map(SideItem(isAsk), levels) ==> item.Flag() == isAsk
  {
    SideShows(levels, isAsk);
  }

  /** Exactly the levels with a positive quantity, as often as they occur. */
  ghost predicate PositiveOnly(levels: seq<Level>, kept: seq<Level>) {
    forall l :: multiset(kept)[l] == if l.quantity > 0.0 then multiset(levels)[l] else 0
  }

  lemma KeptIsPositive(cmp: (Level, Level) -> Ordering, levels: seq<Level>)
    ensures PositiveOnly(levels, Filter(HasQuantity, Sort(cmp, levels)))
  {
    forall l ensures multiset(Filter(HasQuantity, Sort(cmp, levels)))[l]
                     == if l.quantity > 0.0 then multiset(levels)[l] else 0 {
      MultisetFilter(HasQuantity, Sort(cmp, levels), l);
    }
  }

  /** Decoding every packet of any order-book update gives its positive bids in a stable order of
      falling prices, then its positive asks in a stable order of rising prices: none lost, none
      invented, each with its own price, quantity and side. The order survives the scaling, the flags
      split the two sides apart again, and every packet carries the update's names and time. */
  lemma OrderBookDecodes(book: ParsedData, before: u64, after: u64, packets: seq<UdpPacket>, nows: seq<u64>)
    returns (bids: seq<Level>, asks: seq<Level>)
    requires book.OrderBook? && Emits(Plan(book), before, after, packets, nows)
    ensures IsStableSortOf(BidOrder, Filter(HasQuantity, book.bids), bids) && PositiveOnly(book.bids, bids)
    ensures IsStableSortOf(AskOrder, Filter(HasQuantity, book.asks), asks) && PositiveOnly(book.asks, asks)
    ensures DecodedItems(packets) == Map(SideItem(false), bids) + Map(SideItem(true), asks)
    ensures Filter(IsBidItem, DecodedItems(packets)) == Map(SideItem(false), bids)
    ensures Filter(IsAskItem, DecodedItems(packets)) == Map(SideItem(true), asks)
    ensures ShowsLevels(Filter(IsBidItem, DecodedItems(packets)), bids, false)
    ensures ShowsLevels(Filter(IsAskItem, DecodedItems(packets)), asks, true)
    ensures FallingPrices(Filter(IsBidItem, DecodedItems(packets)))
    ensures RisingPrices(Filter(IsAskItem, DecodedItems(packets)))
    ensures |packets| == (|bids| + |asks| + 79) / 80
    ensures forall i :: 0 <= i < |packets| ==>
      Carries(packets[i], Subject(book.symbol, book.exchange, ORDER_BOOK, Some(book.timestamp)), i == |packets| - 1,
              ItemsOfPacket(packets[i]))
  {
    hide NewItem, Scaled, DecodedItems, ItemsOfPacket, Carries, Emits, Cut, Sort, Filter, ShowsLevels, PositiveOnly,
         FallingPrices, RisingPrices;
    bids := Filter(HasQuantity, Sort(BidOrder, book.bids));
    asks := Filter(HasQuantity, Sort(AskOrder, book.asks));
    OrdersAreTotal();
    SortThenFilter(BidOrder, HasQuantity, book.bids);
    SortThenFilter(AskOrder, HasQuantity, book.asks);
    SortIsStable(BidOrder, Filter(HasQuantity, book.bids));
    SortIsStable(AskOrder, Filter(HasQuantity, book.asks));
    DecodeCut(SubjectOf(book), BookItems(book.bids, book.asks), MAX_ITEMS, before, after, packets, nows);
    SidesSeparate(book.bids, book.asks);
    SidePrices(bids, asks);
    SideShows(bids, false);
    SideShows(asks, true);
    KeptIsPositive(BidOrder, book.bids);
    KeptIsPositive(AskOrder, book.asks);
  }

  lemma SidePrices(bids: seq<Level>, asks: seq<Level>)
    requires Sorted(BidOrder, bids) && Sorted(AskOrder, asks)
    ensures FallingPrices(Map(SideItem(false), bids))
    ensures RisingPrices(Map(SideItem(true), asks))
  {
    hide Scaled, PackQuantity;
    forall i, j | 0 <= i < j < |bids| ensures Scaled(bids[i].price) >= Scaled(bids[j].price) {
      assert BidOrder(bids[i], bids[j]) != Greater;
      ScaledMonotone(bids[j].price, bids[i].price);
    }
    forall i, j | 0 <= i < j < |asks| ensures Scaled(asks[i].price) <= Scaled(asks[j].price) {
      assert AskOrder(asks[i], asks[j]) != Greater;
      ScaledMonotone(asks[i].price, asks[j].price);
    }
  }

  // ----- Trades -----

  /** Buyer-taker trades come first, by rising price; the others follow, by falling price. */
  ghost predicate BuyersFirst(items: seq<Item>) {
    forall i, j :: 0 <= i < j < |items| ==>
      && (items[j].Flag() ==> items[i].Flag() && items[i].price <= items[j].price)
      && (!items[i].Flag() ==> items[i].price >= items[j].price)
  }

  lemma TradesShow(trades: seq<Trade>)
    ensures ShowsTrades(Map(TradeItem, trades), trades)
  {
    hide NewItem, Shows;
    forall i | 0 <= i < |trades| {
      NewItemReadBack(trades[i].price, trades[i].quantity, trades[i].isBuyerTaker);
    }
  }

  lemma SortedTradesOnWire(sorted: seq<Trade>)
    requires Sorted(TradeOrder, sorted)
    ensures BuyersFirst(Map(TradeItem, sorted))
  {
    hide TradeItem, Scaled, FlagOf;
    var items := Map(TradeItem, sorted);
    TradesShow(sorted);
    forall i, j | 0 <= i < j < |items|
      ensures items[j].Flag() ==> items[i].Flag() && items[i].price <= items[j].price
      ensures !items[i].Flag() ==> items[i].price >= items[j].price
    {
      assert Shows(items[i], sorted[i].price, sorted[i].quantity, sorted[i].isBuyerTaker);
      assert Shows(items[j], sorted[j].price, sorted[j].quantity, sorted[j].isBuyerTaker);
      assert TradeOrder(sorted[i], sorted[j]) != Greater;
      if sorted[j].isBuyerTaker {
        ScaledMonotone(sorted[i].price, sorted[j].price);
      } else if !sorted[i].isBuyerTaker {
        ScaledMonotone(sorted[j].price, sorted[i].price);
      }
    }
  }

  /** Decoding every packet of any trade batch gives its trades in a stable order: none lost, none
      invented, each with its own price, quantity and side, buyer-takers first by rising price, then the
      others by falling price. Every packet carries the batch's names and time. */
  lemma TradeBatchDecodes(batch: ParsedData, before: u64, after: u64, packets: seq<UdpPacket>, nows: seq<u64>)
    returns (sorted: seq<Trade>)
    requires batch.Batch? && Emits(Plan(batch), before, after, packets, nows)
    ensures IsStableSortOf(TradeOrder, batch.trades, sorted) && multiset(sorted) == multiset(batch.trades)
    ensures DecodedItems(packets) == Map(TradeItem, sorted)
    ensures ShowsTrades(DecodedItems(packets), sorted)
    ensures BuyersFirst(DecodedItems(packets))
    ensures |packets| == (|batch.trades| + 79) / 80
    ensures forall i :: 0 <= i < |packets| ==>
      Carries(packets[i], Subject(batch.symbol, batch.exchange, TRADE_TICK, Some(batch.timestamp)),
              i == |packets| - 1, ItemsOfPacket(packets[i]))
  {
    hide TradeItem, DecodedItems, ItemsOfPacket, Emits, Cut, BuyersFirst, Carries, ShowsTrades;
    sorted := Sort(TradeOrder, batch.trades);
    OrdersAreTotal();
    SortIsStable(TradeOrder, batch.trades);
    SameLength(sorted, batch.trades);
    DecodeCut(SubjectOf(batch), TradeItems(batch.trades), MAX_ITEMS, before, after, packets, nows);
    SortedTradesOnWire(sorted);
    TradesShow(sorted);
  }

  lemma SameLength<T>(a: seq<T>, b: seq<T>)
    requires multiset(a) == multiset(b)
    ensures |a| == |b|
  {
    assert |multiset(a)| == |multiset(b)|;
  }

  // ----- Names on the wire -----

  lemma {:induction false} FlattenMember<T>(parts: seq<seq<T>>, x: T)
    requires x in Flatten(parts)
    ensures exists k :: 0 <= k < |parts| && x in parts[k]
  {
    if x in parts[0] {
    } else {
      FlattenMember(parts[1..], x);
      var k :| 0 <= k < |parts[1..]| && x in parts[1..][k];
      assert x in parts[k + 1];
    }
  }

  lemma LeafSubject(leaf: Leaf, t: Template)
    requires t in LeafPlan(leaf)
    ensures t.subject == SubjectOf(leaf)
  {
    hide TradeItems, BookItems, LiquidationItem, Scaled;
  }

  /** Every packet of a tree of messages belongs to one of its messages. */
  lemma PlannedForLeaf(data: ParsedData, t: Template)
    requires t in Plan(data)
    ensures exists leaf :: leaf in Leaves(data) && t.subject == SubjectOf(leaf)
  {
    hide LeafPlan, SubjectOf;
    PlanFlattens(data);
    var plans := Map(LeafPlan, Leaves(data));
    FlattenMember(plans, t);
    var k :| 0 <= k < |plans| && t in plans[k];
    LeafSubject(Leaves(data)[k], t);
    assert Leaves(data)[k] in Leaves(data);
  }

  lemma RewrittenSymbols(data: ParsedData, exchange: string)
    ensures forall leaf :: leaf in Leaves(WithSessionExchange(data, exchange)) ==>
              exists original :: original in Leaves(data) && leaf == Renamed(original, exchange)
  {
    if data.Multi? {
      RewrittenItemSymbols(data.items, exchange);
    }
  }

  lemma {:induction false} RewrittenItemSymbols(items: seq<ParsedData>, exchange: string)
    ensures forall leaf :: leaf in LeavesOf(RenamedItems(items, exchange)) ==>
              exists original :: original in LeavesOf(items) && leaf == Renamed(original, exchange)
  {
    if items != [] {
      hide Renamed;
      var renamed := RenamedItems(items, exchange);
      RewrittenItemSymbols(items[1..], exchange);
      assert renamed[1..] == RenamedItems(items[1..], exchange);
      assert LeavesOf(renamed) == Leaves(renamed[0]) + LeavesOf(renamed[1..]);
      assert LeavesOf(items) == Leaves(items[0]) + LeavesOf(items[1..]);
      forall leaf | leaf in LeavesOf(renamed)
        ensures exists original :: original in LeavesOf(items) && leaf == Renamed(original, exchange)
      {
        if leaf in Leaves(renamed[0]) {
          assert !items[0].Multi?;
          assert items[0] in Leaves(items[0]);
          assert leaf == Renamed(items[0], exchange);
        } else {
          assert leaf in LeavesOf(RenamedItems(items[1..], exchange));
          var original :| original in LeavesOf(items[1..]) && leaf == Renamed(original, exchange);
          assert original in LeavesOf(items);
        }
      }
    }
  }

  lemma PlannedForOriginal(data: ParsedData, exchange: string, t: Template)
    requires t in Plan(WithSessionExchange(data, exchange))
    ensures exists original :: original in Leaves(data) && t.subject == SubjectOf(Renamed(original, exchange))
  {
    hide Plan, Leaves, WithSessionExchange, SubjectOf, Renamed;
    var tree := WithSessionExchange(data, exchange);
    PlannedForLeaf(tree, t);
    RewrittenSymbols(data, exchange);
    var leaf :| leaf in Leaves(tree) && t.subject == SubjectOf(leaf);
    var original :| original in Leaves(data) && leaf == Renamed(original, exchange);
    assert t.subject == SubjectOf(Renamed(original, exchange));
  }

  /** The documented message types. */
  function DocumentedType(leaf: Leaf): nat {
    if leaf.OrderBook? then 0
    else if leaf.Single? || leaf.Batch? then 1
    else if leaf.IndexPrice? then 2
    else if leaf.MarkPrice? then 3
    else if leaf.FundingRate? then 4
    else 5
  }

  lemma RenamedSubject(leaf: Leaf, exchange: string)
    ensures var subject := SubjectOf(Renamed(leaf, exchange));
            && subject.messageType == DocumentedType(leaf)
            && subject.symbol == (if leaf.Single? then leaf.trade.symbol else leaf.symbol)
            && subject.timestamp == Some(if leaf.Single? then leaf.trade.timestamp else leaf.timestamp)
            && subject.exchange == exchange
  {
  }

  /** The parser's rewrite seen by a receiver: every packet of every message tree carries the
      display name of the session, and the symbol, the documented type and the time of one of the
      messages that were parsed; names read back as their first 19 allowed characters. */
  lemma NamesOnTheWire(data: ParsedData, exchange: string, before: u64, after: u64, packets: seq<UdpPacket>,
                       nows: seq<u64>, i: nat)
    requires Emits(Plan(WithSessionExchange(data, exchange)), before, after, packets, nows)
    requires i < |packets|
    ensures |packets[i].data| >= HEADER_SIZE
    ensures var header := HeaderOf(packets[i].data);
            && DecodeName(header.exchange) == Clean(exchange)
            && exists leaf :: leaf in Leaves(data) && ComesFrom(header, leaf)
  {
    var tree := WithSessionExchange(data, exchange);
    hide Plan, Leaves, WithSessionExchange, Stamp, HeaderOf, NameField, DecodeName, Clean, FlagsAndCount, SubjectOf,
         Renamed, DocumentedType;
    var t := Plan(tree)[i];
    StampReadBack(t, Draw(before, i), nows[i]);
    PlannedForOriginal(data, exchange, t);
    var original :| original in Leaves(data) && t.subject == SubjectOf(Renamed(original, exchange));
    RenamedSubject(original, exchange);
    NameReadBack(t.subject.symbol);
    NameReadBack(t.subject.exchange);
    assert ComesFrom(HeaderOf(packets[i].data), original);
  }

  /** The header carries the symbol, the documented type and the time of the message. */
  predicate ComesFrom(header: Header, leaf: Leaf) {
    && DecodeName(header.symbol) == Clean(if leaf.Single? then leaf.trade.symbol else leaf.symbol)
    && header.messageType == DocumentedType(leaf)
    && header.exchangeTimestamp == (if leaf.Single? then leaf.trade.timestamp else leaf.timestamp)
  }
}
