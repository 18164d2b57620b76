/** Where the last-packet flag is set in the packets of one parsed WebSocket message, against the
    documented meaning: only on the final packet of that message. */
module MessageEnd {
  import opened Bits
  import opened Sequences
  import opened StableSort
  import opened Protocol
  import opened MarketData
  import opened PacketPlan
  import opened PacketBuilder

  /** A message that has something to send: not an empty batch, not a book without quantities. */
  predicate HasContent(leaf: Leaf) {
    match leaf
    case Batch(_, _, _, trades) => trades != []
    case OrderBook(_, _, bids, asks, _) =>
      (exists l :: l in bids && l.quantity > 0.0) || (exists l :: l in asks && l.quantity > 0.0)
    case _ => true
  }

  predicate IsMarked(t: Template) {
    t.isLast
  }

  /** The documented reading of the flag, for the packets of one WebSocket message. */
  ghost predicate MarksTheEnd(plan: seq<Template>) {
    forall k :: 0 <= k < |plan| ==> (plan[k].isLast <==> k == |plan| - 1)
  }

  lemma SortedIsEmpty<T(!new)>(cmp: (T, T) -> Ordering, s: seq<T>)
    ensures Sort(cmp, s) == [] <==> s == []
  {
    assert |multiset(Sort(cmp, s))| == |multiset(s)|;
  }

  lemma SideIsEmpty(cmp: (Level, Level) -> Ordering, levels: seq<Level>)
    ensures Filter(HasQuantity, Sort(cmp, levels)) == [] <==> forall l :: l in levels ==> !HasQuantity(l)
  {
    SortKeepsElements(cmp, levels);
    var kept := Filter(HasQuantity, Sort(cmp, levels));
    if kept != [] {
      assert kept[0] in kept;
    }
  }

  /** A message is sent at all exactly when it has content. */
  lemma SentWhenContent(leaf: Leaf)
    ensures LeafPlan(leaf) != [] <==> HasContent(leaf)
  {
    hide Cut, TradeItem, SideItem, Scaled, LiquidationItem;
    match leaf
    case Single(trade) => SortedIsEmpty(TradeOrder, [trade]);
    case Batch(_, _, _, trades) => SortedIsEmpty(TradeOrder, trades);
    case OrderBook(_, _, bids, asks, _) =>
      SideIsEmpty(BidOrder, bids);
      SideIsEmpty(AskOrder, asks);
    case _ =>
  }

  lemma CutMarksTheEnd(subject: Subject, items: seq<Item>, size: nat)
    requires 0 < size <= MAX_ITEMS
    ensures MarksTheEnd(Cut(subject, items, size))
  {
    hide Chunks;
  }

  lemma LeafMarksTheEnd(leaf: Leaf)
    ensures MarksTheEnd(LeafPlan(leaf))
  {
    hide Cut, MarksTheEnd;
    var subject := SubjectOf(leaf);
    match leaf
    case Single(trade) => CutMarksTheEnd(subject, TradeItems([trade]), 50);
    case Batch(_, _, _, trades) => CutMarksTheEnd(subject, TradeItems(trades), MAX_ITEMS);
    case OrderBook(_, _, bids, asks, _) => CutMarksTheEnd(subject, BookItems(bids, asks), MAX_ITEMS);
    case IndexPrice(_, _, value, _) => OneMarksTheEnd(subject, I64Bytes(Scaled(value)));
    case MarkPrice(_, _, value, _) => OneMarksTheEnd(subject, I64Bytes(Scaled(value)));
    case FundingRate(_, _, value, _) => OneMarksTheEnd(subject, I64Bytes(Scaled(value)));
    case Liquidation(_, _, price, quantity, isSell, _) =>
      OneMarksTheEnd(subject, ItemBytes(LiquidationItem(price, quantity, isSell)));
  }

  lemma OneMarksTheEnd(subject: Subject, payload: seq<u8>)
    ensures MarksTheEnd(OnePacket(subject, payload))
  {
  }

  /** For packets that end with a mark, marking the end alone is having at most one mark. */
  lemma OneMarkIsTheEnd(plan: seq<Template>)
    requires plan != [] ==> plan[|plan| - 1].isLast
    ensures MarksTheEnd(plan) <==> |Filter(IsMarked, plan)| <= 1
    ensures MarksTheEnd(plan) ==> |Filter(IsMarked, plan)| == if plan == [] then 0 else 1
  {
    if plan != [] {
      var init, last := plan[..|plan| - 1], plan[|plan| - 1];
      assert plan == init + [last];
      FilterAppend(IsMarked, init, [last]);
      if MarksTheEnd(plan) {
        forall t | t in init ensures !IsMarked(t) {
          var k :| 0 <= k < |init| && init[k] == t;
          assert plan[k] == t;
        }
        FilterNone(IsMarked, init);
      } else {
        var k :| 0 <= k < |plan| && !(plan[k].isLast <==> k == |plan| - 1);
        assert init[k] in init && IsMarked(init[k]);
        assert init[k] in Filter(IsMarked, init);
      }
    }
  }

  /** Joined plans: marks add up, and a joined plan ends with a mark when its parts do. */
  lemma {:induction false} MarksOfLeaves(leaves: seq<Leaf>)
    ensures var plan := Flatten(Map(LeafPlan, leaves));
            && |Filter(IsMarked, plan)| == |Filter(HasContent, leaves)|
            && (plan != [] ==> plan[|plan| - 1].isLast)
  {
    hide LeafPlan, HasContent, IsMarked;
    if leaves != [] {
      var first, rest := LeafPlan(leaves[0]), Flatten(Map(LeafPlan, leaves[1..]));
      MarksOfLeaves(leaves[1..]);
      MapFirst(LeafPlan, leaves);
      FlattenFirst(first, Map(LeafPlan, leaves[1..]));
      FilterAppend(IsMarked, first, rest);
      SentWhenContent(leaves[0]);
      LeafMarksTheEnd(leaves[0]);
      OneMarkIsTheEnd(first);
    }
  }

  /** The packets of a parsed message carry one mark per message in it that has content. */
  lemma OneMarkPerMessage(data: ParsedData)
    ensures |Filter(IsMarked, Plan(data))| == |Filter(HasContent, Leaves(data))|
    ensures Plan(data) != [] ==> Plan(data)[|Plan(data)| - 1].isLast
  {
    PlanFlattens(data);
    MarksOfLeaves(Leaves(data));
  }

  /** The flag means what is documented, for the packets of one WebSocket message, exactly when at
      most one of the messages parsed from it has content. */
  lemma FlagMeansEndOfMessage(data: ParsedData)
    ensures MarksTheEnd(Plan(data)) <==> |Filter(HasContent, Leaves(data))| <= 1
  {
    hide Plan, Leaves, HasContent, IsMarked, MarksTheEnd;
    OneMarkPerMessage(data);
    OneMarkIsTheEnd(Plan(data));
  }

  predicate FlagOn(p: UdpPacket) {
    |p.data| >= HEADER_SIZE && IsLastOf(HeaderOf(p.data).flags)
  }

  /** The same read from the datagrams that the builder returned. */
  lemma FlagOnTheWire(data: ParsedData, before: u64, after: u64, packets: seq<UdpPacket>, nows: seq<u64>)
    requires Emits(Plan(data), before, after, packets, nows)
    ensures (forall k :: 0 <= k < |packets| ==> (FlagOn(packets[k]) <==> k == |packets| - 1)) <==>
            |Filter(HasContent, Leaves(data))| <= 1
  {
    hide Plan, Leaves, HasContent, HeaderOf, Stamp, IsLastOf, FlagsAndCount, Draw;
    FlagMeansEndOfMessage(data);
    var plan := Plan(data);
    forall k | 0 <= k < |plan| ensures FlagOn(packets[k]) <==> plan[k].isLast {
      StampReadBack(plan[k], Draw(before, k), nows[k]);
      FlagsReadBack(plan[k].isLast, plan[k].count);
    }
  }

  /** For every mark-price update the documented reading fails: all three packets are marked. */
  lemma MarkPriceUpdateHasThreeEnds(symbol: string, exchange: string, mark: real, index: real, funding: real,
                                    time: u64, session: string)
    ensures var data := WithSessionExchange(MarkPriceUpdate(symbol, exchange, mark, index, funding, time), session);
            |Filter(IsMarked, Plan(data))| == 3 && !MarksTheEnd(Plan(data))
  {
    var tree := MarkPriceUpdate(symbol, exchange, mark, index, funding, time);
    var data := WithSessionExchange(tree, session);
    FlatGroupLosesNothing(tree.items, session);
    hide Plan, MarksTheEnd, Leaves, WithSessionExchange, Renamed;
    var leaves := Leaves(data);
    assert |leaves| == 3;
    forall leaf | leaf in leaves ensures HasContent(leaf) {
      var i :| 0 <= i < |leaves| && leaves[i] == leaf;
      RenamingKeepsKind(LeavesOf(tree.items)[i], session);
    }
    FilterAll(HasContent, leaves);
    OneMarkPerMessage(data);
    FlagMeansEndOfMessage(data);
  }

  lemma RenamingKeepsKind(leaf: Leaf, session: string)
    ensures var renamed := Renamed(leaf, session);
            leaf.IndexPrice? || leaf.MarkPrice? || leaf.FundingRate? ==>
            renamed.IndexPrice? || renamed.MarkPrice? || renamed.FundingRate?
  {
  }
}
