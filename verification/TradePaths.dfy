/** The two trade paths: what the grouped path emits, and how the flat path refines it. */
module TradePaths {
  import opened Bits
  import opened Sequences
  import opened StableSort
  import opened Text
  import opened Protocol
  import opened MarketData
  import opened PacketPlan
  import opened PacketBuilder
  import opened EndToEnd

  lemma EmitsSplit(a: seq<Template>, b: seq<Template>, before: u64, after: u64,
                   packets: seq<UdpPacket>, nows: seq<u64>)
    requires Emits(a + b, before, after, packets, nows)
    ensures |a| <= |packets| && |a| <= |nows|
    ensures var k, middle := |a|, Draw(before, |a|);
            && Emits(a, before, middle, packets[..k], nows[..k])
            && Emits(b, middle, after, packets[k..], nows[k..])
  {
    hide PacketOf, Draw;
    assert nows == nows[..|a|] + nows[|a|..];
    StampAllAppend(a, b, before, nows[..|a|], nows[|a|..]);
  }

  function Without<T>(s: seq<T>, i: nat): seq<T>
    requires i < |s|
  {
    s[..i] + s[i + 1..]
  }

  lemma MultisetWithout<T>(s: seq<T>, i: nat)
    requires i < |s|
    ensures multiset(s) == multiset{s[i]} + multiset(Without(s, i))
  {
    assert s == s[..i] + [s[i]] + s[i + 1..];
  }

  lemma MapWithout<T, U>(f: T -> U, s: seq<T>, i: nat)
    requires i < |s|
    ensures multiset(Map(f, s)) == multiset{f(s[i])} + multiset(Map(f, Without(s, i)))
  {
    MultisetWithout(Map(f, s), i);
    assert Without(Map(f, s), i) == Map(f, Without(s, i));
  }

  lemma MapPermutation<T, U>(f: T -> U, a: seq<T>, b: seq<T>)
    requires multiset(a) == multiset(b)
    ensures multiset(Map(f, a)) == multiset(Map(f, b))
  {
    if a == [] {
      assert |multiset(b)| == 0;
    } else {
      assert a[0] in multiset(b);
      var i :| 0 <= i < |b| && b[i] == a[0];
      MultisetWithout(a, 0);
      MultisetWithout(b, i);
      assert multiset(Without(a, 0)) == multiset(a) - multiset{a[0]};
      assert multiset(Without(b, i)) == multiset(b) - multiset{a[0]};
      MapPermutation(f, Without(a, 0), Without(b, i));
      MapWithout(f, a, 0);
      MapWithout(f, b, i);
    }
  }

  /** The trades of the listed groups, group after group. */
  function Picked(trades: seq<Trade>, order: seq<GroupKey>): seq<Trade> {
    if order == [] then [] else Filter(InGroup(order[0]), trades) + Picked(trades, order[1..])
  }

  lemma PickedCount(trades: seq<Trade>, order: seq<GroupKey>, t: Trade)
    requires Distinct(order)
    ensures multiset(Picked(trades, order))[t] == if KeyOf(t) in order then multiset(trades)[t] else 0
  {
    if order != [] {
      MultisetFilter(InGroup(order[0]), trades, t);
      PickedCount(trades, order[1..], t);
      assert order == [order[0]] + order[1..];
    }
  }

  lemma PickedAll(trades: seq<Trade>, order: seq<GroupKey>)
    requires VisitsGroups(order, trades)
    ensures multiset(Picked(trades, order)) == multiset(trades)
  {
    forall t ensures multiset(Picked(trades, order))[t] == multiset(trades)[t] {
      PickedCount(trades, order, t);
      if t in trades {
        assert KeyOf(t) in Keys(trades);
      } else {
        assert t !in multiset(trades);
      }
    }
  }

  /** The packets of one group: they decode to a stable sort of exactly the trades with its time, symbol
      and exchange, each with its own price, quantity and side, in as few packets of 50 as they need, and
      carry the group's names and time. */
  ghost predicate GroupRun(run: seq<UdpPacket>, key: GroupKey, trades: seq<Trade>) {
    var sorted := Filter(InGroup(key), Sort(TradeOrder, trades));
    && (forall t :: t in sorted <==> && t in trades && t.timestamp == key.timestamp && t.symbol == key.symbol
                                     && t.exchange == key.exchange)
    && ShowsTrades(DecodedItems(run), sorted)
    && DecodedItems(run) == TradeItems(Filter(InGroup(key), trades))
    && |run| == (|sorted| + 49) / 50
    && forall i :: 0 <= i < |run| ==>
         Carries(run[i], Subject(key.symbol, key.exchange, TRADE_TICK, Some(key.timestamp)), i == |run| - 1,
                 ItemsOfPacket(run[i]))
  }

  lemma OneRun(trades: seq<Trade>, key: GroupKey, before: u64, after: u64,
               packets: seq<UdpPacket>, nows: seq<u64>)
    requires Emits(GroupPlan(trades, key), before, after, packets, nows)
    ensures GroupRun(packets, key, trades)
    ensures multiset(DecodedItems(packets)) == multiset(Map(TradeItem, Filter(InGroup(key), trades)))
  {
    hide TradeItem, Emits, DecodedItems, Cut, Carries, ItemsOfPacket, ShowsTrades;
    var group := Filter(InGroup(key), trades);
    DecodeCut(GroupSubject(key), TradeItems(group), 50, before, after, packets, nows);
    MapPermutation(TradeItem, Sort(TradeOrder, group), group);
    GroupOfSorted(trades, key);
    SortKeepsElements(TradeOrder, trades);
    TradesShow(Sort(TradeOrder, group));
  }

  lemma {:induction false} RunsOf(trades: seq<Trade>, order: seq<GroupKey>, before: u64, after: u64,
                                  packets: seq<UdpPacket>, nows: seq<u64>)
    returns (runs: seq<seq<UdpPacket>>)
    requires Emits(GroupsPlan(trades, order), before, after, packets, nows)
    ensures |runs| == |order| && Flatten(runs) == packets
    ensures forall j :: 0 <= j < |order| ==> GroupRun(runs[j], order[j], trades)
    ensures multiset(DecodedItems(packets)) == multiset(Map(TradeItem, Picked(trades, order)))
  {
    hide TradeItem, Emits, GroupPlan, DecodedItems, GroupRun, Draw;
    if order == [] {
      runs := [];
      NothingDecodes(before, after, packets, nows);
    } else {
      var k, tail := |GroupPlan(trades, order[0])|, order[1..];
      EmitsSplit(GroupPlan(trades, order[0]), GroupsPlan(trades, tail), before, after, packets, nows);
      var first, others := packets[..k], packets[k..];
      var rest := RunsOf(trades, tail, Draw(before, k), after, others, nows[k..]);
      OneRun(trades, order[0], before, Draw(before, k), first, nows[..k]);
      runs := [first] + rest;
      forall j | 0 <= j < |order| ensures GroupRun(runs[j], order[j], trades) {
        if j > 0 {
          assert runs[j] == rest[j - 1] && order[j] == tail[j - 1];
        }
      }
      assert runs[1..] == rest;
      assert packets == first + others;
      DecodedAppend(first, others);
      MapAppend(TradeItem, Filter(InGroup(order[0]), trades), Picked(trades, tail));
    }
  }

  lemma NothingDecodes(before: u64, after: u64, packets: seq<UdpPacket>, nows: seq<u64>)
    requires Emits([], before, after, packets, nows)
    ensures packets == [] && DecodedItems(packets) == []
  {
  }

  lemma DecodedAppend(a: seq<UdpPacket>, b: seq<UdpPacket>)
    ensures DecodedItems(a + b) == DecodedItems(a) + DecodedItems(b)
  {
    MapAppend(ItemsOfPacket, a, b);
    FlattenAppend(Map(ItemsOfPacket, a), Map(ItemsOfPacket, b));
  }

  /** For every trade list and every order in which the hash maps are visited: the packets fall
      into one run per group, each run decodes to the stable sort of exactly that group's trades
      taken in input order, and every trade is emitted exactly once. */
  lemma GroupedTradesDecode(trades: seq<Trade>, order: seq<GroupKey>, before: u64, after: u64,
                            packets: seq<UdpPacket>, nows: seq<u64>)
    returns (runs: seq<seq<UdpPacket>>)
    requires VisitsGroups(order, trades)
    requires Emits(GroupsPlan(trades, order), before, after, packets, nows)
    ensures |runs| == |order| && Flatten(runs) == packets
    ensures forall j :: 0 <= j < |order| ==> GroupRun(runs[j], order[j], trades)
    ensures forall k: GroupKey ::
      IsStableSortOf(TradeOrder, Filter(InGroup(k), trades), Filter(InGroup(k), Sort(TradeOrder, trades)))
    ensures multiset(DecodedItems(packets)) == multiset(Map(TradeItem, trades))
  {
    hide TradeItem, Emits, DecodedItems;
    runs := RunsOf(trades, order, before, after, packets, nows);
    PickedAll(trades, order);
    MapPermutation(TradeItem, Picked(trades, order), trades);
    OrdersAreTotal();
    forall k: GroupKey ensures
      IsStableSortOf(TradeOrder, Filter(InGroup(k), trades), Filter(InGroup(k), Sort(TradeOrder, trades)))
    {
      GroupOfSorted(trades, k);
      SortIsStable(TradeOrder, Filter(InGroup(k), trades));
    }
  }

  // ----- The flat path refines the grouped path -----

  function PayloadOf(p: UdpPacket): seq<u8> {
    if |p.data| < HEADER_SIZE then [] else p.data[HEADER_SIZE..]
  }

  function PayloadBytes(packets: seq<UdpPacket>): seq<u8> {
    Flatten(Map(PayloadOf, packets))
  }

  lemma ItemsBytesFlatten(chunks: seq<seq<Item>>)
    ensures Flatten(Map(ItemsBytes, chunks)) == ItemsBytes(Flatten(chunks))
  {
    if chunks != [] {
      ItemsBytesFlatten(chunks[1..]);
      assert Map(ItemsBytes, chunks)[1..] == Map(ItemsBytes, chunks[1..]);
      ItemsBytesAppend(chunks[0], Flatten(chunks[1..]));
    }
  }

  /** However the items are cut, the payloads together are the bytes of all items. */
  lemma PayloadsOfCut(subject: Subject, items: seq<Item>, size: nat, before: u64, after: u64,
                      packets: seq<UdpPacket>, nows: seq<u64>)
    requires 0 < size <= MAX_ITEMS && Emits(Cut(subject, items, size), before, after, packets, nows)
    ensures PayloadBytes(packets) == ItemsBytes(items)
  {
    hide ItemsBytes, Stamp, Draw;
    var chunks := Chunks(items, size);
    forall i | 0 <= i < |packets| ensures PayloadOf(packets[i]) == ItemsBytes(chunks[i]) {
      assert chunks[i] in chunks;
      StampReadBack(Cut(subject, items, size)[i], Draw(before, i), nows[i]);
    }
    assert Map(PayloadOf, packets) == Map(ItemsBytes, chunks);
    ItemsBytesFlatten(chunks);
    ChunksPartition(items, size);
  }

  /** Two packets that differ at most in the clock reading of their headers. */
  ghost predicate SameButClock(p: UdpPacket, q: UdpPacket) {
    && p.size == q.size && |p.data| >= HEADER_SIZE && |q.data| >= HEADER_SIZE
    && HeaderOf(p.data).(localTimestamp := 0) == HeaderOf(q.data).(localTimestamp := 0)
    && PayloadOf(p) == PayloadOf(q)
  }

  lemma OneGroup(batch: ParsedData, order: seq<GroupKey>)
    requires batch.Batch? && VisitsGroups(order, batch.trades)
    requires forall t :: t in batch.trades ==> KeyOf(t) == GroupKey(batch.timestamp, batch.symbol, batch.exchange)
    ensures GroupsPlan(batch.trades, order) == Cut(SubjectOf(batch), TradeItems(batch.trades), 50)
  {
    hide Cut, TradeItems;
    var key := GroupKey(batch.timestamp, batch.symbol, batch.exchange);
    FilterAll(InGroup(key), batch.trades);
    assert forall i :: 0 <= i < |order| ==> order[i] in order;
    if batch.trades == [] {
      assert |order| == 0;
      NoTradesNoPackets(SubjectOf(batch));
    } else {
      assert KeyOf(batch.trades[0]) in Keys(batch.trades);
      forall i | 0 <= i < |order| ensures order[i] == key {
        assert order[i] in order;
      }
      assert order[0] == order[|order| - 1];
      assert order == [key];
      assert GroupsPlan(batch.trades, [key]) == GroupPlan(batch.trades, key) + GroupsPlan(batch.trades, []);
    }
  }

  lemma NoTradesNoPackets(subject: Subject)
    ensures Cut(subject, TradeItems([]), 50) == []
  {
  }

  /** For a batch whose trades share its symbol, exchange and time, the flat path and the grouped
      path emit the same payload bytes although they cut at 80 and at 50; with at most 50 trades
      and the same starting number they emit the same packets but for the clock. */
  lemma FlatRefinesGrouped(batch: ParsedData, order: seq<GroupKey>,
                           before: u64, after: u64, grouped: seq<UdpPacket>, nows: seq<u64>,
                           before': u64, after': u64, flat: seq<UdpPacket>, nows': seq<u64>)
    requires batch.Batch? && VisitsGroups(order, batch.trades)
    requires forall t :: t in batch.trades ==> KeyOf(t) == GroupKey(batch.timestamp, batch.symbol, batch.exchange)
    requires Emits(GroupsPlan(batch.trades, order), before, after, grouped, nows)
    requires Emits(Plan(batch), before', after', flat, nows')
    ensures PayloadBytes(grouped) == PayloadBytes(flat)
    ensures before == before' && |batch.trades| <= 50 ==>
      |grouped| == |flat| && after == after' && forall i :: 0 <= i < |flat| ==> SameButClock(grouped[i], flat[i])
  {
    hide TradeItems, Emits, PayloadBytes, SameButClock, Cut, VisitsGroups, GroupsPlan, SubjectOf;
    var subject, items := SubjectOf(batch), TradeItems(batch.trades);
    OneGroup(batch, order);
    BatchPlan(batch);
    PayloadsOfCut(subject, items, 50, before, after, grouped, nows);
    PayloadsOfCut(subject, items, MAX_ITEMS, before', after', flat, nows');
    if before == before' && |batch.trades| <= 50 {
      SmallCutsAgree(subject, items);
      SamePlan(subject, items, before, after, grouped, nows, after', flat, nows');
    }
  }

  lemma BatchPlan(batch: ParsedData)
    requires batch.Batch?
    ensures Plan(batch) == Cut(SubjectOf(batch), TradeItems(batch.trades), MAX_ITEMS)
    ensures SubjectOf(batch).timestamp.Some?
    ensures |TradeItems(batch.trades)| == |batch.trades|
  {
    hide Cut, TradeItem, Sort;
    SortKeepsLength(TradeOrder, batch.trades);
  }

  lemma SortKeepsLength<T(!new)>(cmp: (T, T) -> Ordering, s: seq<T>)
    ensures |Sort(cmp, s)| == |s|
  {
    assert |multiset(Sort(cmp, s))| == |multiset(s)|;
  }

  /** The same plan from the same number gives the same packets but for the clock. */
  lemma SamePlan(subject: Subject, items: seq<Item>, before: u64,
                 after: u64, p: seq<UdpPacket>, nows: seq<u64>, after': u64, q: seq<UdpPacket>, nows': seq<u64>)
    requires subject.timestamp.Some?
    requires Emits(Cut(subject, items, MAX_ITEMS), before, after, p, nows)
    requires Emits(Cut(subject, items, MAX_ITEMS), before, after', q, nows')
    ensures |p| == |q| && after == after' && forall i :: 0 <= i < |q| ==> SameButClock(p[i], q[i])
  {
    hide Stamp, Draw, SameButClock;
    var plan := Cut(subject, items, MAX_ITEMS);
    forall i | 0 <= i < |q| ensures SameButClock(p[i], q[i]) {
      SameTemplate(plan[i], Draw(before, i), nows[i], nows'[i]);
    }
  }

  lemma SmallCutsAgree(subject: Subject, items: seq<Item>)
    requires |items| <= 50
    ensures Cut(subject, items, 50) == Cut(subject, items, MAX_ITEMS)
  {
    if items != [] {
      CutLast(subject, items, 50);
      CutLast(subject, items, MAX_ITEMS);
    }
  }

  lemma SameTemplate(t: Template, sequence: u64, now: u64, now': u64)
    requires t.subject.timestamp.Some?
    ensures SameButClock(PacketOf(t, sequence, now), PacketOf(t, sequence, now'))
  {
    hide Stamp, NameField, FlagsAndCount, HeaderOf;
    StampReadBack(t, sequence, now);
    StampReadBack(t, sequence, now');
  }
}
