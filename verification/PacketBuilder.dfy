/** The packet builder: one shared sequence counter, a pool of payload buffers, and the methods
    that turn parsed data into UDP packets. The clock may return anything. */
module PacketBuilder {
  import opened Bits
  import opened Sequences
  import opened StableSort
  import opened Text
  import opened Protocol
  import opened MarketData
  import opened PacketPlan

  datatype Error = PacketTooLarge(size: nat) | BadMessageType

  datatype Result<+T> = Ok(value: T) | Err(error: Error)

  // ----- Laws of stamping and chunking used by the loops -----

  lemma DrawTwice(counter: u64, a: nat, b: nat)
    ensures Draw(Draw(counter, a), b) == Draw(counter, a + b)
  {
    var q := (counter + a) / TWO_64;
    assert counter + a == TWO_64 * q + Draw(counter, a);
    assert (Draw(counter, a) + b) % TWO_64 == (Draw(counter, a) + b + TWO_64 * q) % TWO_64;
  }

  lemma StampAllAppend(a: seq<Template>, b: seq<Template>, counter: u64, m: seq<u64>, n: seq<u64>)
    requires |m| == |a| && |n| == |b|
    ensures StampAll(a + b, counter, m + n)
         == StampAll(a, counter, m) + StampAll(b, Draw(counter, |a|), n)
    ensures Draw(Draw(counter, |a|), |b|) == Draw(counter, |a + b|)
  {
    hide PacketOf;
    var whole := StampAll(a + b, counter, m + n);
    var parts := StampAll(a, counter, m) + StampAll(b, Draw(counter, |a|), n);
    DrawTwice(counter, |a|, |b|);
    forall i | 0 <= i < |whole| ensures whole[i] == parts[i] {
      if i >= |a| {
        DrawTwice(counter, |a|, i - |a|);
      }
    }
  }

  /** The packets are the plan's, numbered from `before` on; the counter ends at `after`. */
  ghost predicate Emits(plan: seq<Template>, before: u64, after: u64, packets: seq<UdpPacket>, nows: seq<u64>) {
    && |nows| == |plan|
    && packets == StampAll(plan, before, nows)
    && after == Draw(before, |plan|)
  }

  lemma EmitsNothing(counter: u64)
    ensures Emits([], counter, counter, [], [])
  {
    hide PacketOf;
  }

  lemma EmitsOne(t: Template, counter: u64, now: u64)
    ensures Emits([t], counter, Draw(counter, 1), [PacketOf(t, counter, now)], [now])
  {
    hide PacketOf;
    assert StampAll([t], counter, [now]) == [PacketOf(t, Draw(counter, 0), now)];
  }

  lemma EmitsBoth(a: seq<Template>, b: seq<Template>, before: u64, middle: u64, after: u64,
                  p: seq<UdpPacket>, q: seq<UdpPacket>, m: seq<u64>, n: seq<u64>)
    requires Emits(a, before, middle, p, m) && Emits(b, middle, after, q, n)
    ensures Emits(a + b, before, after, p + q, m + n)
  {
    StampAllAppend(a, b, before, m, n);
  }

  lemma ChunksMap<T, U>(f: T -> U, s: seq<T>, size: nat)
    requires size > 0
    ensures |Chunks(Map(f, s), size)| == |Chunks(s, size)|
    ensures forall i :: 0 <= i < |Chunks(s, size)| ==> Chunks(Map(f, s), size)[i] == Map(f, Chunks(s, size)[i])
    decreases |s|
  {
    if |s| > size {
      ChunksMap(f, s[size..], size);
      assert Map(f, s)[size..] == Map(f, s[size..]);
      assert Map(f, s)[..size] == Map(f, s[..size]);
      var mapped, plain := Chunks(Map(f, s), size), Chunks(s, size);
      assert mapped[0] == Map(f, plain[0]);
      assert mapped[1..] == Chunks(Map(f, s[size..]), size) && plain[1..] == Chunks(s[size..], size);
      forall i | 0 <= i < |plain| ensures mapped[i] == Map(f, plain[i]) {
        if i > 0 {
          assert mapped[i] == mapped[1..][i - 1] && plain[i] == plain[1..][i - 1];
        }
      }
    }
  }

  lemma FlattenBlocks(items: seq<Item>)
    ensures Flatten(Map(ItemBytes, items)) == ItemsBytes(items)
  {
    if items != [] {
      FlattenBlocks(items[1..]);
      assert Map(ItemBytes, items)[1..] == Map(ItemBytes, items[1..]);
    }
  }

  // ----- Groups of trades -----

  datatype GroupKey = GroupKey(timestamp: u64, symbol: string, exchange: string)

  function KeyOf(t: Trade): GroupKey {
    GroupKey(t.timestamp, t.symbol, t.exchange)
  }

  function NameOf(key: GroupKey): (string, string) {
    (key.symbol, key.exchange)
  }

  function InGroup(key: GroupKey): Trade -> bool {
    (t: Trade) => KeyOf(t) == key
  }

  function Named(timestamp: u64, name: (string, string)): Trade -> bool {
    InGroup(GroupKey(timestamp, name.0, name.1))
  }

  function AtTime(timestamp: u64): Trade -> bool {
    (t: Trade) => t.timestamp == timestamp
  }

  function Keys(trades: seq<Trade>): set<GroupKey> {
    set t | t in trades :: KeyOf(t)
  }

  ghost predicate Distinct<T>(s: seq<T>) {
    forall i, j :: 0 <= i < j < |s| ==> s[i] != s[j]
  }

  /** `order` visits each group of the trades exactly once. */
  ghost predicate VisitsGroups(order: seq<GroupKey>, trades: seq<Trade>) {
    Distinct(order) && forall k :: k in order <==> k in Keys(trades)
  }

  function GroupSubject(key: GroupKey): Subject {
    Subject(key.symbol, key.exchange, TRADE_TICK, Some(key.timestamp))
  }

  /** The packets of one group: its own trades in input order, sorted, cut by 50. */
  function GroupPlan(trades: seq<Trade>, key: GroupKey): seq<Template> {
    Cut(GroupSubject(key), TradeItems(Filter(InGroup(key), trades)), 50)
  }

  function GroupsPlan(trades: seq<Trade>, order: seq<GroupKey>): seq<Template> {
    if order == [] then [] else GroupPlan(trades, order[0]) + GroupsPlan(trades, order[1..])
  }

  lemma GroupsPlanAppend(trades: seq<Trade>, a: seq<GroupKey>, b: seq<GroupKey>)
    ensures GroupsPlan(trades, a + b) == GroupsPlan(trades, a) + GroupsPlan(trades, b)
  {
    if a == [] {
      assert a + b == b;
    } else {
      assert (a + b)[0] == a[0] && (a + b)[1..] == a[1..] + b;
      GroupsPlanAppend(trades, a[1..], b);
    }
  }

  lemma NoGroupsNoPackets(trades: seq<Trade>)
    ensures GroupsPlan(trades, []) == []
  {
  }

  /** The trades of a group do not depend on the other timestamps. */
  lemma GroupsPlanWithin(trades: seq<Trade>, timestamp: u64, order: seq<GroupKey>)
    requires forall k :: k in order ==> k.timestamp == timestamp
    ensures GroupsPlan(Filter(AtTime(timestamp), trades), order) == GroupsPlan(trades, order)
  {
    if order != [] {
      assert order[0] in order;
      FilterInside(InGroup(order[0]), AtTime(timestamp), trades);
      GroupsPlanWithin(trades, timestamp, order[1..]);
    }
  }

  /** Sorting a batch and then picking out a group is sorting the group. */
  lemma GroupOfSorted(trades: seq<Trade>, key: GroupKey)
    ensures Filter(InGroup(key), Sort(TradeOrder, trades)) == Sort(TradeOrder, Filter(InGroup(key), trades))
  {
    OrdersAreTotal();
    SortThenFilter(TradeOrder, InGroup(key), trades);
  }

  lemma FilterNext<T(!new)>(p: T -> bool, s: seq<T>, i: nat)
    requires i < |s|
    ensures Filter(p, s[..i + 1]) == Filter(p, s[..i]) + if p(s[i]) then [s[i]] else []
  {
    FilterAppend(p, s[..i], [s[i]]);
    assert s[..i + 1] == s[..i] + [s[i]];
  }

  lemma TakeNext<T>(s: seq<T>, i: nat)
    requires i < |s|
    ensures s[..i + 1] == s[..i] + [s[i]]
  {
  }

  lemma DistinctConcat<T(!new)>(a: seq<T>, b: seq<T>)
    requires Distinct(a) && Distinct(b) && forall x :: x in a ==> x !in b
    ensures Distinct(a + b)
  {
    var s := a + b;
    forall i, j | 0 <= i < j < |s| ensures s[i] != s[j] {
      if i < |a| <= j {
        assert s[i] in a && s[j] == b[j - |a|] && s[j] in b;
      }
    }
  }

  lemma SortKeepsElements<T(!new)>(cmp: (T, T) -> Ordering, s: seq<T>)
    ensures forall x :: x in Sort(cmp, s) <==> x in s
  {
    forall x ensures x in Sort(cmp, s) <==> x in s {
      assert x in Sort(cmp, s) <==> x in multiset(Sort(cmp, s));
    }
  }

  lemma KeysAtTime(trades: seq<Trade>, timestamp: u64)
    ensures forall k :: k in Keys(Filter(AtTime(timestamp), trades)) <==> k in Keys(trades) && k.timestamp == timestamp
  {
  }

  lemma KeysAreGroups(trades: seq<Trade>, timestamp: u64)
    requires forall t :: t in trades ==> t.timestamp == timestamp
    ensures forall k :: k in Keys(trades) <==>
      k.timestamp == timestamp && Filter(Named(timestamp, NameOf(k)), trades) != []
  {
    forall k: GroupKey ensures k in Keys(trades) <==>
      k.timestamp == timestamp && Filter(Named(timestamp, NameOf(k)), trades) != []
    {
      var group := Filter(Named(timestamp, NameOf(k)), trades);
      if k in Keys(trades) {
        var t :| t in trades && KeyOf(t) == k;
        assert t in group;
      }
      if k.timestamp == timestamp && group != [] {
        assert group[0] in group && KeyOf(group[0]) == k;
      }
    }
  }

  /** The hash map from time to the trades of that time, in input order. */
  method GroupByTime(trades: seq<Trade>) returns (groups: map<u64, seq<Trade>>)
    ensures forall k :: k in Keys(trades) ==> k.timestamp in groups
    ensures forall t :: t in groups ==> groups[t] == Filter(AtTime(t), trades)
  {
    groups := map[];
    for i := 0 to |trades|
      invariant forall t: u64 :: t in groups <==> Filter(AtTime(t), trades[..i]) != []
      invariant forall t :: t in groups ==> groups[t] == Filter(AtTime(t), trades[..i])
    {
      var trade := trades[i];
      var sofar := if trade.timestamp in groups then groups[trade.timestamp] else [];
      forall t: u64 {
        FilterNext(AtTime(t), trades, i);
      }
      groups := groups[trade.timestamp := sofar + [trade]];
    }
    assert trades[..|trades|] == trades;
    forall k | k in Keys(trades) ensures k.timestamp in groups {
      var t :| t in trades && KeyOf(t) == k;
      assert t in Filter(AtTime(k.timestamp), trades);
    }
  }

  /** The hash map from symbol and exchange to the trades of that pair, in sorted order. */
  method GroupByName(timestamp: u64, sorted: seq<Trade>) returns (groups: map<(string, string), seq<Trade>>)
    requires forall t :: t in sorted ==> t.timestamp == timestamp
    ensures forall k :: k in Keys(sorted) <==> k.timestamp == timestamp && NameOf(k) in groups
    ensures forall n :: n in groups ==> groups[n] == Filter(Named(timestamp, n), sorted)
  {
    groups := map[];
    for i := 0 to |sorted|
      invariant forall n: (string, string) :: n in groups <==> Filter(Named(timestamp, n), sorted[..i]) != []
      invariant forall n :: n in groups ==> groups[n] == Filter(Named(timestamp, n), sorted[..i])
    {
      var trade := sorted[i];
      assert trade in sorted;
      var name := (trade.symbol, trade.exchange);
      var sofar := if name in groups then groups[name] else [];
      forall n: (string, string) {
        FilterNext(Named(timestamp, n), sorted, i);
      }
      groups := groups[name := sofar + [trade]];
    }
    assert sorted[..|sorted|] == sorted;
    KeysAreGroups(sorted, timestamp);
  }

  // ----- The buffer pool -----

  class PayloadPool {
    var queue: seq<Buffer>
    const bufferCapacity: nat

    ghost function Buffers(): set<Buffer>
      reads this
    {
      set b | b in queue
    }

    ghost predicate Valid()
      reads this, Buffers()
    {
      && (forall b :: b in queue ==> b.Valid())
      && (forall i, j :: 0 <= i < j < |queue| ==> queue[i] != queue[j])
    }

    /** At most 64 buffers are made in advance. */
    constructor (poolSize: nat, bufferCapacity: nat)
      ensures Valid() && fresh(Buffers()) && this.bufferCapacity == bufferCapacity
      ensures |queue| == if poolSize < 64 then poolSize else 64
      ensures forall b :: b in queue ==> b.bytes == []
    {
      this.bufferCapacity := bufferCapacity;
      queue := [];
      new;
      var n := if poolSize < 64 then poolSize else 64;
      for i := 0 to n
        invariant Valid() && |queue| == i && fresh(Buffers())
        invariant forall b :: b in queue ==> b.bytes == []
      {
        label adding:
        var b := new Buffer.WithCapacity(bufferCapacity);
        queue := queue + [b];
        assert Buffers() == old@adding(Buffers()) + {b};
      }
    }

    /** An empty buffer of at least the wanted capacity, whatever the pool holds. */
    method AcquireBuffer(minimum: nat) returns (b: Buffer)
      requires Valid()
      modifies this, Buffers()
      ensures Valid() && b.Valid() && b.bytes == [] && minimum <= b.capacity
      ensures b !in Buffers() && (b in old(Buffers()) || fresh(b)) && Buffers() <= old(Buffers())
      ensures queue == if old(queue) == [] then [] else old(queue)[1..]
    {
      if queue != [] {
        b := queue[0];
        queue := queue[1..];
        if b.capacity < minimum {
          b := new Buffer.WithCapacity(if minimum < bufferCapacity then bufferCapacity else minimum);
        }
        b.Clear();
      } else {
        b := new Buffer.WithCapacity(if minimum < bufferCapacity then bufferCapacity else minimum);
      }
    }
  }

  /** The items of the sorted levels of one side, without the empty levels. */
  method CollectSide(sorted: seq<Level>, isAsk: bool) returns (items: seq<Item>)
    ensures items == Map(SideItem(isAsk), Filter(HasQuantity, sorted))
  {
    hide NewItem, Filter, Map;
    items := [];
    for i := 0 to |sorted|
      invariant items == Map(SideItem(isAsk), Filter(HasQuantity, sorted[..i]))
    {
      var level := sorted[i];
      FilterNext(HasQuantity, sorted, i);
      MapAppend(SideItem(isAsk), Filter(HasQuantity, sorted[..i]), [level]);
      if level.quantity > 0.0 {
        items := items + [NewItem(level.price, level.quantity, isAsk)];
      }
    }
    assert sorted[..|sorted|] == sorted;
  }

  // ----- The builder -----

  class PacketBuilder {
    var counter: u64
    const pool: PayloadPool

    ghost predicate Valid()
      reads this, pool, pool.Buffers()
    {
      pool.Valid()
    }

    constructor ()
      ensures Valid() && counter == 1 && fresh(pool) && fresh(pool.Buffers())
      ensures |pool.queue| == 64 && pool.bufferCapacity == 1400
    {
      counter := 1;
      pool := new PayloadPool(1024, 1400);
    }

    /** Fills in a header and draws its sequence number; the clock reading is arbitrary. */
    method SetupHeader(header: PacketHeader, subject: Subject) returns (ghost now: u64)
      requires subject.timestamp.Some?
      modifies this`counter, header
      ensures counter == Draw(old(counter), 1)
      ensures header.View() == Header(1, old(counter), subject.timestamp.value, now, subject.messageType,
                                      old(header.flags), NameField(subject.symbol), NameField(subject.exchange))
    {
      hide NameField;
      header.version := 1;
      header.sequence := counter;
      counter := (counter + 1) % TWO_64;
      header.exchangeTimestamp := subject.timestamp.value;
      var clock: u64 := *;
      now := clock;
      header.localTimestamp := clock;
      header.messageType := subject.messageType;
      header.SetSymbol(subject.symbol);
      header.SetExchange(subject.exchange);
    }

    /** The final packet of a header and its item blocks. */
    method CreatePacket(header: PacketHeader, blocks: seq<seq<u8>>) returns (r: Result<UdpPacket>)
      requires header.View().Valid()
      ensures var data := HeaderBytes(header.View()) + Flatten(blocks);
              r == if |data| > 1472 then Err(PacketTooLarge(|data|)) else Ok(UdpPacket(data, |data|))
    {
      var data := header.ToBytes();
      for i := 0 to |blocks|
        invariant data == HeaderBytes(header.View()) + Flatten(blocks[..i])
      {
        data := data + blocks[i];
        FlattenAppend(blocks[..i], [blocks[i]]);
        FlattenOne(blocks[i]);
        assert blocks[..i + 1] == blocks[..i] + [blocks[i]];
      }
      assert blocks[..|blocks|] == blocks;
      if |data| > MAX_PACKET {
        return Err(PacketTooLarge(|data|));
      }
      r := Ok(UdpPacket(data, |data|));
    }

    method CreatePacketFromFlat(header: PacketHeader, items: seq<u8>) returns (r: Result<UdpPacket>)
      requires header.View().Valid()
      ensures var data := HeaderBytes(header.View()) + items;
              r == if |data| > 1472 then Err(PacketTooLarge(|data|)) else Ok(UdpPacket(data, |data|))
    {
      var data := header.ToBytes();
      data := data + items;
      if |data| > MAX_PACKET {
        return Err(PacketTooLarge(|data|));
      }
      r := Ok(UdpPacket(data, |data|));
    }

    /** The complete header of a planned packet. */
    method PrepareHeader(ghost t: Template, subject: Subject, isLast: bool, count: u8)
      returns (header: PacketHeader, ghost now: u64)
      requires subject.timestamp.Some? && t.subject == subject && t.isLast == isLast && t.count == count
      modifies this`counter
      ensures fresh(header) && header.View() == HeaderFor(t, old(counter), now)
      ensures counter == Draw(old(counter), 1)
    {
      header := new PacketHeader();
      now := SetupHeader(header, subject);
      header.SetFlagsAndCount(isLast, count);
    }

    /** Appends every item of a chunk to a buffer. */
    method FillBuffer(buffer: Buffer, chunk: seq<Item>)
      requires buffer.Valid() && buffer.bytes == []
      modifies buffer
      ensures buffer.Valid() && buffer.bytes == ItemsBytes(chunk)
    {
      for j := 0 to |chunk|
        invariant buffer.Valid() && buffer.bytes == ItemsBytes(chunk[..j])
      {
        buffer.AppendItem(chunk[j]);
        ItemsBytesAppend(chunk[..j], [chunk[j]]);
        ItemsBytesOne(chunk[j]);
        assert chunk[..j + 1] == chunk[..j] + [chunk[j]];
      }
      assert chunk[..|chunk|] == chunk;
    }

    /** One chunk through a pooled buffer. The size check cannot fail. */
    method EmitFlatChunk(ghost t: Template, subject: Subject, chunk: seq<Item>, isLast: bool)
      returns (packet: UdpPacket, ghost now: u64)
      requires Valid() && subject.timestamp.Some? && 1 <= |chunk| <= MAX_ITEMS
      requires t == Template(subject, isLast, |chunk|, ItemsBytes(chunk))
      modifies this`counter, pool, pool.Buffers()
      ensures Valid() && pool.Buffers() <= old(pool.Buffers())
      ensures |pool.queue| == if old(|pool.queue|) == 0 then 0 else old(|pool.queue|) - 1
      ensures counter == Draw(old(counter), 1) && packet == PacketOf(t, old(counter), now)
    {
      hide NameField, FlagsAndCount;
      var header;
      header, now := PrepareHeader(t, subject, isLast, |chunk|);
      var buffer := pool.AcquireBuffer(|chunk| * ITEM_SIZE);
      FillBuffer(buffer, chunk);
      var result := CreatePacketFromFlat(header, buffer.bytes);
      packet := result.value;
    }

    /** One packet per chunk of items, written through pooled buffers. */
    method EmitFlat(subject: Subject, items: seq<Item>)
      returns (r: Result<seq<UdpPacket>>, ghost nows: seq<u64>)
      requires Valid() && subject.timestamp.Some?
      modifies this`counter, pool, pool.Buffers()
      ensures Valid() && pool.Buffers() <= old(pool.Buffers())
      ensures r.Ok? && Emits(Cut(subject, items, MAX_ITEMS), old(counter), counter, r.value, nows)
      ensures |pool.queue| == if old(|pool.queue|) < |nows| then 0 else old(|pool.queue|) - |nows|
    {
      hide PacketOf, StampAll, Draw;
      var chunks := Chunks(items, MAX_ITEMS);
      ghost var plan := Cut(subject, items, MAX_ITEMS);
      var packets := [];
      nows := [];
      EmitsNothing(counter);
      for i := 0 to |chunks|
        invariant Valid() && pool.Buffers() <= old(pool.Buffers())
        invariant |nows| == i && Emits(plan[..i], old(counter), counter, packets, nows)
        invariant |pool.queue| == if old(|pool.queue|) < i then 0 else old(|pool.queue|) - i
      {
        assert chunks[i] in chunks;
        ghost var before := counter;
        var packet, now := EmitFlatChunk(plan[i], subject, chunks[i], i == |chunks| - 1);
        EmitsOne(plan[i], before, now);
        TakeNext(plan, i);
        EmitsBoth(plan[..i], [plan[i]], old(counter), before, counter, packets, [packet], nows, [now]);
        packets := packets + [packet];
        nows := nows + [now];
      }
      assert plan[..|chunks|] == plan;
      r := Ok(packets);
    }

    /** One chunk of serialised trades, written block by block. */
    method EmitBlockChunk(ghost t: Template, subject: Subject, ghost chunk: seq<Item>, blocks: seq<seq<u8>>,
                          isLast: bool)
      returns (packet: UdpPacket, ghost now: u64)
      requires subject.timestamp.Some? && 1 <= |blocks| <= 50 && blocks == Map(ItemBytes, chunk)
      requires t == Template(subject, isLast, |chunk|, ItemsBytes(chunk))
      modifies this`counter
      ensures counter == Draw(old(counter), 1) && packet == PacketOf(t, old(counter), now)
    {
      hide NameField, FlagsAndCount;
      var header;
      header, now := PrepareHeader(t, subject, isLast, |blocks|);
      FlattenBlocks(chunk);
      var result := CreatePacket(header, blocks);
      packet := result.value;
    }

    /** One packet per 50 serialised trades. */
    method EmitBlocks(subject: Subject, items: seq<Item>)
      returns (r: Result<seq<UdpPacket>>, ghost nows: seq<u64>)
      requires subject.timestamp.Some?
      modifies this`counter
      ensures r.Ok? && Emits(Cut(subject, items, 50), old(counter), counter, r.value, nows)
    {
      hide PacketOf, StampAll, Draw;
      var chunks := Chunks(Map(ItemBytes, items), 50);
      ghost var plan := Cut(subject, items, 50);
      ChunksMap(ItemBytes, items, 50);
      var packets := [];
      nows := [];
      EmitsNothing(counter);
      for i := 0 to |chunks|
        invariant |nows| == i && Emits(plan[..i], old(counter), counter, packets, nows)
      {
        assert chunks[i] in chunks;
        ghost var before := counter;
        var packet, now :=
          EmitBlockChunk(plan[i], subject, Chunks(items, 50)[i], chunks[i], i == |chunks| - 1);
        EmitsOne(plan[i], before, now);
        TakeNext(plan, i);
        EmitsBoth(plan[..i], [plan[i]], old(counter), before, counter, packets, [packet], nows, [now]);
        packets := packets + [packet];
        nows := nows + [now];
      }
      assert plan[..|chunks|] == plan;
      r := Ok(packets);
    }

    /** Several trades at once: grouped by time, each group sorted, then grouped by symbol and
        exchange. The groups are visited in an arbitrary order, which `order` reports. */
    method BuildTradePacketsBatch(trades: seq<Trade>)
      returns (r: Result<seq<UdpPacket>>, ghost order: seq<GroupKey>, ghost nows: seq<u64>)
      modifies this`counter
      ensures VisitsGroups(order, trades)
      ensures r.Ok? && Emits(GroupsPlan(trades, order), old(counter), counter, r.value, nows)
    {
      hide StampAll, Draw, GroupPlan;
      var groups := GroupByTime(trades);
      var packets := [];
      order, nows := [], [];
      EmitsNothing(counter);
      assert GroupsPlan(trades, order) == [];
      var remaining := groups.Keys;
      while remaining != {}
        invariant remaining <= groups.Keys
        invariant Distinct(order)
        invariant forall k :: k in order <==> k in Keys(trades) && k.timestamp !in remaining
        invariant Emits(GroupsPlan(trades, order), old(counter), counter, packets, nows)
        decreases |remaining|
      {
        var timestamp :| timestamp in remaining;
        remaining := remaining - {timestamp};
        ghost var before := counter;
        var result, visited, clock := BuildTimestampGroup(timestamp, groups[timestamp]);
        KeysAtTime(trades, timestamp);
        DistinctConcat(order, visited);
        GroupsPlanWithin(trades, timestamp, visited);
        GroupsPlanAppend(trades, order, visited);
        EmitsBoth(GroupsPlan(trades, order), GroupsPlan(trades, visited), old(counter), before, counter,
                  packets, result.value, nows, clock);
        packets := packets + result.value;
        order := order + visited;
        nows := nows + clock;
      }
      r := Ok(packets);
    }

    method BuildTimestampGroup(timestamp: u64, group: seq<Trade>)
      returns (r: Result<seq<UdpPacket>>, ghost order: seq<GroupKey>, ghost nows: seq<u64>)
      requires forall t :: t in group ==> t.timestamp == timestamp
      modifies this`counter
      ensures VisitsGroups(order, group)
      ensures r.Ok? && Emits(GroupsPlan(group, order), old(counter), counter, r.value, nows)
    {
      hide Emits, GroupsPlan, Filter, InGroup;
      SortKeepsElements(TradeOrder, group);
      var groups := GroupByName(timestamp, Sort(TradeOrder, group));
      var packets := [];
      order, nows := [], [];
      EmitsNothing(counter);
      NoGroupsNoPackets(group);
      var remaining := groups.Keys;
      while remaining != {}
        invariant remaining <= groups.Keys
        invariant Distinct(order)
        invariant forall k :: k in order <==> k in Keys(group) && NameOf(k) !in remaining
        invariant Emits(GroupsPlan(group, order), old(counter), counter, packets, nows)
        decreases |remaining|
      {
        var name :| name in remaining;
        remaining := remaining - {name};
        ghost var before := counter;
        var key := GroupKey(timestamp, name.0, name.1);
        var result, clock := BuildGroup(key, groups[name], group);
        DistinctConcat(order, [key]);
        GroupsPlanAppend(group, order, [key]);
        EmitsBoth(GroupsPlan(group, order), GroupsPlan(group, [key]), old(counter), before, counter,
                  packets, result.value, nows, clock);
        packets := packets + result.value;
        order := order + [key];
        nows := nows + clock;
      }
      r := Ok(packets);
    }

    /** The packets of one symbol and exchange at one time. */
    method BuildGroup(key: GroupKey, trades: seq<Trade>, ghost group: seq<Trade>)
      returns (r: Result<seq<UdpPacket>>, ghost nows: seq<u64>)
      requires trades == Filter(InGroup(key), Sort(TradeOrder, group))
      modifies this`counter
      ensures r.Ok? && Emits(GroupsPlan(group, [key]), old(counter), counter, r.value, nows)
    {
      GroupOfSorted(group, key);
      assert GroupsPlan(group, [key]) == GroupPlan(group, key) + GroupsPlan(group, []);
      r, nows := EmitBlocks(GroupSubject(key), Map(TradeItem, trades));
    }

    /** The trades of one message, under the names and the time of the message itself. */
    method BuildTradeBatchPackets(subject: Subject, trades: seq<Trade>)
      returns (r: Result<seq<UdpPacket>>, ghost nows: seq<u64>)
      requires Valid() && subject.timestamp.Some?
      modifies this`counter, pool, pool.Buffers()
      ensures Valid() && pool.Buffers() <= old(pool.Buffers())
      ensures r.Ok? && Emits(Cut(subject, TradeItems(trades), MAX_ITEMS), old(counter), counter, r.value, nows)
    {
      if trades == [] {
        CutNothing(subject);
        EmitsNothing(counter);
        assert TradeItems(trades) == [];
        return Ok([]), [];
      }
      r, nows := EmitFlat(subject, Map(TradeItem, Sort(TradeOrder, trades)));
    }

    /** An order-book update; one without a positive level emits nothing. */
    method BuildOrderBookPackets(subject: Subject, bids: seq<Level>, asks: seq<Level>)
      returns (r: Result<seq<UdpPacket>>, ghost nows: seq<u64>)
      requires Valid() && subject.timestamp.Some?
      modifies this`counter, pool, pool.Buffers()
      ensures Valid() && pool.Buffers() <= old(pool.Buffers())
      ensures r.Ok? && Emits(Cut(subject, BookItems(bids, asks), MAX_ITEMS), old(counter), counter, r.value, nows)
    {
      var items := CollectSide(Sort(BidOrder, bids), false);
      var askItems := CollectSide(Sort(AskOrder, asks), true);
      items := items + askItems;
      if items == [] {
        EmitsNothing(counter);
        assert Cut(subject, items, MAX_ITEMS) == [];
        return Ok([]), [];
      }
      r, nows := EmitFlat(subject, items);
    }

    /** A packet with one 8-byte value. A number is drawn before the type is looked at. */
    method BuildSingleValuePacket(subject: Subject, value: i64) returns (r: Result<UdpPacket>, ghost now: u64)
      requires subject.timestamp.Some?
      modifies this`counter
      ensures counter == Draw(old(counter), 1)
      ensures r == if subject.messageType in {INDEX_PRICE, MARK_PRICE, FUNDING_RATE}
                   then Ok(PacketOf(Template(subject, true, 1, I64Bytes(value)), old(counter), now))
                   else Err(BadMessageType)
    {
      hide NameField, FlagsAndCount;
      var header := new PacketHeader();
      now := SetupHeader(header, subject);
      header.SetFlagsAndCount(true, 1);
      if subject.messageType !in {INDEX_PRICE, MARK_PRICE, FUNDING_RATE} {
        return Err(BadMessageType), now;
      }
      assert header.View() == HeaderFor(Template(subject, true, 1, I64Bytes(value)), old(counter), now);
      FlattenOne(I64Bytes(value));
      r := CreatePacket(header, [I64Bytes(value)]);
    }

    method BuildLiquidationPacket(subject: Subject, price: real, quantity: real, isSell: bool)
      returns (r: Result<UdpPacket>, ghost now: u64)
      requires subject.timestamp.Some?
      modifies this`counter
      ensures counter == Draw(old(counter), 1)
      ensures r == Ok(PacketOf(Template(subject, true, 1, ItemBytes(LiquidationItem(price, quantity, isSell))),
                               old(counter), now))
    {
      hide NameField, FlagsAndCount, LiquidationItem;
      var header := new PacketHeader();
      now := SetupHeader(header, subject);
      header.SetFlagsAndCount(true, 1);
      var block := ItemBytes(LiquidationItem(price, quantity, isSell));
      assert header.View() == HeaderFor(Template(subject, true, 1, block), old(counter), now);
      FlattenOne(block);
      r := CreatePacket(header, [block]);
    }

    /** A system event: one 16-byte payload, stamped with the clock in both time fields. */
    method BuildEventPacket(symbol: string, exchange: string, messageType: u8, payload: seq<u8>)
      returns (r: Result<UdpPacket>, ghost now: u64)
      requires |payload| == ITEM_SIZE
      modifies this`counter
      ensures counter == Draw(old(counter), 1)
      ensures r == Ok(PacketOf(Template(Subject(symbol, exchange, messageType, None), true, 1, payload),
                               old(counter), now))
    {
      hide NameField, FlagsAndCount, DecodeName, Clean, IsLastOf, CountOf, HeaderBytes;
      var header := new PacketHeader();
      var clock: u64 := *;
      now := clock;
      header.version := 1;
      header.sequence := counter;
      counter := (counter + 1) % TWO_64;
      header.exchangeTimestamp := clock;
      header.localTimestamp := clock;
      header.messageType := messageType;
      header.SetFlagsAndCount(true, 1);
      header.SetSymbol(symbol);
      header.SetExchange(exchange);
      assert header.View() == HeaderFor(Template(Subject(symbol, exchange, messageType, None), true, 1, payload),
                                        old(counter), now);
      FlattenOne(payload);
      r := CreatePacket(header, [payload]);
    }

    /** Any tree of parsed data: it never fails, emits exactly the planned packets with
        consecutive numbers, and advances the counter by their number. */
    method BuildPackets(data: ParsedData) returns (r: Result<seq<UdpPacket>>, ghost nows: seq<u64>)
      requires Valid()
      modifies this`counter, pool, pool.Buffers()
      ensures Valid() && pool.Buffers() <= old(pool.Buffers())
      ensures r.Ok? && Emits(Plan(data), old(counter), counter, r.value, nows)
      decreases data
    {
      if data.Multi? {
        r, nows := BuildEach(data.items);
      } else {
        r, nows := BuildLeaf(data);
      }
    }

    method BuildEach(items: seq<ParsedData>) returns (r: Result<seq<UdpPacket>>, ghost nows: seq<u64>)
      requires Valid()
      modifies this`counter, pool, pool.Buffers()
      ensures Valid() && pool.Buffers() <= old(pool.Buffers())
      ensures r.Ok? && Emits(PlanAll(items), old(counter), counter, r.value, nows)
      decreases items
    {
      hide StampAll, Draw;
      var out := [];
      nows := [];
      EmitsNothing(counter);
      for i := 0 to |items|
        invariant Valid() && pool.Buffers() <= old(pool.Buffers())
        invariant Emits(PlanAll(items[..i]), old(counter), counter, out, nows)
      {
        ghost var before := counter;
        var one, clock := BuildPackets(items[i]);
        PlanAllAppend(items, i);
        EmitsBoth(PlanAll(items[..i]), Plan(items[i]), old(counter), before, counter, out, one.value, nows, clock);
        out := out + one.value;
        nows := nows + clock;
      }
      assert items[..|items|] == items;
      r := Ok(out);
    }

    method BuildLeaf(leaf: Leaf) returns (r: Result<seq<UdpPacket>>, ghost nows: seq<u64>)
      requires Valid()
      modifies this`counter, pool, pool.Buffers()
      ensures Valid() && pool.Buffers() <= old(pool.Buffers())
      ensures r.Ok? && Emits(LeafPlan(leaf), old(counter), counter, r.value, nows)
    {
      hide StampAll, Draw, Scaled, NewItem, Cut;
      match leaf
      case Single(trade) =>
        ghost var order;
        r, order, nows := BuildTradePacketsBatch([trade]);
        SingleGroup(trade, order);
      case Batch(_, _, _, trades) =>
        r, nows := BuildTradeBatchPackets(SubjectOf(leaf), trades);
      case OrderBook(_, _, bids, asks, _) =>
        r, nows := BuildOrderBookPackets(SubjectOf(leaf), bids, asks);
      case IndexPrice(_, _, value, _) => r, nows := BuildValue(SubjectOf(leaf), value);
      case MarkPrice(_, _, value, _) => r, nows := BuildValue(SubjectOf(leaf), value);
      case FundingRate(_, _, value, _) => r, nows := BuildValue(SubjectOf(leaf), value);
      case Liquidation(_, _, price, quantity, isSell, _) =>
        var packet, now := BuildLiquidationPacket(SubjectOf(leaf), price, quantity, isSell);
        EmitsOne(LeafPlan(leaf)[0], old(counter), now);
        r, nows := Ok([packet.value]), [now];
    }

    method BuildValue(subject: Subject, value: real) returns (r: Result<seq<UdpPacket>>, ghost nows: seq<u64>)
      requires subject.timestamp.Some? && subject.messageType in {INDEX_PRICE, MARK_PRICE, FUNDING_RATE}
      modifies this`counter
      ensures r.Ok? && Emits(OnePacket(subject, I64Bytes(Scaled(value))), old(counter), counter, r.value, nows)
    {
      var packet, now := BuildSingleValuePacket(subject, Scaled(value));
      EmitsOne(Template(subject, true, 1, I64Bytes(Scaled(value))), old(counter), now);
      r, nows := Ok([packet.value]), [now];
    }
  }

  lemma PlanAllAppend(items: seq<ParsedData>, i: nat)
    requires i < |items|
    ensures PlanAll(items[..i + 1]) == PlanAll(items[..i]) + Plan(items[i])
  {
    hide Plan;
    if i == 0 {
      assert items[..1][1..] == [];
      assert PlanAll(items[..1]) == Plan(items[0]) + PlanAll([]);
    } else {
      PlanAllAppend(items[1..], i - 1);
      assert items[..i + 1][1..] == items[1..][..i];
      assert items[..i][1..] == items[1..][..i - 1];
    }
  }

  lemma SingleGroup(trade: Trade, order: seq<GroupKey>)
    requires VisitsGroups(order, [trade])
    ensures GroupsPlan([trade], order) == LeafPlan(Single(trade))
  {
    assert KeyOf(trade) in order;
    forall i | 0 <= i < |order| ensures order[i] == KeyOf(trade) {
      assert order[i] in order;
    }
    assert order[0] == order[|order| - 1];
    assert order == [KeyOf(trade)];
    assert Filter(InGroup(KeyOf(trade)), [trade]) == [trade];
    assert GroupsPlan([trade], order) == GroupPlan([trade], KeyOf(trade)) + GroupsPlan([trade], []);
  }
}
