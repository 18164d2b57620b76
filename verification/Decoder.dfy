/** The packet decoder: header, then as many 16-byte items as the header counts. */
module Decoder {
  import opened Bits
  import opened Sequences
  import opened Protocol

  datatype DecodeError = PacketTooSmall | PayloadTooSmall

  datatype DecodeResult = Decoded(header: Header, items: seq<Item>) | Failed(error: DecodeError)

  predicate HoldsItems(messageType: u8) {
    messageType == ORDER_BOOK || messageType == TRADE_TICK
  }

  function ItemsIn(payload: seq<u8>, count: nat): (items: seq<Item>)
    requires ITEM_SIZE * count <= |payload|
    ensures |items| == count
  {
    if count == 0 then []
    else [ItemOf(payload[..ITEM_SIZE])] + ItemsIn(payload[ITEM_SIZE..], count - 1)
  }

  /** What the decoder makes of a datagram. Other message types have no item layout here. */
  function Decode(data: seq<u8>): DecodeResult {
    if |data| < HEADER_SIZE then Failed(PacketTooSmall)
    else
      var header := HeaderOf(data);
      var payload := data[HEADER_SIZE..];
      if !HoldsItems(header.messageType) then Decoded(header, [])
      else if ITEM_SIZE * CountOf(header.flags) > |payload| then Failed(PayloadTooSmall)
      else Decoded(header, ItemsIn(payload, CountOf(header.flags)))
  }

  lemma ItemsInNext(payload: seq<u8>, i: nat)
    requires ITEM_SIZE * (i + 1) <= |payload|
    ensures ItemsIn(payload, i + 1)
         == ItemsIn(payload, i) + [ItemOf(payload[ITEM_SIZE * i..ITEM_SIZE * i + ITEM_SIZE])]
  {
    hide ItemOf;
    if i > 0 {
      var rest := payload[ITEM_SIZE..];
      ItemsInNext(rest, i - 1);
      var before := ITEM_SIZE * (i - 1);
      assert ITEM_SIZE * i == before + ITEM_SIZE;
      SliceOfRest(payload, ITEM_SIZE, before, before + ITEM_SIZE);
      ItemsInFirst(payload, i + 1);
      ItemsInFirst(payload, i);
      hide ItemsIn;
      Regroup([ItemOf(payload[..ITEM_SIZE])], ItemsIn(rest, i - 1), [ItemOf(rest[before..before + ITEM_SIZE])]);
    }
  }

  lemma ItemsInFirst(payload: seq<u8>, count: nat)
    requires count > 0 && ITEM_SIZE * count <= |payload|
    ensures ItemsIn(payload, count) == [ItemOf(payload[..ITEM_SIZE])] + ItemsIn(payload[ITEM_SIZE..], count - 1)
  {
    hide ItemOf;
  }

  lemma SliceOfRest<T>(s: seq<T>, n: nat, from: nat, to: nat)
    requires from <= to && n + to <= |s|
    ensures s[n..][from..to] == s[n + from..n + to]
  {
  }

  /** Reading back written items, whatever follows them. */
  lemma {:induction false} ItemsReadBack(items: seq<Item>, rest: seq<u8>)
    ensures ItemsIn(ItemsBytes(items) + rest, |items|) == items
  {
    if items != [] {
      hide ItemOf, ItemBytes, ItemsIn;
      var payload := ItemsBytes(items) + rest;
      FirstItemBytes(items, rest);
      ItemRoundTrip(items[0], payload[..ITEM_SIZE]);
      ItemsReadBack(items[1..], rest);
      hide ItemsBytes;
      ItemsInFirst(payload, |items|);
      assert items == [items[0]] + items[1..];
    } else {
      assert ItemsIn(rest, 0) == [];
    }
  }

  /** Where the first item lies in written items. */
  lemma FirstItemBytes(items: seq<Item>, rest: seq<u8>)
    requires items != []
    ensures var payload := ItemsBytes(items) + rest;
            payload[..ITEM_SIZE] == ItemBytes(items[0]) && payload[ITEM_SIZE..] == ItemsBytes(items[1..]) + rest
  {
    hide ItemBytes;
    var first, others := ItemBytes(items[0]), ItemsBytes(items[1..]);
    assert ItemsBytes(items) == first + others;
    Regroup(first, others, rest);
  }

  lemma {:induction false} ItemsAt(payload: seq<u8>, count: nat, i: nat)
    requires i < count && 16 * count <= |payload|
    ensures ItemsIn(payload, count)[i] == ItemOf(payload[16 * i..16 * i + 16])
  {
    hide ItemOf;
    if i > 0 {
      var rest := payload[ITEM_SIZE..];
      ItemsAt(rest, count - 1, i - 1);
      assert 16 * i == 16 + 16 * (i - 1);
      SliceOfRest(payload, 16, 16 * (i - 1), 16 * (i - 1) + 16);
      ItemsInFirst(payload, count);
    }
  }

  /** What is made of any datagram, sound or not: too short for a header, or for the items that the header
      of an order book or of trades announces, or the header with exactly these items, read one after the
      other; other types have no items here. */
  lemma DatagramsDecode(data: seq<u8>)
    ensures |data| < 67 <==> Decode(data) == Failed(PacketTooSmall)
    ensures |data| >= 67 ==>
              var h, r := HeaderOf(data), Decode(data);
              var count := if h.messageType == 0 || h.messageType == 1 then h.flags % 128 else 0;
              if 67 + 16 * count > |data| then r == Failed(PayloadTooSmall)
              else r.Decoded? && r.header == h && |r.items| == count
                   && forall i :: 0 <= i < count ==> r.items[i] == ItemOf(data[67 + 16 * i..83 + 16 * i])
  {
    hide HeaderOf, ItemsIn, CountOf, ItemOf;
    if |data| >= 67 {
      var h, payload := HeaderOf(data), data[67..];
      ReadFlags(h.flags);
      var count := CountOf(h.flags);
      if HoldsItems(h.messageType) && 16 * count <= |payload| {
        forall i | 0 <= i < count ensures ItemsIn(payload, count)[i] == ItemOf(data[67 + 16 * i..83 + 16 * i]) {
          ItemsAt(payload, count, i);
          SliceOfRest(data, 67, 16 * i, 16 * i + 16);
        }
      }
    }
  }

  /** The items a datagram yields; a broken one yields none. */
  function ItemsFrom(data: seq<u8>): seq<Item> {
    var r := Decode(data);
    if r.Decoded? then r.items else []
  }

  predicate IsOfType(data: seq<u8>, messageType: u8) {
    |data| >= HEADER_SIZE && HeaderOf(data).messageType == messageType
  }

  /** The items that the header of a datagram of this type announces. */
  function Announced(data: seq<u8>, messageType: u8): nat {
    if IsOfType(data, messageType) then CountOf(HeaderOf(data).flags) else 0
  }

  function AnnouncedIn(datagrams: seq<seq<u8>>, messageType: u8): nat {
    if datagrams == [] then 0
    else AnnouncedIn(datagrams[..|datagrams| - 1], messageType) + Announced(datagrams[|datagrams| - 1], messageType)
  }

  function OfType(datagrams: seq<seq<u8>>, messageType: u8): nat {
    if datagrams == [] then 0
    else
      OfType(datagrams[..|datagrams| - 1], messageType)
      + (if IsOfType(datagrams[|datagrams| - 1], messageType) then 1 else 0)
  }

  function BytesIn(datagrams: seq<seq<u8>>): nat {
    if datagrams == [] then 0 else BytesIn(datagrams[..|datagrams| - 1]) + |datagrams[|datagrams| - 1]|
  }

  /** What the decoder counts. */
  datatype Counts = Counts(packets: nat, bytes: nat, bookPackets: nat, tickPackets: nat, bookItems: nat, tickItems: nat)

  class Stats {
    var totalPackets: nat
    var totalBytes: nat
    var orderBookPackets: nat
    var tradeTickPackets: nat
    var orderBookItems: nat
    var tradeTickItems: nat

    ghost function View(): Counts
      reads this
    {
      Counts(totalPackets, totalBytes, orderBookPackets, tradeTickPackets, orderBookItems, tradeTickItems)
    }

    constructor ()
      ensures View() == Counts(0, 0, 0, 0, 0, 0)
    {
      totalPackets, totalBytes := 0, 0;
      orderBookPackets, tradeTickPackets, orderBookItems, tradeTickItems := 0, 0, 0, 0;
    }
  }

  /** The counts after one more decoded datagram, and after a list of received ones. */
  function Counted(c: Counts, data: seq<u8>): Counts {
    c.(bookPackets := c.bookPackets + (if IsOfType(data, ORDER_BOOK) then 1 else 0),
       tickPackets := c.tickPackets + (if IsOfType(data, TRADE_TICK) then 1 else 0),
       bookItems := c.bookItems + Announced(data, ORDER_BOOK),
       tickItems := c.tickItems + Announced(data, TRADE_TICK))
  }

  function CountsOf(datagrams: seq<seq<u8>>): Counts {
    Counts(|datagrams|, BytesIn(datagrams), OfType(datagrams, ORDER_BOOK), OfType(datagrams, TRADE_TICK),
           AnnouncedIn(datagrams, ORDER_BOOK), AnnouncedIn(datagrams, TRADE_TICK))
  }

  lemma CountsNext(datagrams: seq<seq<u8>>, i: nat)
    requires i < |datagrams|
    ensures var c := CountsOf(datagrams[..i]);
            CountsOf(datagrams[..i + 1])
            == Counted(c.(packets := c.packets + 1, bytes := c.bytes + |datagrams[i]|), datagrams[i])
  {
    hide HeaderOf, CountOf;
    assert datagrams[..i + 1][..i] == datagrams[..i];
  }

  /** The loop over the items of a payload. */
  method DecodeItems(payload: seq<u8>, count: nat) returns (ok: bool, items: seq<Item>)
    ensures ok <==> ITEM_SIZE * count <= |payload|
    ensures ok ==> items == ItemsIn(payload, count)
  {
    items := [];
    for i := 0 to count
      invariant ITEM_SIZE * i <= |payload| && items == ItemsIn(payload, i)
    {
      var start := i * ITEM_SIZE;
      var end := start + ITEM_SIZE;
      if end > |payload| {
        return false, [];
      }
      ItemsInNext(payload, i);
      items := items + [ItemOf(payload[start..end])];
    }
    ok := true;
  }

  /** The statistics count what the header says, even when the payload then proves too small. */
  method DecodePacket(data: seq<u8>, stats: Stats) returns (r: DecodeResult)
    modifies stats
    ensures r == Decode(data)
    ensures stats.View() == Counted(old(stats.View()), data)
  {
    hide HeaderOf, CountOf, ItemsIn;
    if |data| < HEADER_SIZE {
      return Failed(PacketTooSmall);
    }
    var header := HeaderOf(data);
    var payload := data[HEADER_SIZE..];
    var count := CountOf(header.flags);
    if header.messageType == ORDER_BOOK {
      stats.orderBookPackets := stats.orderBookPackets + 1;
      stats.orderBookItems := stats.orderBookItems + count;
    } else if header.messageType == TRADE_TICK {
      stats.tradeTickPackets := stats.tradeTickPackets + 1;
      stats.tradeTickItems := stats.tradeTickItems + count;
    } else {
      return Decoded(header, []);
    }
    var ok, items := DecodeItems(payload, count);
    r := if ok then Decoded(header, items) else Failed(PayloadTooSmall);
  }

  /** The receive loop: it goes on after a broken datagram. */
  method ReceiveAll(datagrams: seq<seq<u8>>) returns (items: seq<Item>, stats: Stats)
    ensures items == Flatten(Map(ItemsFrom, datagrams))
    ensures fresh(stats) && stats.View() == CountsOf(datagrams)
  {
    hide ItemsFrom, Decode, CountsOf, Flatten, Map, IsOfType, Announced;
    stats := new Stats();
    items := [];
    ReceivedNothing();
    for i := 0 to |datagrams|
      invariant fresh(stats) && stats.View() == CountsOf(datagrams[..i])
      invariant items == Flatten(Map(ItemsFrom, datagrams[..i]))
    {
      CountsNext(datagrams, i);
      ReceivedNext(datagrams, i);
      stats.totalPackets := stats.totalPackets + 1;
      stats.totalBytes := stats.totalBytes + |datagrams[i]|;
      var r := DecodePacket(datagrams[i], stats);
      if r.Decoded? {
        items := items + r.items;
      }
    }
    assert datagrams[..|datagrams|] == datagrams;
  }

  lemma ReceivedNothing()
    ensures CountsOf([]) == Counts(0, 0, 0, 0, 0, 0)
    ensures Flatten(Map(ItemsFrom, [])) == []
  {
  }

  lemma ReceivedNext(datagrams: seq<seq<u8>>, i: nat)
    requires i < |datagrams|
    ensures Flatten(Map(ItemsFrom, datagrams[..i + 1]))
         == (var r := Decode(datagrams[i]);
             var before := Flatten(Map(ItemsFrom, datagrams[..i]));
             if r.Decoded? then before + r.items else before)
  {
    var before := Map(ItemsFrom, datagrams[..i]);
    assert datagrams[..i + 1] == datagrams[..i] + [datagrams[i]];
    MapAppend(ItemsFrom, datagrams[..i], [datagrams[i]]);
    assert Map(ItemsFrom, [datagrams[i]]) == [ItemsFrom(datagrams[i])];
    hide Decode;
    FlattenAppend(before, [ItemsFrom(datagrams[i])]);
    FlattenOne(ItemsFrom(datagrams[i]));
    assert Flatten(before) + [] == Flatten(before);
  }
}
