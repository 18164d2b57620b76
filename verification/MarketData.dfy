/** Parsed market data, the orders it is sorted by, and the exchange rewrite of the parser. */
module MarketData {
  import opened Bits
  import opened Sequences
  import opened StableSort

  datatype Trade = Trade(symbol: string, exchange: string, price: real, quantity: real, isBuyerTaker: bool,
                         timestamp: u64)

  datatype Level = Level(price: real, quantity: real)

  datatype ParsedData =
    | Single(trade: Trade)
    | Batch(symbol: string, exchange: string, timestamp: u64, trades: seq<Trade>)
    | OrderBook(symbol: string, exchange: string, bids: seq<Level>, asks: seq<Level>, timestamp: u64)
    | IndexPrice(symbol: string, exchange: string, value: real, timestamp: u64)
    | MarkPrice(symbol: string, exchange: string, value: real, timestamp: u64)
    | FundingRate(symbol: string, exchange: string, value: real, timestamp: u64)
    | Liquidation(symbol: string, exchange: string, price: real, quantity: real, isSell: bool, timestamp: u64)
    | Multi(items: seq<ParsedData>)

  // ----- Orders -----

  function Compare(a: real, b: real): Ordering {
    if a < b then Less else if a == b then Equal else Greater
  }

  /** Buyer-taker trades first, by ascending price; then the others by descending price. */
  function TradeOrder(a: Trade, b: Trade): Ordering {
    match (a.isBuyerTaker, b.isBuyerTaker)
    case (true, true) => Compare(a.price, b.price)
    case (false, false) => Compare(b.price, a.price)
    case (true, false) => Less
    case (false, true) => Greater
  }

  function BidOrder(a: Level, b: Level): Ordering {
    Compare(b.price, a.price)
  }

  function AskOrder(a: Level, b: Level): Ordering {
    Compare(a.price, b.price)
  }

  /** The three comparators order every list, so a sort by them has a meaning. */
  lemma OrdersAreTotal()
    ensures TotalPreorder(TradeOrder) && TotalPreorder(BidOrder) && TotalPreorder(AskOrder)
  {
  }

  /** What ties: trades of one side at one price, and levels at one price. */
  lemma TiesAreEqualPrices(a: Trade, b: Trade, l: Level, m: Level)
    ensures TradeOrder(a, b) == Equal <==> a.isBuyerTaker == b.isBuyerTaker && a.price == b.price
    ensures BidOrder(l, m) == Equal <==> l.price == m.price
    ensures AskOrder(l, m) == Equal <==> l.price == m.price
  {
  }

  // ----- The tree of parsed data -----

  /** Parsed data that is not a group. */
  type Leaf = d: ParsedData | !d.Multi? witness IndexPrice([], [], 0.0, 0)

  /** The messages of a tree, from left to right, without the grouping. */
  function Leaves(data: ParsedData): seq<Leaf>
    decreases data
  {
    if data.Multi? then LeavesOf(data.items) else [data]
  }

  function LeavesOf(items: seq<ParsedData>): seq<Leaf>
    decreases items
  {
    if items == [] then [] else Leaves(items[0]) + LeavesOf(items[1..])
  }

  function SymbolOf(leaf: Leaf): string {
    if leaf.Single? then leaf.trade.symbol else leaf.symbol
  }

  function ExchangeOf(leaf: Leaf): string {
    if leaf.Single? then leaf.trade.exchange else leaf.exchange
  }

  /** A message with its exchange replaced by the name of the session. */
  function Renamed(leaf: Leaf, exchange: string): (r: Leaf)
    ensures ExchangeOf(r) == exchange
  {
    if leaf.Single? then leaf.(trade := leaf.trade.(exchange := exchange)) else leaf.(exchange := exchange)
  }

  /** Renaming changes nothing but the exchange: the old name brings back the old message, and of two
      names the last one counts. */
  lemma RenamingChangesNamesOnly(leaf: Leaf, a: string, b: string)
    ensures Renamed(leaf, ExchangeOf(leaf)) == leaf && Renamed(Renamed(leaf, a), ExchangeOf(leaf)) == leaf
    ensures Renamed(Renamed(leaf, a), b) == Renamed(leaf, b)
    ensures SymbolOf(Renamed(leaf, a)) == SymbolOf(leaf)
  {
  }

  function Renaming(exchange: string): Leaf -> Leaf {
    (leaf: Leaf) => Renamed(leaf, exchange)
  }

  /** The rewrite applied to an item of a group: a group inside a group is emptied. */
  function RenamedItem(item: ParsedData, exchange: string): ParsedData {
    if item.Multi? then Multi([]) else Renamed(item, exchange)
  }

  function RenamedItems(items: seq<ParsedData>, exchange: string): seq<ParsedData> {
    if items == [] then [] else [RenamedItem(items[0], exchange)] + RenamedItems(items[1..], exchange)
  }

  /** The rewrite of a parsed message before it leaves the parser. */
  function WithSessionExchange(data: ParsedData, exchange: string): ParsedData {
    if data.Multi? then Multi(RenamedItems(data.items, exchange)) else Renamed(data, exchange)
  }

  predicate NoInnerMessages(item: ParsedData) {
    item.Multi? ==> Leaves(item) == []
  }

  /** No group inside the group holds a message. */
  predicate NothingNested(items: seq<ParsedData>) {
    items == [] || (NoInnerMessages(items[0]) && NothingNested(items[1..]))
  }

  lemma {:induction false} RenamedItemsLeaves(items: seq<ParsedData>, exchange: string)
    ensures |LeavesOf(RenamedItems(items, exchange))| <= |LeavesOf(items)|
    ensures forall leaf :: leaf in LeavesOf(RenamedItems(items, exchange)) ==> ExchangeOf(leaf) == exchange
    ensures NothingNested(items) <==>
            LeavesOf(RenamedItems(items, exchange)) == Map(Renaming(exchange), LeavesOf(items))
  {
    if items != [] {
      RenamedItemsLeaves(items[1..], exchange);
      var rest := RenamedItems(items[1..], exchange);
      var renamed := RenamedItems(items, exchange);
      assert renamed[0] == RenamedItem(items[0], exchange) && renamed[1..] == rest;
      MapAppend(Renaming(exchange), Leaves(items[0]), LeavesOf(items[1..]));
      if items[0].Multi? {
        assert Leaves(renamed[0]) == LeavesOf([]) == [];
        assert LeavesOf(renamed) == LeavesOf(rest);
      } else {
        var first: seq<Leaf> := [Renamed(items[0], exchange)];
        assert Map(Renaming(exchange), Leaves(items[0])) == first;
        assert LeavesOf(renamed) == first + LeavesOf(rest);
        SameTail(first, LeavesOf(rest), Map(Renaming(exchange), LeavesOf(items[1..])));
      }
    }
  }

  /** After the rewrite every message carries the session's exchange name, and no message is
      lost exactly when no group inside the group holds one. */
  lemma RewriteKeepsMessages(data: ParsedData, exchange: string)
    ensures forall leaf :: leaf in Leaves(WithSessionExchange(data, exchange)) ==> ExchangeOf(leaf) == exchange
    ensures (data.Multi? ==> NothingNested(data.items)) <==>
            Leaves(WithSessionExchange(data, exchange)) == Map(Renaming(exchange), Leaves(data))
  {
    if data.Multi? {
      RenamedItemsLeaves(data.items, exchange);
    }
  }

  predicate IsFlat(items: seq<ParsedData>) {
    forall item :: item in items ==> !item.Multi?
  }

  lemma {:induction false} FlatLeaves(items: seq<ParsedData>)
    requires IsFlat(items)
    ensures LeavesOf(items) == items && NothingNested(items)
  {
    if items != [] {
      assert items[0] in items && forall item :: item in items[1..] ==> item in items;
      FlatLeaves(items[1..]);
      assert items == [items[0]] + items[1..];
      assert Leaves(items[0]) == [items[0]];
    }
  }

  /** What a mark-price update parses into. */
  function MarkPriceUpdate(symbol: string, exchange: string, mark: real, index: real, funding: real, time: u64)
    : ParsedData
  {
    Multi([IndexPrice(symbol, exchange, index, time), MarkPrice(symbol, exchange, mark, time),
           FundingRate(symbol, exchange, funding, time)])
  }

  /** What a single aggregate trade parses into. */
  function AggregateTrade(trade: Trade): ParsedData {
    Batch(trade.symbol, trade.exchange, trade.timestamp, [trade])
  }

  /** A group without inner groups, the only kind any parser builds, loses nothing. */
  lemma FlatGroupLosesNothing(items: seq<ParsedData>, exchange: string)
    requires IsFlat(items)
    ensures LeavesOf(items) == items
    ensures Leaves(WithSessionExchange(Multi(items), exchange)) == Map(Renaming(exchange), LeavesOf(items))
  {
    FlatLeaves(items);
    RewriteKeepsMessages(Multi(items), exchange);
  }
}
