/** From the symbol file to the receiver: which configured symbols a receiver can tell apart. */
module Deployment {
  import opened Bits
  import opened Sequences
  import opened Text
  import opened Protocol
  import opened MarketData
  import opened PacketPlan
  import opened Sessions
  import opened Reassembly
  import opened EndToEnd
  import opened PacketBuilder
  import LossCheck
  import Naming
  import Symbols = SymbolConfig
  import WireContent

  /** What one configured session is started with. */
  datatype Feed = Feed(exchange: string, symbols: seq<string>, port: u16)

  function FeedOf(exchange: string): Symbols.Session -> Feed {
    (session: Symbols.Session) => Feed(exchange, session.symbols, session.port)
  }

  function FeedsOf(group: Symbols.Group): seq<Feed> {
    Map(FeedOf(group.exchange), group.sessions)
  }

  /** One feed per configured session; the exchanges come in the order of some hash map. */
  function Feeds(groups: seq<Symbols.Group>): seq<Feed> {
    Flatten(Map(FeedsOf, groups))
  }

  function PortOf(feed: Feed): u16 { feed.port }

  function Ports(feeds: seq<Feed>): seq<u16> {
    Map(PortOf, feeds)
  }

  // ----- The names that travel -----

  predicate IsBinance(exchange: string) {
    StartsWith(exchange, "Binance")
  }

  /** The exchanges whose messages are read. */
  lemma BinanceIsAPrefix(exchange: string)
    ensures IsBinance(exchange) <==> exists market :: exchange == "Binance" + market
  {
    if IsBinance(exchange) {
      assert exchange == "Binance" + exchange[7..];
    }
    if market :| exchange == "Binance" + market {
      assert "Binance" <= exchange;
    }
  }

  /** The symbol of every message of an exchange whose messages are not read yet. */
  const UNREAD: string := "UNKNOWN^USDT"

  /** The symbol under which messages about a configured symbol travel. Binance symbols go out bare
      and in small letters, come back in capitals and are normalised; every message of any other
      exchange gets the same symbol. */
  function Carried(exchange: string, symbol: string): string {
    if IsBinance(exchange) then Naming.Normalize(Naming.Upper(Filter(Naming.NoCaret, symbol))) else UNREAD
  }

  /** The answers on all streams of a Binance symbol normalise to its carried symbol. */
  lemma AnswersAreCarried(exchange: string, symbol: string, futures: bool, stream: string)
    requires IsBinance(exchange) && '@' !in symbol && stream in Naming.StreamsFor(futures)(symbol)
    ensures Naming.Answered(stream) == Carried(exchange, symbol)
  {
    hide Naming.Normalize, Naming.AnswerSymbol, Naming.StreamsFor, Naming.Topics, Naming.Upper, IsBinance;
    Naming.StreamsAnswer(symbol, futures);
    var streams := Naming.StreamsFor(futures)(symbol);
    var i :| 0 <= i < |streams| && streams[i] == stream;
    assert Map(Naming.AnswerSymbol, streams)[i] == Naming.AnswerSymbol(stream);
  }

  /** An ASCII symbol of a Binance exchange travels under its configured name exactly when that is
      canonical. */
  lemma CanonicalTravelsUnchanged(exchange: string, symbol: string)
    requires IsBinance(exchange) && Naming.IsAscii(symbol)
    ensures Carried(exchange, symbol) == symbol <==> Naming.Canonical(symbol)
  {
    hide Naming.Normalize, Naming.Upper, Naming.Canonical, IsBinance;
    Naming.SurvivesExactlyWhenCanonical(symbol);
  }

  // ----- What sessions send -----

  /** The first message type of the system events. */
  const FIRST_EVENT: u8 := 100

  predicate CarriesFor(feed: Feed, name: string) {
    exists a :: a in feed.symbols && Carried(feed.exchange, a) == name
  }

  /** A call that a session with this feed may make: a message under the session's name, with the
      carried symbol of one of its own symbols, or a system event. */
  predicate CallOf(feed: Feed, call: Call) {
    match call
    case Message(data) =>
      forall leaf :: leaf in Leaves(data) ==> ExchangeOf(leaf) == feed.exchange && CarriesFor(feed, SymbolOf(leaf))
    case Event(symbol, exchange, messageType, payload) => messageType >= FIRST_EVENT
  }

  /** What the parser returns for such a session is such a message. */
  lemma RewrittenMessageConforms(feed: Feed, data: ParsedData)
    requires forall leaf :: leaf in Leaves(data) ==> CarriesFor(feed, SymbolOf(leaf))
    ensures CallOf(feed, Message(WithSessionExchange(data, feed.exchange)))
  {
    hide Leaves, WithSessionExchange, Renamed, CarriesFor;
    var tree := WithSessionExchange(data, feed.exchange);
    RewriteKeepsMessages(data, feed.exchange);
    RewrittenSymbols(data, feed.exchange);
    forall leaf | leaf in Leaves(tree) ensures CarriesFor(feed, SymbolOf(leaf)) {
      var original :| original in Leaves(data) && leaf == Renamed(original, feed.exchange);
      RenamingChangesNamesOnly(original, feed.exchange, feed.exchange);
    }
  }

  /** Parsed Binance messages that answer subscribed streams, each with the normalised symbol of its
      stream, are such messages. */
  lemma BinanceMessageConforms(feed: Feed, data: ParsedData, futures: bool)
    requires IsBinance(feed.exchange) && forall a :: a in feed.symbols ==> '@' !in a
    requires forall leaf :: leaf in Leaves(data) ==> Subscribed(feed, futures, SymbolOf(leaf))
    ensures CallOf(feed, Message(WithSessionExchange(data, feed.exchange)))
  {
    hide Leaves, CallOf, WithSessionExchange, IsBinance, Naming.Answered, Naming.StreamsFor, Carried;
    forall leaf | leaf in Leaves(data) ensures CarriesFor(feed, SymbolOf(leaf)) {
      var a, stream :| a in feed.symbols && stream in Naming.StreamsFor(futures)(a)
                       && Naming.Answered(stream) == SymbolOf(leaf);
      AnswersAreCarried(feed.exchange, a, futures, stream);
    }
    RewrittenMessageConforms(feed, data);
  }

  /** `name` is what the answers on one of the feed's streams normalise to. */
  ghost predicate Subscribed(feed: Feed, futures: bool, name: string) {
    exists a, stream ::
      a in feed.symbols && stream in Naming.StreamsFor(futures)(a) && Naming.Answered(stream) == name
  }

  /** The placeholder that the program makes of every message of another exchange. */
  function Placeholder(time: u64): ParsedData {
    Single(Trade(UNREAD, "Unknown", 0.0, 0.0, false, time))
  }

  lemma PlaceholderConforms(feed: Feed, time: u64)
    requires !IsBinance(feed.exchange) && feed.symbols != []
    ensures CallOf(feed, Message(WithSessionExchange(Placeholder(time), feed.exchange)))
  {
    hide IsBinance;
    assert feed.symbols[0] in feed.symbols && Carried(feed.exchange, feed.symbols[0]) == UNREAD;
    assert Leaves(Placeholder(time)) == [Placeholder(time)];
    RewrittenMessageConforms(feed, Placeholder(time));
  }

  /** On the wire it is one packet for `UNKNOWN^USDT` with an item of price and quantity zero, under the
      name of the session. */
  lemma PlaceholderOnTheWire(exchange: string, time: u64, before: u64, after: u64, packets: seq<UdpPacket>,
                             nows: seq<u64>)
    requires Emits(Plan(WithSessionExchange(Placeholder(time), exchange)), before, after, packets, nows)
    ensures WireContent.OneDatagram(packets, before, nows, 1, UNREAD, exchange, Some(time), 16)
    ensures Clean(UNREAD) == "UNKNOWN^USDT" && Shows(ItemOf(packets[0].data[67..]), 0.0, 0.0, false)
  {
    hide Emits, HeadlineOf, Shows, ItemOf, Plan, Clean;
    var trade := Trade(UNREAD, exchange, 0.0, 0.0, false, time);
    assert WithSessionExchange(Placeholder(time), exchange) == Single(trade);
    WireContent.TradeOnTheWire(trade, before, after, packets, nows);
    NameTravels(UNREAD);
  }

  /** Every session only makes calls of its own feed. */
  ghost predicate Conforms(feeds: seq<Feed>, s: System) {
    && |s.sessions| == |feeds|
    && forall j, call :: 0 <= j < |feeds| && call in s.sessions[j].history ==> CallOf(feeds[j], call)
  }

  // ----- What the parser makes of a session's messages -----

  /** What the parser of the Binance exchanges can return for a message about `name`: a trade, an
      aggregate trade, an order-book update, a liquidation, or the three values of a mark-price
      update. */
  ghost predicate AnswerAbout(name: string, data: ParsedData) {
    match data
    case Single(trade) => trade.symbol == name
    case Batch(symbol, _, _, trades) => symbol == name && |trades| == 1 && data == AggregateTrade(trades[0])
    case OrderBook(symbol, _, _, _, _) => symbol == name
    case Liquidation(symbol, _, _, _, _, _) => symbol == name
    case Multi(_) =>
      exists exchange, mark, index, funding, time ::
        data == MarkPriceUpdate(name, exchange, mark, index, funding, time)
    case _ => false
  }

  /** What the parser can return to a session with this feed. */
  ghost predicate CanParse(feed: Feed, data: ParsedData) {
    if IsBinance(feed.exchange) then exists a :: a in feed.symbols && AnswerAbout(Carried(feed.exchange, a), data)
    else feed.symbols != [] && exists time :: data == Placeholder(time)
  }

  lemma AnswerLeaves(name: string, data: ParsedData)
    requires AnswerAbout(name, data)
    ensures forall leaf :: leaf in Leaves(data) ==> SymbolOf(leaf) == name
  {
    if data.Multi? {
      FlatGroupLosesNothing(data.items, "");
      assert Leaves(data) == LeavesOf(data.items) == data.items;
    } else {
      assert Leaves(data) == [data];
    }
  }

  /** Whatever the parser can return to a session becomes a message of the session. */
  lemma ParsedMessageConforms(feed: Feed, data: ParsedData)
    requires CanParse(feed, data)
    ensures CallOf(feed, Message(WithSessionExchange(data, feed.exchange)))
  {
    hide CallOf, Leaves, WithSessionExchange, IsBinance, Carried, AnswerAbout, Placeholder;
    if IsBinance(feed.exchange) {
      var a :| a in feed.symbols && AnswerAbout(Carried(feed.exchange, a), data);
      AnswerLeaves(Carried(feed.exchange, a), data);
      RewrittenMessageConforms(feed, data);
    } else {
      var time :| data == Placeholder(time);
      PlaceholderConforms(feed, time);
    }
  }

  /** A call that the program makes in a session with this feed: what the parser returned, under the
      session's name, or a system event. */
  ghost predicate Produces(feed: Feed, call: Call) {
    match call
    case Message(data) => exists parsed :: CanParse(feed, parsed) && data == WithSessionExchange(parsed, feed.exchange)
    case Event(symbol, exchange, messageType, payload) => messageType >= FIRST_EVENT
  }

  /** Every session only makes calls that the program makes. */
  ghost predicate Produced(feeds: seq<Feed>, s: System) {
    && |s.sessions| == |feeds|
    && forall j, call :: 0 <= j < |feeds| && call in s.sessions[j].history ==> Produces(feeds[j], call)
  }

  lemma ProducedConforms(feeds: seq<Feed>, s: System)
    requires Produced(feeds, s)
    ensures Conforms(feeds, s)
  {
    hide CallOf, CanParse, WithSessionExchange;
    forall j, call | 0 <= j < |feeds| && call in s.sessions[j].history ensures CallOf(feeds[j], call) {
      assert Produces(feeds[j], call);
      ProducedCall(feeds[j], call);
    }
  }

  lemma ProducedCall(feed: Feed, call: Call)
    requires Produces(feed, call)
    ensures CallOf(feed, call)
  {
    hide CanParse, WithSessionExchange;
    if call.Message? {
      var parsed :| CanParse(feed, parsed) && call.data == WithSessionExchange(parsed, feed.exchange);
      ParsedMessageConforms(feed, parsed);
    }
  }

  // ----- Telling sessions apart -----

  /** Two configured symbols travel under the same name. */
  predicate SameNames(f: Feed, a: string, g: Feed, b: string) {
    Clean(f.exchange) == Clean(g.exchange) && Clean(Carried(f.exchange, a)) == Clean(Carried(g.exchange, b))
  }

  /** No two heard sessions have symbols that travel under the same name. */
  ghost predicate TellApart(feeds: seq<Feed>, listens: set<u16>) {
    forall i, j, a, b ::
      0 <= i < |feeds| && 0 <= j < |feeds| && i != j && feeds[i].port in listens && feeds[j].port in listens
      && a in feeds[i].symbols && b in feeds[j].symbols
      ==> !SameNames(feeds[i], a, feeds[j], b)
  }

  function KeyOf(feed: Feed, symbol: string, messageType: u8): Key {
    Key(Clean(feed.exchange), Clean(Carried(feed.exchange, symbol)), messageType)
  }

  lemma UnitOfFeed(feed: Feed, call: Call, u: Unit)
    requires CallOf(feed, call) && u in CallUnits(call)
    ensures u.key.messageType >= FIRST_EVENT
         || exists a :: a in feed.symbols && u.key == KeyOf(feed, a, u.key.messageType)
  {
    hide LeafPayload, Leaves, Clean, Carried;
    match call
    case Message(data) =>
      FlattenElements(LeafUnits, Leaves(data));
      var k :| 0 <= k < |Leaves(data)| && u in LeafUnits(Leaves(data)[k]);
      var leaf := Leaves(data)[k];
      assert leaf in Leaves(data) && CarriesFor(feed, SymbolOf(leaf));
      var a :| a in feed.symbols && Carried(feed.exchange, a) == SymbolOf(leaf);
      assert u.key == KeyOf(feed, a, u.key.messageType);
    case Event(_, _, _, _) =>
  }

  /** A session whose names no other heard session shares owns all their keys. */
  lemma FeedOwnsItsKeys(feeds: seq<Feed>, listens: set<u16>, s: System, i: nat, symbol: string, messageType: u8)
    requires Conforms(feeds, s) && TellApart(feeds, listens)
    requires i < |feeds| && feeds[i].port in listens && symbol in feeds[i].symbols && messageType < FIRST_EVENT
    ensures OwnedBy(s, Ports(feeds), listens, i, KeyOf(feeds[i], symbol, messageType))
  {
    hide CallUnits, CallOf, Clean, Carried;
    var key := KeyOf(feeds[i], symbol, messageType);
    forall j, u |
      0 <= j < |s.sessions| && j != i && Ports(feeds)[j] in listens && u in HistoryUnits(s.sessions[j].history)
      ensures u.key != key
    {
      var history := s.sessions[j].history;
      FlattenElements(CallUnits, history);
      var k :| 0 <= k < |history| && u in CallUnits(history[k]);
      assert history[k] in history;
      UnitOfFeed(feeds[j], history[k], u);
      if u.key.messageType < FIRST_EVENT {
        var b :| b in feeds[j].symbols && u.key == KeyOf(feeds[j], b, u.key.messageType);
        assert !SameNames(feeds[i], symbol, feeds[j], b);
      }
    }
  }

  lemma FeedIsDelivered(feeds: seq<Feed>, listens: set<u16>, actions: seq<Action>, i: nat, symbol: string,
                        messageType: u8)
    requires TellApart(feeds, listens) && Run(|feeds|, actions).Some?
    requires Conforms(feeds, Run(|feeds|, actions).value)
    requires i < |feeds| && feeds[i].port in listens && symbol in feeds[i].symbols && messageType < FIRST_EVENT
    requires Lossless(Run(|feeds|, actions).value, i)
    ensures Delivered(feeds, listens, Run(|feeds|, actions).value, i, KeyOf(feeds[i], symbol, messageType))
  {
    hide Run, Reassemble, HeardBytes, MessagesFor, OwnedBy, TellApart, KeyOf;
    FeedOwnsItsKeys(feeds, listens, Run(|feeds|, actions).value, i, symbol, messageType);
    WireGivesBackMessages(Ports(feeds), listens, actions, i, KeyOf(feeds[i], symbol, messageType));
  }

  /** The receiver has the beginning of exactly the session's messages under the key, and all of them
      once the session is idle. */
  ghost predicate Delivered(feeds: seq<Feed>, listens: set<u16>, s: System, i: nat, key: Key) {
    && i < |s.sessions|
    && var got := Reassemble(HeardBytes(s, Ports(feeds), listens), key, []);
       && got <= MessagesFor(s.sessions[i].history, key)
       && (s.sessions[i].Idle() ==> got == MessagesFor(s.sessions[i].history, key))
  }

  // ----- From the configuration -----

  /** `groups` lists every exchange of the configuration exactly once: the program starts one session
      per configured line, going through the exchanges in some order. */
  ghost predicate Starts(groups: seq<Symbols.Group>, config: Symbols.Config) {
    Symbols.Lists(groups, config) && OncePerExchange(groups)
  }

  ghost predicate OncePerExchange(groups: seq<Symbols.Group>) {
    forall i, j :: 0 <= i < j < |groups| ==> groups[i].exchange != groups[j].exchange
  }

  lemma OnceInRest(groups: seq<Symbols.Group>, g: Symbols.Group)
    requires groups != [] && OncePerExchange(groups) && g in groups
    ensures OncePerExchange(groups[1..])
    ensures g == groups[0] || (g in groups[1..] && g.exchange != groups[0].exchange)
  {
    if g != groups[0] {
      var i :| 0 <= i < |groups| && groups[i] == g;
      assert groups[1..][i - 1] == g;
    }
  }

  /** A configured line: the k-th session of an exchange. */
  predicate IsLine(config: Symbols.Config, exchange: string, k: nat) {
    exchange in config && config[exchange].exchange == exchange && k < |config[exchange].sessions|
  }

  function LineFeed(config: Symbols.Config, exchange: string, k: nat): Feed
    requires IsLine(config, exchange, k)
  {
    FeedOf(exchange)(config[exchange].sessions[k])
  }

  /** The place of a configured line among the started sessions. */
  function IndexOf(groups: seq<Symbols.Group>, exchange: string, k: nat): nat {
    if groups == [] then k
    else if groups[0].exchange == exchange then k
    else |groups[0].sessions| + IndexOf(groups[1..], exchange, k)
  }

  lemma FeedsFirst(groups: seq<Symbols.Group>)
    requires groups != []
    ensures Feeds(groups) == FeedsOf(groups[0]) + Feeds(groups[1..])
  {
    MapFirst(FeedsOf, groups);
    FlattenFirst(FeedsOf(groups[0]), Map(FeedsOf, groups[1..]));
  }

  lemma {:induction false} LineIsStarted(groups: seq<Symbols.Group>, g: Symbols.Group, k: nat)
    requires OncePerExchange(groups) && g in groups && k < |g.sessions|
    ensures IndexOf(groups, g.exchange, k) < |Feeds(groups)|
    ensures Feeds(groups)[IndexOf(groups, g.exchange, k)] == FeedOf(g.exchange)(g.sessions[k])
    ensures LineAt(groups, IndexOf(groups, g.exchange, k)) == Some((g.exchange, k))
  {
    hide Feeds, OncePerExchange;
    FeedsFirst(groups);
    OnceInRest(groups, g);
    if groups[0] != g {
      LineIsStarted(groups[1..], g, k);
      hide FeedsOf;
      FeedsCount(groups[0]);
    }
  }

  /** The line that a place belongs to. */
  function LineAt(groups: seq<Symbols.Group>, i: nat): Option<(string, nat)> {
    if groups == [] then None
    else if i < |groups[0].sessions| then Some((groups[0].exchange, i))
    else LineAt(groups[1..], i - |groups[0].sessions|)
  }

  lemma FeedsCount(g: Symbols.Group)
    ensures |FeedsOf(g)| == |g.sessions|
  {
  }

  /** Every started session is one configured line. */
  lemma {:induction false} StartedIsLine(groups: seq<Symbols.Group>, i: nat) returns (g: Symbols.Group, k: nat)
    requires OncePerExchange(groups) && i < |Feeds(groups)|
    ensures g in groups && k < |g.sessions| && IndexOf(groups, g.exchange, k) == i
  {
    hide Feeds, OncePerExchange;
    NoGroupsNoFeeds();
    FeedsFirst(groups);
    FeedsCount(groups[0]);
    if i < |groups[0].sessions| {
      g, k := groups[0], i;
    } else {
      OnceInRest(groups, groups[0]);
      g, k := StartedIsLine(groups[1..], i - |groups[0].sessions|);
      OnceInRest(groups, g);
      DifferentExchange(groups, g);
    }
  }

  lemma DifferentExchange(groups: seq<Symbols.Group>, g: Symbols.Group)
    requires groups != [] && OncePerExchange(groups) && g in groups[1..]
    ensures g.exchange != groups[0].exchange
  {
    var n :| 0 <= n < |groups[1..]| && groups[1..][n] == g;
    assert groups[n + 1] == g;
  }

  lemma NoGroupsNoFeeds()
    ensures Feeds([]) == []
  {
  }

  /** No two configured lines on heard ports have symbols that travel under the same name. */
  ghost predicate LinesTellApart(config: Symbols.Config, listens: set<u16>) {
    forall e, k, f, l, a, b ::
      IsLine(config, e, k) && IsLine(config, f, l) && (e, k) != (f, l)
      && LineFeed(config, e, k).port in listens && LineFeed(config, f, l).port in listens
      && a in LineFeed(config, e, k).symbols && b in LineFeed(config, f, l).symbols
      ==> !SameNames(LineFeed(config, e, k), a, LineFeed(config, f, l), b)
  }

  lemma LineOf(groups: seq<Symbols.Group>, config: Symbols.Config, i: nat) returns (exchange: string, k: nat)
    requires Starts(groups, config) && i < |Feeds(groups)|
    ensures IsLine(config, exchange, k) && IndexOf(groups, exchange, k) == i
    ensures Feeds(groups)[i] == LineFeed(config, exchange, k)
  {
    hide Feeds, FeedsOf;
    var g;
    g, k := StartedIsLine(groups, i);
    exchange := g.exchange;
    LineIsStarted(groups, g, k);
  }

  lemma IndexOfLine(groups: seq<Symbols.Group>, config: Symbols.Config, exchange: string, k: nat)
    requires Starts(groups, config) && IsLine(config, exchange, k)
    ensures IndexOf(groups, exchange, k) < |Feeds(groups)|
    ensures Feeds(groups)[IndexOf(groups, exchange, k)] == LineFeed(config, exchange, k)
  {
    hide Feeds, FeedsOf;
    var g :| g in groups && g.exchange == exchange;
    LineIsStarted(groups, g, k);
  }

  /** Telling configured lines apart is telling started sessions apart, in whatever order they were
      started. */
  lemma LinesAreFeeds(groups: seq<Symbols.Group>, config: Symbols.Config, listens: set<u16>)
    requires Starts(groups, config)
    ensures LinesTellApart(config, listens) <==> TellApart(Feeds(groups), listens)
  {
    hide Feeds, SameNames;
    var feeds := Feeds(groups);
    if LinesTellApart(config, listens) {
      forall i, j, a, b |
        0 <= i < |feeds| && 0 <= j < |feeds| && i != j && feeds[i].port in listens && feeds[j].port in listens
        && a in feeds[i].symbols && b in feeds[j].symbols
        ensures !SameNames(feeds[i], a, feeds[j], b)
      {
        var e, k := LineOf(groups, config, i);
        var f, l := LineOf(groups, config, j);
      }
    }
    if TellApart(feeds, listens) {
      forall e, k, f, l, a, b |
        IsLine(config, e, k) && IsLine(config, f, l) && (e, k) != (f, l)
        && LineFeed(config, e, k).port in listens && LineFeed(config, f, l).port in listens
        && a in LineFeed(config, e, k).symbols && b in LineFeed(config, f, l).symbols
        ensures !SameNames(LineFeed(config, e, k), a, LineFeed(config, f, l), b)
      {
        IndexOfLine(groups, config, e, k);
        IndexOfLine(groups, config, f, l);
        LinesApart(groups, config, e, k, f, l);
      }
    }
  }

  lemma LinesApart(groups: seq<Symbols.Group>, config: Symbols.Config, e: string, k: nat, f: string, l: nat)
    requires Starts(groups, config) && IsLine(config, e, k) && IsLine(config, f, l) && (e, k) != (f, l)
    ensures IndexOf(groups, e, k) != IndexOf(groups, f, l)
  {
    var g :| g in groups && g.exchange == e;
    var h :| h in groups && h.exchange == f;
    LineIsStarted(groups, g, k);
    LineIsStarted(groups, h, l);
  }

  /** From any symbol file that parses, in whatever order its exchanges are started, over every
      interleaving and in every state: for every configured line on a heard port, every symbol of it
      and every kind of market data, if the lines on heard ports stay apart and the session lost
      nothing, the receiver has the beginning of exactly the session's messages under the symbol's
      carried name, and all of them once it is idle. */
  lemma ConfiguredSymbolsArrive(content: string, groups: seq<Symbols.Group>, listens: set<u16>,
                                actions: seq<Action>, exchange: string, k: nat, symbol: string, messageType: u8)
    requires Symbols.Read(content).Ok? && Starts(groups, Symbols.Read(content).value)
    requires exchange in Symbols.Read(content).value && k < |Symbols.Read(content).value[exchange].sessions|
    requires var session := Symbols.Read(content).value[exchange].sessions[k];
             symbol in session.symbols && session.port in listens && messageType < 100
    requires AsciiSymbols(Symbols.Read(content).value) && LinesTellApart(Symbols.Read(content).value, listens)
    requires Run(|Feeds(groups)|, actions).Some? && Conforms(Feeds(groups), Run(|Feeds(groups)|, actions).value)
    requires Lossless(Run(|Feeds(groups)|, actions).value, IndexOf(groups, exchange, k))
    ensures Delivered(Feeds(groups), listens, Run(|Feeds(groups)|, actions).value, IndexOf(groups, exchange, k),
                      Key(Clean(exchange), Clean(Carried(exchange, symbol)), messageType))
  {
    hide Symbols.Read, Feeds, Run, TellApart, LinesTellApart, Delivered, Conforms, Starts, Clean, Carried;
    var config := Symbols.Read(content).value;
    Symbols.ParsedIsPrintable(content, exchange);
    assert IsLine(config, exchange, k);
    IndexOfLine(groups, config, exchange, k);
    LinesAreFeeds(groups, config, listens);
    FeedIsDelivered(Feeds(groups), listens, actions, IndexOf(groups, exchange, k), symbol, messageType);
  }

  /** Every configured symbol is ASCII text, so that its letters change case as modelled. */
  ghost predicate AsciiSymbols(config: Symbols.Config) {
    forall e, k, a :: IsLine(config, e, k) && a in LineFeed(config, e, k).symbols ==> Naming.IsAscii(a)
  }

  // ----- Names that collide -----

  /** A trade of a symbol. Every Binance session subscribes to trades, and outside Binance this is the
      placeholder. */
  function TradeOf(feed: Feed, symbol: string): ParsedData {
    Single(Trade(Carried(feed.exchange, symbol), "Unknown", 0.0, 0.0, false, 0))
  }

  function TradeCall(feed: Feed, symbol: string): Call {
    Message(WithSessionExchange(TradeOf(feed, symbol), feed.exchange))
  }

  /** Every session can make such a trade. */
  lemma TradeIsProduced(feed: Feed, symbol: string)
    requires symbol in feed.symbols
    ensures Produces(feed, TradeCall(feed, symbol))
    ensures IsBinance(feed.exchange) ==>
              forall futures :: Naming.StreamOn(symbol)("trade") in Naming.StreamsFor(futures)(symbol)
    ensures !IsBinance(feed.exchange) ==> TradeOf(feed, symbol) == Placeholder(0)
  {
    hide IsBinance, WithSessionExchange, Naming.StreamSymbol, Naming.Normalize, Naming.Upper;
    var trade := TradeOf(feed, symbol);
    forall futures ensures Naming.StreamOn(symbol)("trade") in Naming.StreamsFor(futures)(symbol) {
      TradesAreSubscribed(symbol, futures);
    }
    if IsBinance(feed.exchange) {
      assert AnswerAbout(Carried(feed.exchange, symbol), trade);
    } else {
      assert trade == Placeholder(0);
    }
    assert CanParse(feed, trade);
  }

  lemma TradesAreSubscribed(symbol: string, futures: bool)
    ensures Naming.StreamOn(symbol)("trade") in Naming.StreamsFor(futures)(symbol)
  {
    hide Naming.StreamOn;
    assert Naming.Topics(futures)[0] == "trade";
    assert Naming.StreamsFor(futures)(symbol)[0] == Naming.StreamOn(symbol)("trade");
  }

  /** The trade is one packet and one message under the trade key of its symbol. */
  lemma TradeCallUnits(feed: Feed, symbol: string)
    ensures |CallPlan(TradeCall(feed, symbol))| == 1
    ensures exists payload :: CallUnits(TradeCall(feed, symbol)) == [Unit(KeyOf(feed, symbol, TRADE_TICK), payload)]
  {
    hide Clean, Carried, TradeItem, ItemBytes, ItemsBytes, Cut, TradeItems;
    var leaf: Leaf := Renamed(TradeOf(feed, symbol), feed.exchange);
    var items := TradeItems([leaf.trade]);
    SingleTrade(leaf.trade);
    CutLast(SubjectOf(leaf), items, 50);
    ItemsBytesOne(TradeItem(leaf.trade));
    ItemIsLong(TradeItem(leaf.trade));
    assert Leaves(leaf) == [leaf];
    assert Map(LeafUnits, [leaf]) == [LeafUnits(leaf)];
    FlattenOne(LeafUnits(leaf));
    assert CallUnits(TradeCall(feed, symbol)) == [Unit(KeyOf(feed, symbol, TRADE_TICK), LeafPayload(leaf))];
  }

  lemma ItemIsLong(item: Item)
    ensures ItemBytes(item) != []
  {
  }

  lemma OneHistory(n: nat, j: nat, call: Call)
    requires j < n && |CallPlan(call)| == 1
    ensures var s := LossCheck.AfterOne(Start(n), j, call);
            && |s.sessions| == n && s.sessions[j].history == [call]
            && forall k :: 0 <= k < n ==> s.sessions[k].Idle() && !s.sessions[k].lossy
                                          && (k != j ==> s.sessions[k].history == [])
  {
    hide CallPlan;
  }

  lemma OneMessage(call: Call, key: Key)
    requires exists payload :: CallUnits(call) == [Unit(key, payload)]
    ensures MessagesFor([call], key) != []
  {
    hide CallUnits;
    var payload :| CallUnits(call) == [Unit(key, payload)];
    assert Map(CallUnits, [call]) == [CallUnits(call)];
    FlattenOne(CallUnits(call));
    assert HistoryUnits([call]) == [Unit(key, payload)];
  }

  lemma NoMessages(key: Key)
    ensures MessagesFor([], key) == []
  {
    assert HistoryUnits([]) == [];
  }

  lemma OthersSilent(s: System, ports: seq<u16>, listens: set<u16>, j: nat, key: Key)
    requires |ports| == |s.sessions|
    requires forall k :: 0 <= k < |s.sessions| && k != j ==> s.sessions[k].history == []
    ensures OwnedBy(s, ports, listens, j, key)
  {
    assert HistoryUnits([]) == [];
  }

  /** A single trade of one session, sent while all others are silent. */
  lemma {:induction false} OneTradeArrives(feeds: seq<Feed>, listens: set<u16>, j: nat, b: string)
    requires j < |feeds| && feeds[j].port in listens && b in feeds[j].symbols
    ensures var call := TradeCall(feeds[j], b);
            |CallPlan(call)| == 1
    ensures var call := TradeCall(feeds[j], b);
            var s := LossCheck.AfterOne(Start(|feeds|), j, call);
            && Run(|feeds|, LossCheck.Build(j, call) + [Send(j)]) == Some(s)
            && Reassemble(HeardBytes(s, Ports(feeds), listens), KeyOf(feeds[j], b, TRADE_TICK), []) != []
  {
    hide Run, Reassemble, HeardBytes, LossCheck.Build, CallPlan, CallUnits, KeyOf, TradeCall, MessagesFor,
         LossCheck.AfterOne;
    var call := TradeCall(feeds[j], b);
    var key := KeyOf(feeds[j], b, TRADE_TICK);
    var actions := LossCheck.Build(j, call) + [Send(j)];
    TradeCallUnits(feeds[j], b);
    OneMessage(call, key);
    RunNothing(|feeds|);
    StartIdle(|feeds|, j);
    LossCheck.OneGoesOut(|feeds|, [], Start(|feeds|), j, call);
    assert [] + LossCheck.Build(j, call) == LossCheck.Build(j, call);
    OneHistory(|feeds|, j, call);
    OthersSilent(LossCheck.AfterOne(Start(|feeds|), j, call), Ports(feeds), listens, j, key);
    assert Run(|feeds|, actions) == Some(LossCheck.AfterOne(Start(|feeds|), j, call));
    WireGivesBackMessages(Ports(feeds), listens, actions, j, key);
  }

  lemma StartIdle(n: nat, j: nat)
    requires j < n
    ensures |Start(n).sessions| == n && Start(n).sessions[j].Idle()
  {
  }

  /** In a run that the program can have, session `i` is at rest and lost nothing, and the receiver
      has other messages under its key. */
  ghost predicate Mixes(feeds: seq<Feed>, listens: set<u16>, i: nat, key: Key, actions: seq<Action>) {
    && Run(|feeds|, actions).Some?
    && var s := Run(|feeds|, actions).value;
       && Produced(feeds, s) && i < |s.sessions| && s.sessions[i].Idle() && !s.sessions[i].lossy
       && Reassemble(HeardBytes(s, Ports(feeds), listens), key, []) != MessagesFor(s.sessions[i].history, key)
  }

  /** The condition is exact: as soon as two heard sessions share a name, there is a run of the program
      in which the receiver gets, under the trade key of a lossless and idle session, a trade that
      session never had. */
  lemma {:induction false} SharedNamesMixMessages(feeds: seq<Feed>, listens: set<u16>, i: nat, j: nat,
                                                  a: string, b: string)
    requires i < |feeds| && j < |feeds| && i != j && feeds[i].port in listens && feeds[j].port in listens
    requires a in feeds[i].symbols && b in feeds[j].symbols && SameNames(feeds[i], a, feeds[j], b)
    ensures exists actions :: Mixes(feeds, listens, i, KeyOf(feeds[i], a, TRADE_TICK), actions)
  {
    hide Run, Reassemble, HeardBytes, LossCheck.Build, CallPlan, KeyOf, TradeCall, MessagesFor, LossCheck.AfterOne,
         SameNames, Produces;
    var call := TradeCall(feeds[j], b);
    SameKey(feeds[i], a, feeds[j], b, TRADE_TICK);
    NoMessages(KeyOf(feeds[i], a, TRADE_TICK));
    OneTradeArrives(feeds, listens, j, b);
    OneHistory(|feeds|, j, call);
    TradeIsProduced(feeds[j], b);
    assert Produced(feeds, LossCheck.AfterOne(Start(|feeds|), j, call));
    assert Mixes(feeds, listens, i, KeyOf(feeds[i], a, TRADE_TICK), LossCheck.Build(j, call) + [Send(j)]);
  }

  lemma SameKey(f: Feed, a: string, g: Feed, b: string, messageType: u8)
    requires SameNames(f, a, g, b)
    ensures KeyOf(f, a, messageType) == KeyOf(g, b, messageType)
  {
  }

  /** Some run of the program mixes market data of some kind for the receiver. */
  ghost predicate CanMix(feeds: seq<Feed>, listens: set<u16>, i: nat, a: string) {
    && i < |feeds| && feeds[i].port in listens && a in feeds[i].symbols
    && exists messageType: u8, actions ::
         messageType < FIRST_EVENT && Mixes(feeds, listens, i, KeyOf(feeds[i], a, messageType), actions)
  }

  lemma ApartNeverMixes(feeds: seq<Feed>, listens: set<u16>, i: nat, a: string)
    requires TellApart(feeds, listens)
    ensures !CanMix(feeds, listens, i, a)
  {
    hide Run, Reassemble, HeardBytes, MessagesFor, TellApart, KeyOf, Produced, Conforms;
    if CanMix(feeds, listens, i, a) {
      var messageType: u8, actions :|
        messageType < FIRST_EVENT && Mixes(feeds, listens, i, KeyOf(feeds[i], a, messageType), actions);
      ProducedConforms(feeds, Run(|feeds|, actions).value);
      FeedIsDelivered(feeds, listens, actions, i, a, messageType);
      assert false;
    }
  }

  lemma SharedNamesCanMix(feeds: seq<Feed>, listens: set<u16>, i: nat, j: nat, a: string, b: string)
    requires i < |feeds| && j < |feeds| && i != j && feeds[i].port in listens && feeds[j].port in listens
    requires a in feeds[i].symbols && b in feeds[j].symbols && SameNames(feeds[i], a, feeds[j], b)
    ensures CanMix(feeds, listens, i, a)
  {
    hide Mixes, SameNames, KeyOf;
    SharedNamesMixMessages(feeds, listens, i, j, a, b);
  }

  /** Whether the names of a configuration stay apart for a receiver decides whether it can ever, in
      any run of the program and for any kind of market data, take another session's message for one
      of a lossless session at rest. */
  lemma NamesDecide(feeds: seq<Feed>, listens: set<u16>)
    ensures TellApart(feeds, listens) <==> forall i, a :: !CanMix(feeds, listens, i, a)
  {
    hide CanMix, SameNames;
    if TellApart(feeds, listens) {
      forall i: nat, a ensures !CanMix(feeds, listens, i, a) {
        ApartNeverMixes(feeds, listens, i, a);
      }
    } else {
      var i, j, a, b :|
        0 <= i < |feeds| && 0 <= j < |feeds| && i != j && feeds[i].port in listens && feeds[j].port in listens
        && a in feeds[i].symbols && b in feeds[j].symbols && SameNames(feeds[i], a, feeds[j], b);
      SharedNamesCanMix(feeds, listens, i, j, a, b);
    }
  }

  // ----- Configurations that mix -----

  /** The same condition on the configuration: whether any two lines on heard ports travel under the
      same name decides whether the receiver can ever take another session's message for one of a
      lossless session at rest. */
  lemma ConfigurationDecides(groups: seq<Symbols.Group>, config: Symbols.Config, listens: set<u16>)
    requires Starts(groups, config) && AsciiSymbols(config)
    ensures LinesTellApart(config, listens) <==> forall i, a :: !CanMix(Feeds(groups), listens, i, a)
  {
    hide Feeds, TellApart, CanMix, LinesTellApart;
    LinesAreFeeds(groups, config, listens);
    NamesDecide(Feeds(groups), listens);
  }

  /** Two lines of a Binance exchange whose symbols differ only in carets and in the case of their
      letters always mix. */
  lemma SpellingsMix(feeds: seq<Feed>, listens: set<u16>, i: nat, j: nat, a: string, b: string)
    requires i < |feeds| && j < |feeds| && i != j && feeds[i].port in listens && feeds[j].port in listens
    requires a in feeds[i].symbols && b in feeds[j].symbols
    requires feeds[i].exchange == feeds[j].exchange && IsBinance(feeds[i].exchange)
    requires Naming.Upper(Filter(Naming.NoCaret, a)) == Naming.Upper(Filter(Naming.NoCaret, b))
    ensures CanMix(feeds, listens, i, a)
  {
    hide Clean, CanMix, Naming.Normalize, Naming.Upper;
    SharedNamesCanMix(feeds, listens, i, j, a, b);
  }

  /** Any two heard lines of an exchange outside Binance mix, whatever their symbols are. */
  lemma UnreadExchangesMix(feeds: seq<Feed>, listens: set<u16>, i: nat, j: nat, a: string, b: string)
    requires i < |feeds| && j < |feeds| && i != j && feeds[i].port in listens && feeds[j].port in listens
    requires a in feeds[i].symbols && b in feeds[j].symbols
    requires feeds[i].exchange == feeds[j].exchange && !IsBinance(feeds[i].exchange)
    ensures CanMix(feeds, listens, i, a)
  {
    hide Clean, CanMix, Naming.Normalize;
    SharedNamesCanMix(feeds, listens, i, j, a, b);
  }

  lemma WithoutCaret(coin: string, quote: string)
    requires '^' !in coin && '^' !in quote
    ensures Filter(Naming.NoCaret, coin + "^" + quote) == coin + quote == Filter(Naming.NoCaret, coin + quote)
  {
    FilterAll(Naming.NoCaret, coin);
    FilterAll(Naming.NoCaret, quote);
    FilterAll(Naming.NoCaret, coin + quote);
    FilterNone(Naming.NoCaret, "^");
    FilterAppend(Naming.NoCaret, coin, "^");
    FilterAppend(Naming.NoCaret, coin + "^", quote);
    hide Filter;
    assert coin + [] == coin;
  }

  /** A configured line for one symbol. */
  function LineFor(symbol: string, port: u16): Symbols.Session {
    Symbols.Session([symbol], Symbols.IsBtc([symbol]), port)
  }

  predicate IsName(s: string) {
    s != [] && '^' !in s && ',' !in s && '\n' !in s && forall c :: c in s ==> !IsWhite(c)
  }

  lemma LineIsPrintable(symbol: string, port: u16)
    requires Symbols.IsSymbol(symbol) && '\n' !in symbol
    ensures Symbols.PrintableSession(LineFor(symbol, port))
  {
  }

  lemma NamesMakeSymbols(coin: string, quote: string)
    requires IsName(coin) && IsName(quote)
    ensures Symbols.IsSymbol(coin + "^" + quote) && '\n' !in coin + "^" + quote
    ensures Symbols.IsSymbol(coin + quote) && '\n' !in coin + quote
  {
    assert coin[0] in coin && quote[|quote| - 1] in quote;
  }

  /** For every pair of names there is a file that parses and mixes: the pair with its caret on one
      line, without it on another, of the same port. */
  lemma TwoSpellingsMix(coin: string, quote: string, port: u16)
    requires IsName(coin) && IsName(quote)
    ensures var group := Symbols.Group("BinanceSpot", [LineFor(coin + "^" + quote, port), LineFor(coin + quote, port)]);
            var config := map[group.exchange := group];
            && Symbols.Read(Symbols.Print([group])) == Symbols.Ok(config) && Starts([group], config)
            && CanMix(Feeds([group]), {port}, 0, coin + "^" + quote)
  {
    var a, b := coin + "^" + quote, coin + quote;
    var group := Symbols.Group("BinanceSpot", [LineFor(a, port), LineFor(b, port)]);
    var config := map[group.exchange := group];
    NamesMakeSymbols(coin, quote);
    LineIsPrintable(a, port);
    LineIsPrintable(b, port);
    SpotIsBinance();
    hide LineFor, CanMix, Symbols.Read, Symbols.Print, Symbols.PrintableSession, Naming.Upper, Filter, IsBinance,
         Symbols.IsSymbol, IsName;
    assert Symbols.Printable(group) by { SpotIsOneLine(); }
    Symbols.RoundTrip([group], config);
    TwoFeeds(a, b, port);
    WithoutCaret(coin, quote);
    SpellingsMix(Feeds([group]), {port}, 0, 1, a, b);
  }

  lemma SpotIsBinance()
    ensures IsBinance("BinanceSpot")
  {
  }

  lemma SpotIsOneLine()
    ensures Symbols.OneLine("BinanceSpot")
  {
  }

  lemma TwoFeeds(a: string, b: string, port: u16)
    ensures var group := Symbols.Group("BinanceSpot", [LineFor(a, port), LineFor(b, port)]);
            Feeds([group]) == [Feed("BinanceSpot", [a], port), Feed("BinanceSpot", [b], port)]
  {
    var group := Symbols.Group("BinanceSpot", [LineFor(a, port), LineFor(b, port)]);
    FeedsFirst([group]);
    NoGroupsNoFeeds();
    assert [group][1..] == [];
  }

  /** For example `ETH^USDT` and `ETHUSDT`. */
  lemma EtherMixes(port: u16)
    ensures exists content :: Symbols.Read(content).Ok? &&
              exists groups :: Starts(groups, Symbols.Read(content).value)
                               && CanMix(Feeds(groups), {port}, 0, "ETH" + "^" + "USDT")
  {
    hide CanMix, Symbols.Read, Symbols.Print, Starts, Feeds, LineFor;
    TwoSpellingsMix("ETH", "USDT", port);
  }
}
