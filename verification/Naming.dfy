/** Symbol names on their way out to an exchange and back: configured symbol, stream name, stream
    list, address, and the normalised symbol of the answer. */
module Naming {
  import opened Sequences
  import opened Text

  // ----- Letters -----

  predicate IsAscii(s: string) {
    forall c :: c in s ==> c < 128 as char
  }

  function LowerChar(c: char): char {
    if 'A' <= c <= 'Z' then (c as int + 32) as char else c
  }

  function UpperChar(c: char): char {
    if 'a' <= c <= 'z' then (c as int - 32) as char else c
  }

  function Lower(s: string): string {
    Map(LowerChar, s)
  }

  function Upper(s: string): string {
    Map(UpperChar, s)
  }

  predicate IsUpper(s: string) {
    forall c :: c in s ==> !('a' <= c <= 'z')
  }

  lemma UpperLower(s: string)
    ensures Upper(Lower(s)) == Upper(s)
    ensures IsUpper(Upper(s))
    ensures IsUpper(s) <==> Upper(s) == s
  {
    assert Upper(Lower(s)) == Upper(s);
    forall c | c in Upper(s) ensures !('a' <= c <= 'z') {
    }
    if Upper(s) == s {
      assert IsUpper(s);
    } else {
      var i :| 0 <= i < |s| && Upper(s)[i] != s[i];
      assert s[i] in s;
    }
  }

  // ----- Normalising -----

  function Quotes(): seq<string> {
    ["USDT", "USDC", "BUSD", "BTC", "ETH", "BNB"]
  }

  function Before(s: string, suffix: string): string
    requires EndsWith(s, suffix)
  {
    s[..|s| - |suffix|]
  }

  function Marked(s: string, quote: string): string
    requires EndsWith(s, quote)
  {
    Before(s, quote) + "^" + quote
  }

  /** The symbol with a caret before its quote currency; an unknown quote leaves it alone. */
  function Normalize(symbol: string): string {
    var upper := Upper(symbol);
    if EndsWith(upper, "USDT") then Marked(upper, "USDT")
    else if EndsWith(upper, "USDC") then Marked(upper, "USDC")
    else if EndsWith(upper, "BUSD") then Marked(upper, "BUSD")
    else if EndsWith(upper, "BTC") then Marked(upper, "BTC")
    else if EndsWith(upper, "ETH") then Marked(upper, "ETH")
    else if EndsWith(upper, "BNB") then Marked(upper, "BNB")
    else symbol
  }

  /** The first quote of a list that ends the symbol. */
  function QuoteIn(order: seq<string>, upper: string): (r: Option<string>)
    ensures r.Some? ==> r.value in order && EndsWith(upper, r.value)
    ensures r.None? ==> forall q :: q in order ==> !EndsWith(upper, q)
  {
    if order == [] then None
    else if EndsWith(upper, order[0]) then Some(order[0])
    else QuoteIn(order[1..], upper)
  }

  function NormalizeBy(order: seq<string>, symbol: string): string {
    var quote := QuoteIn(order, Upper(symbol));
    if quote.None? then symbol else Marked(Upper(symbol), quote.value)
  }

  lemma QuotesByTail(p: string, q: string)
    requires p in Quotes() && q in Quotes()
    ensures |p| >= 2 && |q| >= 2
    ensures p[|p| - 2] == q[|q| - 2] && p[|p| - 1] == q[|q| - 1] ==> p == q
  {
  }

  /** No quote ends another one, so at most one quote ends a symbol. */
  lemma OneQuote(s: string, p: string, q: string)
    requires p in Quotes() && q in Quotes() && EndsWith(s, p) && EndsWith(s, q)
    ensures p == q
  {
    hide Quotes;
    QuotesByTail(p, q);
    assert s[|s| - |p|..][|p| - 1] == s[|s| - |q|..][|q| - 1];
    assert s[|s| - |p|..][|p| - 2] == s[|s| - |q|..][|q| - 2];
  }

  lemma QuoteInNext(quote: string, rest: seq<string>, upper: string)
    ensures QuoteIn([quote] + rest, upper) == if EndsWith(upper, quote) then Some(quote) else QuoteIn(rest, upper)
  {
    hide EndsWith;
    assert ([quote] + rest)[1..] == rest;
  }

  lemma NormalizeInOrder(symbol: string)
    ensures Normalize(symbol) == NormalizeBy(Quotes(), symbol)
  {
    hide Upper, Marked, EndsWith, QuoteIn;
    var upper := Upper(symbol);
    QuoteInNext("BNB", [], upper);
    QuoteInNext("ETH", ["BNB"], upper);
    QuoteInNext("BTC", ["ETH", "BNB"], upper);
    QuoteInNext("BUSD", ["BTC", "ETH", "BNB"], upper);
    QuoteInNext("USDC", ["BUSD", "BTC", "ETH", "BNB"], upper);
    QuoteInNext("USDT", ["USDC", "BUSD", "BTC", "ETH", "BNB"], upper);
    assert ["BNB"] + [] == ["BNB"];
    assert ["ETH"] + ["BNB"] == ["ETH", "BNB"];
    assert ["BTC"] + ["ETH", "BNB"] == ["BTC", "ETH", "BNB"];
    assert ["BUSD"] + ["BTC", "ETH", "BNB"] == ["BUSD", "BTC", "ETH", "BNB"];
    assert ["USDC"] + ["BUSD", "BTC", "ETH", "BNB"] == ["USDC", "BUSD", "BTC", "ETH", "BNB"];
    assert ["USDT"] + ["USDC", "BUSD", "BTC", "ETH", "BNB"] == Quotes();
    assert QuoteIn([], upper).None?;
  }

  /** The order of the six tests cannot matter. */
  lemma OrderDoesNotMatter(order: seq<string>, symbol: string)
    requires forall q :: q in order <==> q in Quotes()
    ensures NormalizeBy(order, symbol) == Normalize(symbol)
  {
    hide Quotes, Normalize, Upper, EndsWith, Marked;
    NormalizeInOrder(symbol);
    var upper := Upper(symbol);
    var mine, theirs := QuoteIn(order, upper), QuoteIn(Quotes(), upper);
    if mine.Some? && theirs.Some? {
      OneQuote(upper, mine.value, theirs.value);
    }
  }

  lemma EndsWithLast(s: string, ending: string)
    requires ending != []
    ensures EndsWith(s + ending, ending) && Before(s + ending, ending) == s
    ensures EndsWith(s, ending) ==> s[|s| - 1] == ending[|ending| - 1]
  {
  }

  lemma EndsWithNext(s: string, ending: string, c: char)
    ensures EndsWith(s + [c], ending + [c]) <==> EndsWith(s, ending)
  {
    if EndsWith(s + [c], ending + [c]) {
      var tail := (s + [c])[|s| - |ending|..];
      assert tail == ending + [c] && tail[..|ending|] == ending && tail[..|ending|] == s[|s| - |ending|..];
    }
    if EndsWith(s, ending) {
      assert (s + [c])[|s| - |ending|..] == s[|s| - |ending|..] + [c];
    }
  }

  lemma NormalizeWithQuote(symbol: string, quote: string)
    requires quote in Quotes() && EndsWith(Upper(symbol), quote)
    ensures Normalize(symbol) == Marked(Upper(symbol), quote)
  {
    hide Quotes, Normalize, Upper, EndsWith, Marked;
    NormalizeInOrder(symbol);
    OneQuote(Upper(symbol), quote, QuoteIn(Quotes(), Upper(symbol)).value);
  }

  /** A symbol that ends in one of the six quotes, in whatever case, gets its caret before it, in capitals;
      any other symbol stays as it is. */
  lemma KnownQuotesAreMarked(symbol: string, coin: string, quote: string)
    ensures quote in ["USDT", "USDC", "BUSD", "BTC", "ETH", "BNB"] && Upper(symbol) == coin + quote ==>
              Normalize(symbol) == coin + "^" + quote
    ensures (forall q :: q in ["USDT", "USDC", "BUSD", "BTC", "ETH", "BNB"] ==> !EndsWith(Upper(symbol), q)) ==>
              Normalize(symbol) == symbol
  {
    hide Normalize, Upper, Marked;
    NormalizeInOrder(symbol);
    if quote in Quotes() && Upper(symbol) == coin + quote {
      EndsWithLast(coin, quote);
      NormalizeWithQuote(symbol, quote);
      MarkedIs(coin, quote);
    }
  }

  lemma MarkedIs(coin: string, quote: string)
    requires quote in Quotes()
    ensures EndsWith(coin + quote, quote) && Marked(coin + quote, quote) == coin + "^" + quote
  {
    hide EndsWith, Before;
    EndsWithLast(coin, quote);
  }

  // ----- Stream names -----

  predicate NoCaret(c: char) {
    c != '^'
  }

  /** The exchange's own spelling of a configured symbol. */
  function StreamSymbol(symbol: string): string {
    Lower(Filter(NoCaret, symbol))
  }

  function Topics(futures: bool): seq<string> {
    ["trade", if futures then "depth@0ms" else "depth"]
    + if futures then ["markPrice@1s", "forceOrder"] else []
  }

  function StreamOn(symbol: string): string -> string {
    (topic: string) => StreamSymbol(symbol) + "@" + topic
  }

  function StreamsFor(futures: bool): string -> seq<string> {
    (symbol: string) => Map(StreamOn(symbol), Topics(futures))
  }

  /** The exchange's spelling has no caret and no capital letter, and is otherwise the symbol. */
  lemma StreamSymbolIsLower(symbol: string)
    ensures forall c :: c in StreamSymbol(symbol) ==> c != '^' && !('A' <= c <= 'Z')
    ensures Upper(StreamSymbol(symbol)) == Upper(Filter(NoCaret, symbol))
  {
    var bare := Filter(NoCaret, symbol);
    UpperLower(bare);
    forall c | c in Lower(bare) ensures c != '^' && !('A' <= c <= 'Z') {
      var i :| 0 <= i < |bare| && Lower(bare)[i] == c;
      assert bare[i] in bare && NoCaret(bare[i]);
    }
  }

  /** The streams of a symbol: trades and order book, and for futures also mark price and liquidations. */
  lemma SubscribedStreams(symbol: string)
    ensures var name := StreamSymbol(symbol);
            && StreamsFor(false)(symbol) == [name + "@trade", name + "@depth"]
            && StreamsFor(true)(symbol)
            == [name + "@trade", name + "@depth@0ms", name + "@markPrice@1s", name + "@forceOrder"]
  {
    hide StreamSymbol;
    var name := StreamSymbol(symbol);
    StreamParts(name);
  }

  lemma StreamParts(name: string)
    ensures name + "@" + "trade" == name + "@trade" && name + "@" + "depth" == name + "@depth"
    ensures name + "@" + "depth@0ms" == name + "@depth@0ms" && name + "@" + "markPrice@1s" == name + "@markPrice@1s"
    ensures name + "@" + "forceOrder" == name + "@forceOrder"
  {
    assert "@" + "trade" == "@trade" && "@" + "depth" == "@depth" && "@" + "depth@0ms" == "@depth@0ms";
    assert "@" + "markPrice@1s" == "@markPrice@1s" && "@" + "forceOrder" == "@forceOrder";
    Regroup(name, "@", "trade");
    Regroup(name, "@", "depth");
    Regroup(name, "@", "depth@0ms");
    Regroup(name, "@", "markPrice@1s");
    Regroup(name, "@", "forceOrder");
  }

  method BuildStreams(symbols: seq<string>, futures: bool) returns (streams: seq<string>)
    ensures streams == Flatten(Map(StreamsFor(futures), symbols))
  {
    hide StreamsFor;
    streams := [];
    var i := 0;
    while i < |symbols|
      invariant 0 <= i <= |symbols|
      invariant streams == Flatten(Map(StreamsFor(futures), symbols[..i]))
    {
      ghost var before := streams;
      streams := PushStreams(streams, symbols[i], futures);
      assert Map(StreamsFor(futures), symbols[..i + 1])
          == Map(StreamsFor(futures), symbols[..i]) + [StreamsFor(futures)(symbols[i])];
      FlattenAppend(Map(StreamsFor(futures), symbols[..i]), [StreamsFor(futures)(symbols[i])]);
      FlattenOne(StreamsFor(futures)(symbols[i]));
      i := i + 1;
    }
    assert symbols[..i] == symbols;
  }

  method PushStreams(before: seq<string>, symbol: string, futures: bool) returns (streams: seq<string>)
    ensures streams == before + StreamsFor(futures)(symbol)
  {
    hide StreamSymbol;
    var name := StreamSymbol(symbol);
    var tradeTopic, depthTopic := "trade", if futures then "depth@0ms" else "depth";
    streams := before + [name + "@" + tradeTopic];
    streams := streams + [name + "@" + depthTopic];
    if futures {
      streams := streams + [name + "@" + "markPrice@1s"];
      streams := streams + [name + "@" + "forceOrder"];
    }
    assert streams == before + Map(StreamOn(symbol), Topics(futures));
  }

  /** The symbol in the answers of a stream: the part before the first `@`, in capitals. */
  function AnswerSymbol(stream: string): string {
    var parts := SplitOnce('@', stream);
    Upper(if parts.None? then stream else parts.value.0)
  }

  /** The configured symbols that survive the way out and back: capitals, and either one caret
      before one of the six quotes or no caret and no such quote at the end. */
  ghost predicate Canonical(symbol: string) {
    && IsUpper(symbol)
    && (|| (exists coin, quote :: IsPair(symbol, coin, quote))
        || ('^' !in symbol && forall q :: q in Quotes() ==> !EndsWith(symbol, q)))
  }

  predicate IsPair(symbol: string, coin: string, quote: string) {
    quote in Quotes() && '^' !in coin && symbol == coin + "^" + quote
  }

  lemma QuotesArePlain(quote: string)
    requires quote in Quotes()
    ensures '^' !in quote && IsUpper(quote)
  {
  }

  lemma PairSurvives(symbol: string, coin: string, quote: string)
    requires IsPair(symbol, coin, quote) && IsUpper(symbol)
    ensures Normalize(Upper(Filter(NoCaret, symbol))) == symbol
  {
    hide Quotes, Normalize, Upper;
    QuotesArePlain(quote);
    FilterAppend(NoCaret, coin + "^", quote);
    FilterAppend(NoCaret, coin, "^");
    FilterAll(NoCaret, coin);
    FilterAll(NoCaret, quote);
    FilterNone(NoCaret, "^");
    assert coin + [] == coin;
    var bare := coin + quote;
    assert Filter(NoCaret, symbol) == bare;
    UpperLower(bare);
    assert Upper(bare) == bare;
    assert EndsWith(bare, quote) && Before(bare, quote) == coin;
    NormalizeWithQuote(bare, quote);
  }

  lemma CaretFree(symbol: string)
    ensures '^' !in Upper(Filter(NoCaret, symbol))
    ensures '^' !in symbol ==> Filter(NoCaret, symbol) == symbol
  {
    if '^' !in symbol {
      FilterAll(NoCaret, symbol);
    }
  }

  /** Out and back again: the symbol of every answer of a stream of a configured symbol
      normalises to the configured symbol exactly when that is canonical. */
  lemma SurvivesExactlyWhenCanonical(symbol: string)
    requires IsAscii(symbol)
    ensures Normalize(Upper(Filter(NoCaret, symbol))) == symbol <==> Canonical(symbol)
  {
    var answer := Upper(Filter(NoCaret, symbol));
    UpperLower(Filter(NoCaret, symbol));
    UpperLower(answer);
    UpperLower(symbol);
    CaretFree(symbol);
    NormalizeInOrder(answer);
    var quote := QuoteIn(Quotes(), answer);
    hide Quotes, Normalize, Upper, QuoteIn, Filter;
    if Normalize(answer) == symbol && quote.Some? {
      QuotesArePlain(quote.value);
      assert forall c :: c in Before(answer, quote.value) ==> c in answer;
      assert IsPair(symbol, Before(answer, quote.value), quote.value);
      assert IsUpper(symbol);
    }
    if coin, q :| IsPair(symbol, coin, q) && IsUpper(symbol) {
      PairSurvives(symbol, coin, q);
    }
  }

  lemma AnswerOf(symbol: string, topic: string)
    requires '@' !in symbol
    ensures AnswerSymbol(StreamOn(symbol)(topic)) == Upper(Filter(NoCaret, symbol))
  {
    var bare := Filter(NoCaret, symbol);
    UpperLower(bare);
    LowerKeeps(bare, '@');
    hide Filter, Lower, Upper, SplitOnce;
    var name := StreamSymbol(symbol);
    assert StreamOn(symbol)(topic) == name + ['@'] + topic;
    SplitOnceAt('@', name, topic);
  }

  /** All stream names of a symbol lead back to its bare name in capitals. */
  lemma StreamsAnswer(symbol: string, futures: bool)
    requires '@' !in symbol
    ensures Map(AnswerSymbol, StreamsFor(futures)(symbol))
         == seq(|Topics(futures)|, _ => Upper(Filter(NoCaret, symbol)))
  {
    hide StreamOn, AnswerSymbol, Filter, Upper, Topics;
    forall i | 0 <= i < |Topics(futures)|
      ensures AnswerSymbol(StreamsFor(futures)(symbol)[i]) == Upper(Filter(NoCaret, symbol))
    {
      AnswerOf(symbol, Topics(futures)[i]);
    }
  }

  lemma LowerKeeps(s: string, c: char)
    requires c !in s && !('a' <= c <= 'z')
    ensures c !in Lower(s)
  {
  }

  // ----- The address -----

  predicate OccursAt(s: string, pattern: string, i: nat) {
    i + |pattern| <= |s| && s[i..i + |pattern|] == pattern
  }

  /** Every occurrence replaced, from left to right, without overlaps. */
  function Replace(s: string, pattern: string, with: string): string
    requires pattern != []
  {
    if s == [] then []
    else if StartsWith(s, pattern) then with + Replace(s[|pattern|..], pattern, with)
    else [s[0]] + Replace(s[1..], pattern, with)
  }

  /** The combined-stream address. A base for single streams has its suffix replaced. */
  function Url(base: string, streams: seq<string>): string {
    var list := "streams=" + Join("/", streams);
    if EndsWith(base, "/ws/") then Replace(base, "/ws/", "/stream?") + list
    else if EndsWith(base, "/ws") then Replace(base, "/ws", "/stream?") + list
    else if EndsWith(base, "/stream") || EndsWith(base, "/stream/") then
      base + (if EndsWith(base, "/") then "" else "/") + "?" + list
    else base + (if EndsWith(base, "/") then "" else "/") + "stream?" + list
  }

  predicate IsFutures(base: string) {
    exists i :: 0 <= i <= |base| && OccursAt(base, "fstream.binance.com", i)
  }

  /** A base address is for futures exactly when the futures host occurs in it. */
  lemma FuturesHostDecides(base: string)
    ensures IsFutures(base) <==> exists before, after :: base == before + "fstream.binance.com" + after
  {
    var host := "fstream.binance.com";
    if IsFutures(base) {
      var i :| 0 <= i <= |base| && OccursAt(base, host, i);
      assert base == base[..i] + base[i..i + |host|] + base[i + |host|..];
    }
    if before, after :| base == before + host + after {
      assert base[|before|..|before| + |host|] == host;
      assert OccursAt(base, host, |before|);
    }
  }

  method BuildUrl(base: string, symbols: seq<string>) returns (url: string)
    ensures url == Url(base, Flatten(Map(StreamsFor(IsFutures(base)), symbols)))
  {
    hide Replace, EndsWith, Join, StreamsFor, IsFutures;
    var streams := BuildStreams(symbols, IsFutures(base));
    var list := "streams=" + Join("/", streams);
    if EndsWith(base, "/ws/") {
      url := Replace(base, "/ws/", "/stream?") + list;
    } else if EndsWith(base, "/ws") {
      url := Replace(base, "/ws", "/stream?") + list;
    } else if EndsWith(base, "/stream") || EndsWith(base, "/stream/") {
      url := base + (if EndsWith(base, "/") then "" else "/") + "?" + list;
    } else {
      url := base + (if EndsWith(base, "/") then "" else "/") + "stream?" + list;
    }
  }

  /** The same address with the suffix alone replaced. */
  function UrlMeant(base: string, streams: seq<string>): string {
    var list := "streams=" + Join("/", streams);
    if EndsWith(base, "/ws/") then Before(base, "/ws/") + "/stream?" + list
    else if EndsWith(base, "/ws") then Before(base, "/ws") + "/stream?" + list
    else Url(base, streams)
  }

  ghost predicate OnlyAtEnd(s: string, pattern: string) {
    forall i :: 0 <= i < |s| - |pattern| ==> !OccursAt(s, pattern, i)
  }

  predicate IsSocketPath(pattern: string) {
    |pattern| >= 3 && pattern[0] == '/' && pattern[1] == 'w'
  }

  lemma OnlyAtEndTail(s: string, pattern: string)
    requires |s| > |pattern|
    ensures OnlyAtEnd(s, pattern) <==> !StartsWith(s, pattern) && OnlyAtEnd(s[1..], pattern)
  {
    forall i | 0 <= i < |s| - |pattern| ensures OccursAt(s[1..], pattern, i) == OccursAt(s, pattern, i + 1) {
      assert s[1..][i..i + |pattern|] == s[i + 1..i + 1 + |pattern|];
    }
    if OnlyAtEnd(s, pattern) {
      assert !OccursAt(s, pattern, 0);
      forall i | 0 <= i < |s[1..]| - |pattern| ensures !OccursAt(s[1..], pattern, i) {
        assert !OccursAt(s, pattern, i + 1);
      }
    } else {
      var i :| 0 <= i < |s| - |pattern| && OccursAt(s, pattern, i);
      if i > 0 {
        assert OccursAt(s[1..], pattern, i - 1);
      }
    }
  }

  lemma EarlyMatch(s: string, pattern: string, with: string, rest: string)
    requires IsSocketPath(pattern) && EndsWith(s, pattern) && |with| >= 2 && with[1] != 'w'
    requires StartsWith(s, pattern) && |s| > |pattern|
    ensures with + rest != Before(s, pattern) + with
  {
    assert (with + rest)[1] == with[1];
    assert s[|s| - |pattern|..][0] == '/';
    assert (Before(s, pattern) + with)[1] == 'w';
  }

  lemma NoMatchYet(s: string, pattern: string, with: string, tail: string)
    requires EndsWith(s, pattern) && |s| > |pattern|
    ensures EndsWith(s[1..], pattern)
    ensures [s[0]] + tail == Before(s, pattern) + with <==> tail == Before(s[1..], pattern) + with
  {
    assert s[1..][|s| - 1 - |pattern|..] == s[|s| - |pattern|..];
    assert Before(s, pattern) == [s[0]] + Before(s[1..], pattern);
    Regroup([s[0]], Before(s[1..], pattern), with);
    hide EndsWith, Before;
    SameTail([s[0]], tail, Before(s[1..], pattern) + with);
  }

  lemma WholeMatch(s: string, pattern: string, with: string)
    requires EndsWith(s, pattern) && |s| == |pattern| > 0
    ensures Replace(s, pattern, with) == with == Before(s, pattern) + with
  {
    assert s == pattern && s[|pattern|..] == [];
    assert Replace([], pattern, with) == [];
  }

  /** Replacing everywhere replaces the suffix alone exactly when the pattern is nowhere else. */
  lemma {:induction false} ReplaceSuffix(s: string, pattern: string, with: string)
    requires IsSocketPath(pattern) && EndsWith(s, pattern) && |with| >= 2 && with[1] != 'w'
    ensures Replace(s, pattern, with) == Before(s, pattern) + with <==> OnlyAtEnd(s, pattern)
  {
    if |s| == |pattern| {
      WholeMatch(s, pattern, with);
    } else {
      OnlyAtEndTail(s, pattern);
      NoMatchYet(s, pattern, with, Replace(s[1..], pattern, with));
      if StartsWith(s, pattern) {
        EarlyMatch(s, pattern, with, Replace(s[|pattern|..], pattern, with));
        hide OnlyAtEnd, EndsWith, Before, StartsWith, IsSocketPath;
      } else {
        hide OnlyAtEnd, EndsWith, Before, StartsWith, IsSocketPath;
        ReplaceSuffix(s[1..], pattern, with);
      }
    }
  }

  ghost predicate SuffixStandsAlone(base: string) {
    if EndsWith(base, "/ws/") then OnlyAtEnd(base, "/ws/")
    else EndsWith(base, "/ws") ==> OnlyAtEnd(base, "/ws")
  }

  /** A base for single streams becomes the combined-stream address of the same host exactly when
      its `/ws` suffix occurs nowhere else in it; a host name that begins with `ws` breaks it. */
  lemma UrlAsMeant(base: string, streams: seq<string>)
    ensures Url(base, streams) == UrlMeant(base, streams) <==> SuffixStandsAlone(base)
  {
    hide EndsWith, Replace, Before, Join, OnlyAtEnd;
    var list := "streams=" + Join("/", streams);
    if EndsWith(base, "/ws/") {
      ReplacedBase(base, "/ws/", list);
    } else if EndsWith(base, "/ws") {
      ReplacedBase(base, "/ws", list);
    }
  }

  /** The ends of an address that the program looks for. */
  datatype Ends = Ends(slash: bool, ws: bool, wsSlash: bool, stream: bool, streamSlash: bool)

  function EndsOf(base: string): Ends {
    Ends(EndsWith(base, "/"), EndsWith(base, "/ws"), EndsWith(base, "/ws/"), EndsWith(base, "/stream"),
         EndsWith(base, "/stream/"))
  }

  /** A base with a final slash ends like the base, and the slash. */
  lemma SlashEnds(base: string)
    requires base == [] || base[|base| - 1] != '/'
    ensures var e := EndsOf(base);
            !e.slash && !e.wsSlash && !e.streamSlash && !(e.ws && e.stream)
            && EndsOf(base + "/") == Ends(true, false, e.ws, false, e.stream)
  {
    hide EndsWith;
    EndsWithLast(base, "/");
    EndsWithLast(base, "/ws");
    EndsWithLast(base, "/stream");
    EndsWithLast(base, "/ws/");
    EndsWithLast(base, "/stream/");
    EndsWithLast(base + "/", "/ws");
    EndsWithLast(base + "/", "/stream");
    assert "/ws" + ['/'] == "/ws/" && "/stream" + ['/'] == "/stream/" && base + ['/'] == base + "/";
    EndsWithNext(base, "/ws", '/');
    EndsWithNext(base, "/stream", '/');
    if base == [] {
      NothingEnds();
    }
  }

  lemma NothingEnds()
    ensures !EndsWith([], "/") && !EndsWith([], "/ws") && !EndsWith([], "/stream")
    ensures !EndsWith([], "/ws/") && !EndsWith([], "/stream/")
  {
  }

  lemma UrlWithoutSocket(base: string, streams: seq<string>)
    requires !EndsOf(base).ws && !EndsOf(base).wsSlash
    ensures var e := EndsOf(base);
            Url(base, streams)
            == base + (if e.slash then "" else "/") + (if e.stream || e.streamSlash then "?" else "stream?")
               + ("streams=" + Join("/", streams))
  {
    hide Join, Replace, EndsWith;
  }

  /** The address for a base without a socket path, with or without a final slash: the stream path is
      added unless it is there. */
  lemma PlainAddress(base: string, streams: seq<string>)
    requires (base == [] || base[|base| - 1] != '/') && !EndsOf(base).ws
    ensures var address := base + "/" + (if EndsOf(base).stream then "?" else "stream?")
                           + ("streams=" + Join("/", streams));
            Url(base, streams) == address == Url(base + "/", streams)
  {
    hide Join, EndsWith, Url, EndsOf;
    SlashEnds(base);
    UrlWithoutSocket(base, streams);
    UrlWithoutSocket(base + "/", streams);
    assert base + "/" + "" == base + "/";
  }

  /** The address for a base with a socket path, with or without a final slash: the stream path takes its
      place, provided the socket path stands nowhere else. */
  lemma SocketAddress(root: string, streams: seq<string>)
    ensures OnlyAtEnd(root + "/ws", "/ws") ==>
              Url(root + "/ws", streams) == root + "/stream?" + "streams=" + Join("/", streams)
    ensures OnlyAtEnd(root + "/ws/", "/ws/") ==>
              Url(root + "/ws/", streams) == root + "/stream?" + "streams=" + Join("/", streams)
  {
    hide Join, Replace, OnlyAtEnd, EndsWith, Before;
    EndsWithLast(root, "/ws");
    EndsWithLast(root, "/ws/");
    UrlAsMeant(root + "/ws", streams);
    UrlAsMeant(root + "/ws/", streams);
    NotSlashed(root);
    Regroup(root + "/stream?", "streams=", Join("/", streams));
  }

  lemma NotSlashed(root: string)
    ensures !EndsWith(root + "/ws", "/ws/")
  {
    EndsWithLast(root + "/ws", "/ws/");
  }

  /** For a base that is a host and `/ws`, the host decides: the address is as meant exactly when it
      does not begin with `ws`. */
  lemma HostDecides(host: string, streams: seq<string>)
    requires '/' !in host
    ensures var base := "wss://" + host + "/ws";
            Url(base, streams) == UrlMeant(base, streams) <==> !StartsWith(host, "ws")
  {
    hide Url, UrlMeant;
    var base := "wss://" + host + "/ws";
    UrlAsMeant(base, streams);
    assert base[|base| - 1] == 's' && base[|base| - 3..] == "/ws";
    HostOccurrences(host);
  }

  lemma HostOccurrences(host: string)
    requires '/' !in host
    ensures OnlyAtEnd("wss://" + host + "/ws", "/ws") <==> !StartsWith(host, "ws")
  {
    var base := "wss://" + host + "/ws";
    forall i | 0 <= i < |base| - 3 ensures OccursAt(base, "/ws", i) <==> i == 5 && StartsWith(host, "ws") {
      assert i >= 6 ==> base[i] == host[i - 6] && host[i - 6] in host;
      PatternAt(base, i);
    }
    assert StartsWith(host, "ws") ==> OccursAt(base, "/ws", 5);
  }

  lemma PatternAt(s: string, i: nat)
    requires i + 3 <= |s|
    ensures OccursAt(s, "/ws", i) <==> s[i] == '/' && s[i + 1] == 'w' && s[i + 2] == 's'
  {
    assert s[i..i + 3] == [s[i], s[i + 1], s[i + 2]];
  }

  /** Such a host, whatever follows. */
  lemma HostBeginningWithWs(host: string, streams: seq<string>)
    ensures Url("wss://ws" + host + "/ws", streams) != UrlMeant("wss://ws" + host + "/ws", streams)
  {
    var base := "wss://ws" + host + "/ws";
    assert base[|base| - 1] == 's' && base[|base| - 3..] == "/ws";
    assert OccursAt(base, "/ws", 5);
    UrlAsMeant(base, streams);
  }

  lemma ReplacedBase(base: string, pattern: string, list: string)
    requires IsSocketPath(pattern) && EndsWith(base, pattern)
    ensures Replace(base, pattern, "/stream?") + list == Before(base, pattern) + "/stream?" + list
            <==> OnlyAtEnd(base, pattern)
  {
    ReplaceSuffix(base, pattern, "/stream?");
    hide EndsWith, Replace, Before, OnlyAtEnd;
    CancelEnd(Replace(base, pattern, "/stream?"), Before(base, pattern) + "/stream?", list);
  }

  lemma CancelEnd(a: string, b: string, c: string)
    ensures a + c == b + c <==> a == b
  {
    if a + c == b + c {
      assert (a + c)[..|a|] == a && (b + c)[..|b|] == b;
    }
  }

  // ----- Out and back -----

  const LIST_KEY := "streams="

  function StemOf(base: string): string {
    if EndsWith(base, "/ws/") then Before(base, "/ws/") + "/stream"
    else if EndsWith(base, "/ws") then Before(base, "/ws") + "/stream"
    else
      base + (if EndsWith(base, "/") then "" else "/")
      + (if EndsWith(base, "/stream") || EndsWith(base, "/stream/") then "" else "stream")
  }

  /** What the exchange makes of an address: the names in the list after its last question mark. */
  function StreamsOfUrl(url: string): seq<string> {
    var parts := Split('?', url);
    var query := parts[|parts| - 1];
    Split('/', if LIST_KEY <= query then query[|LIST_KEY|..] else query)
  }

  lemma UrlHasList(base: string, streams: seq<string>)
    requires SuffixStandsAlone(base)
    ensures Url(base, streams) == StemOf(base) + ['?'] + (LIST_KEY + Join("/", streams))
  {
    UrlAsMeant(base, streams);
    hide SuffixStandsAlone, EndsWith, Replace, Before, Join, OnlyAtEnd;
    var list := LIST_KEY + Join("/", streams);
    assert "/stream?" == "/stream" + ['?'] && "stream?" == "stream" + ['?'];
  }

  lemma {:induction false} SplitLast(sep: char, a: string, b: string)
    requires sep !in b
    ensures var parts := Split(sep, a + [sep] + b); |parts| >= 2 && parts[|parts| - 1] == b
  {
    var s := a + [sep] + b;
    if a == [] {
      assert s[1..] == b;
      SplitOne(sep, b);
    } else {
      assert s[1..] == a[1..] + [sep] + b;
      SplitLast(sep, a[1..], b);
    }
  }

  lemma {:induction false} JoinLacks(c: char, sep: string, parts: seq<string>)
    requires c !in sep && forall p :: p in parts ==> c !in p
    ensures c !in Join(sep, parts)
  {
    if parts != [] {
      assert parts[0] in parts;
      JoinLacks(c, sep, parts[1..]);
    }
  }

  predicate IsStreamName(s: string) {
    '/' !in s && '?' !in s
  }

  lemma UrlReadsBack(base: string, streams: seq<string>)
    requires SuffixStandsAlone(base) && streams != []
    requires forall s :: s in streams ==> IsStreamName(s)
    ensures StreamsOfUrl(Url(base, streams)) == streams
  {
    hide SuffixStandsAlone, StemOf, Url, Split, Join;
    UrlHasList(base, streams);
    JoinLacks('?', "/", streams);
    var list := LIST_KEY + Join("/", streams);
    assert '?' !in LIST_KEY;
    SplitLast('?', StemOf(base), list);
    SplitJoin('/', streams);
    assert list[|LIST_KEY|..] == Join("/", streams);
  }

  /** A configured symbol that the whole way out and back can carry. */
  ghost predicate Carriable(symbol: string) {
    Canonical(symbol) && IsAscii(symbol) && '@' !in symbol && '/' !in symbol && '?' !in symbol
  }

  lemma StreamNameIsClean(symbol: string, topic: string)
    requires '/' !in symbol && '?' !in symbol && IsStreamName(topic)
    ensures IsStreamName(StreamOn(symbol)(topic))
  {
    var bare := Filter(NoCaret, symbol);
    LowerKeeps(bare, '/');
    LowerKeeps(bare, '?');
    hide Filter, Lower;
    var name := StreamSymbol(symbol);
    assert StreamOn(symbol)(topic) == name + ['@'] + topic;
  }

  lemma StreamNamesAreClean(symbol: string, futures: bool)
    requires '/' !in symbol && '?' !in symbol
    ensures forall s :: s in StreamsFor(futures)(symbol) ==> IsStreamName(s)
  {
    TopicsAreClean(futures);
    hide Topics, StreamOn, IsStreamName;
    forall s | s in StreamsFor(futures)(symbol) ensures IsStreamName(s) {
      var i :| 0 <= i < |Topics(futures)| && s == StreamOn(symbol)(Topics(futures)[i]);
      assert Topics(futures)[i] in Topics(futures);
      StreamNameIsClean(symbol, Topics(futures)[i]);
    }
  }

  lemma TopicsAreClean(futures: bool)
    ensures forall t :: t in Topics(futures) ==> IsStreamName(t)
  {
  }

  function Answered(stream: string): string {
    Normalize(AnswerSymbol(stream))
  }

  function Repeat(count: nat): string -> seq<string> {
    (symbol: string) => seq(count, _ => symbol)
  }

  lemma CarriableParts(symbol: string)
    requires Carriable(symbol)
    ensures Canonical(symbol) && IsAscii(symbol) && '@' !in symbol && '/' !in symbol && '?' !in symbol
  {
    hide Canonical;
  }

  lemma AnswersOfSymbol(symbol: string, futures: bool)
    requires Carriable(symbol)
    ensures Map(Answered, StreamsFor(futures)(symbol)) == Repeat(|Topics(futures)|)(symbol)
    ensures forall s :: s in StreamsFor(futures)(symbol) ==> IsStreamName(s)
  {
    hide Normalize, AnswerSymbol, StreamsFor, Canonical, Carriable, Topics, Filter, Upper, IsStreamName;
    CarriableParts(symbol);
    StreamNamesAreClean(symbol, futures);
    StreamsAnswer(symbol, futures);
    SurvivesExactlyWhenCanonical(symbol);
    var streams := StreamsFor(futures)(symbol);
    var answers := Map(AnswerSymbol, streams);
    forall i | 0 <= i < |streams| ensures Answered(streams[i]) == symbol {
      assert answers[i] == AnswerSymbol(streams[i]) == Upper(Filter(NoCaret, symbol));
    }
    assert |streams| == |answers| == |Topics(futures)|;
  }

  lemma {:induction false} AnswersOfAll(symbols: seq<string>, futures: bool)
    requires forall symbol :: symbol in symbols ==> Carriable(symbol)
    ensures Map(Answered, Flatten(Map(StreamsFor(futures), symbols)))
         == Flatten(Map(Repeat(|Topics(futures)|), symbols))
    ensures forall s :: s in Flatten(Map(StreamsFor(futures), symbols)) ==> IsStreamName(s)
    ensures symbols != [] ==> Flatten(Map(StreamsFor(futures), symbols)) != []
  {
    hide Carriable, IsStreamName, Answered, Topics, StreamsFor, Repeat;
    if symbols == [] {
      assert Flatten<string>([]) == [];
    } else {
      hide Map, Flatten;
      var f, g := StreamsFor(futures), Repeat(|Topics(futures)|);
      var rest := symbols[1..];
      assert symbols[0] in symbols && forall s :: s in rest ==> s in symbols;
      AnswersOfSymbol(symbols[0], futures);
      AnswersOfAll(rest, futures);
      MapFirst(f, symbols);
      MapFirst(g, symbols);
      FlattenFirst(f(symbols[0]), Map(f, rest));
      FlattenFirst(g(symbols[0]), Map(g, rest));
      MapAppend(Answered, f(symbols[0]), Flatten(Map(f, rest)));
      SomeStreams(symbols[0], futures);
    }
  }

  lemma SomeStreams(symbol: string, futures: bool)
    ensures |StreamsFor(futures)(symbol)| >= 2
  {
  }

  /** From the configuration through the address to the answers: a session hears of exactly its
      configured symbols, each once per subscribed topic, in the configured order. */
  lemma SubscriptionRoundTrip(base: string, symbols: seq<string>, futures: bool)
    requires SuffixStandsAlone(base) && symbols != []
    requires forall symbol :: symbol in symbols ==> Carriable(symbol)
    ensures var streams := Flatten(Map(StreamsFor(futures), symbols));
            Map(Answered, StreamsOfUrl(Url(base, streams))) == Flatten(Map(Repeat(|Topics(futures)|), symbols))
  {
    hide SuffixStandsAlone, Carriable, Answered, StreamsOfUrl, Url, StreamsFor, Repeat, Topics, IsStreamName,
         Map, Flatten;
    AnswersOfAll(symbols, futures);
    UrlReadsBack(base, Flatten(Map(StreamsFor(futures), symbols)));
  }
}
