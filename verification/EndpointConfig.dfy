/** The endpoint file: one section of `key = value` settings per exchange. */
module EndpointConfig {
  import opened Bits
  import opened Ini
  import opened Sequences
  import opened Text

  const DEFAULT_TIMEOUT: nat := 5000

  datatype Endpoint = Endpoint(exchange: string, url: string, timeout: nat, ping: Option<nat>, enabled: bool)

  type Config = map<string, Endpoint>

  type Settings = map<string, string>

  predicate IsComment(c: char) {
    c == '#'
  }

  // ----- Settings -----

  /** The key and value of a line that has an equals sign. */
  function Setting(line: string): Option<(string, string)> {
    match SplitOnce('=', line)
    case None => None
    case Some((key, value)) => Some((Trim(key), Trim(value)))
  }

  /** A setting is what stands before and after the first equals sign, each without the white space around
      it. */
  lemma SettingsAreTrimmed(key: string, value: string)
    requires '=' !in key
    ensures Setting(key + "=" + value) == Some((Trim(key), Trim(value)))
  {
    hide Trim;
    SplitOnceAt('=', key, value);
    assert key + "=" + value == key + ['='] + value;
  }

  function With(settings: Settings, line: string): Settings {
    match Setting(line)
    case None => settings
    case Some((key, value)) => settings[key := value]
  }

  function Collect(settings: Settings, lines: seq<string>): Settings
    decreases |lines|
  {
    if lines == [] then settings else Collect(With(settings, lines[0]), lines[1..])
  }

  /** The value on the last line that sets `key`. */
  function LastValue(lines: seq<string>, key: string): Option<string> {
    if lines == [] then None
    else
      match Setting(lines[|lines| - 1])
      case Some((k, value)) => if k == key then Some(value) else LastValue(lines[..|lines| - 1], key)
      case None => LastValue(lines[..|lines| - 1], key)
  }

  function Lookup(settings: Settings, key: string): Option<string> {
    if key in settings then Some(settings[key]) else None
  }

  function Either<T>(first: Option<T>, second: Option<T>): Option<T> {
    if first.Some? then first else second
  }

  lemma {:induction false} CollectAppend(settings: Settings, lines: seq<string>, line: string)
    ensures Collect(settings, lines + [line]) == With(Collect(settings, lines), line)
    decreases |lines|
  {
    hide With;
    if lines == [] {
      assert lines + [line] == [line];
      assert Collect(With(settings, line), []) == With(settings, line);
    } else {
      assert (lines + [line])[1..] == lines[1..] + [line];
      CollectAppend(With(settings, lines[0]), lines[1..], line);
    }
  }

  lemma {:induction false} CollectedIsLast(settings: Settings, lines: seq<string>, key: string)
    ensures Lookup(Collect(settings, lines), key) == Either(LastValue(lines, key), Lookup(settings, key))
  {
    if lines != [] {
      hide Setting;
      var shorter, last := lines[..|lines| - 1], lines[|lines| - 1];
      assert lines == shorter + [last];
      CollectAppend(settings, shorter, last);
      CollectedIsLast(settings, shorter, key);
    }
  }

  lemma {:induction false} LastValueAppend(a: seq<string>, b: seq<string>, key: string)
    ensures LastValue(a + b, key) == Either(LastValue(b, key), LastValue(a, key))
  {
    if b == [] {
      assert a + b == a;
    } else {
      hide Setting;
      assert (a + b)[..|a + b| - 1] == a + b[..|b| - 1];
      LastValueAppend(a, b[..|b| - 1], key);
    }
  }

  // ----- One exchange -----

  /** The four settings the program knows, as a section shows them. */
  datatype Known = Known(url: Option<string>, timeout: Option<string>, ping: Option<string>, enabled: Option<string>)

  function Milliseconds(text: string): Option<nat> {
    ParseUnsigned(text, TWO_64)
  }

  function ParseExchangeSettings(exchange: string, settings: Settings): Option<Endpoint> {
    EndpointFrom(exchange, Known(Lookup(settings, "ws_url_base"), Lookup(settings, "timeout_ms"),
                                 Lookup(settings, "ping_interval_ms"), Lookup(settings, "enabled")))
  }

  /** Both the address and a timeout must be present; a timeout that is not a number counts as the
      default one; the rest is optional. */
  function EndpointFrom(exchange: string, known: Known): Option<Endpoint> {
    if known.url.None? || known.timeout.None? then None
    else
      var timeout := Milliseconds(known.timeout.value);
      Some(Endpoint(exchange, known.url.value,
                    if timeout.None? then DEFAULT_TIMEOUT else timeout.value,
                    PingOf(known.ping), EnabledOf(known.enabled)))
  }

  function PingOf(setting: Option<string>): Option<nat> {
    if setting.None? then None else Milliseconds(setting.value)
  }

  predicate EnabledOf(setting: Option<string>) {
    setting == Some("true")
  }

  function KnownIn(lines: seq<string>): Known {
    Known(LastValue(lines, "ws_url_base"), LastValue(lines, "timeout_ms"),
          LastValue(lines, "ping_interval_ms"), LastValue(lines, "enabled"))
  }

  function EndpointOf(exchange: string, lines: seq<string>): Option<Endpoint> {
    EndpointFrom(exchange, KnownIn(lines))
  }

  /** The mutable map holds, for every key, the last value given to it. */
  lemma CollectedEndpoint(exchange: string, lines: seq<string>)
    ensures ParseExchangeSettings(exchange, Collect(map[], lines)) == EndpointOf(exchange, lines)
  {
    CollectedIsLast(map[], lines, "ws_url_base");
    CollectedIsLast(map[], lines, "timeout_ms");
    CollectedIsLast(map[], lines, "ping_interval_ms");
    CollectedIsLast(map[], lines, "enabled");
  }

  // ----- The declarative reading -----

  function Stored(known: Config, exchange: string, endpoint: Option<Endpoint>): Config {
    if endpoint.Some? then known[exchange := endpoint.value] else known
  }

  function Store(known: Config, sections: seq<Section>): Config
    decreases |sections|
  {
    if sections == [] then known
    else
      Store(Stored(known, sections[0].name, EndpointOf(sections[0].name, sections[0].lines)), sections[1..])
  }

  /** The settings before the first header count as the first lines of the first section. */
  function WithPreamble(preamble: seq<string>, sections: seq<Section>): seq<Section> {
    if sections == [] then []
    else [Section(sections[0].name, preamble + sections[0].lines)] + sections[1..]
  }

  function UsefulLines(content: string): seq<string> {
    Useful(IsComment, Lines(content))
  }

  /** A blank line, or one that begins with `#`, changes nothing wherever it stands; any other line counts,
      without the white space around it. */
  lemma CommentsDoNotCount(a: seq<string>, line: string, b: seq<string>)
    requires forall l :: l in a + [line] + b ==> '\n' !in l && (l == [] || l[|l| - 1] != '\r')
    ensures var text := Trim(line);
            if text == [] || text[0] == '#' then Read(Unlines(a + [line] + b)) == Read(Unlines(a + b))
            else UsefulLines(Unlines(a + [line] + b))
                 == UsefulLines(Unlines(a)) + [text] + UsefulLines(Unlines(b))
  {
    hide Useful, Lines, Unlines, Trim, Body, Sections, Store, WithPreamble;
    LinesUnlines(a + [line] + b);
    LinesUnlines(a + b);
    LinesUnlines(a);
    LinesUnlines(b);
    LineBetween(IsComment, a, line, b);
    UsefulAppend(IsComment, a, b);
    var before := Useful(IsComment, a);
    assert before + [] == before;
  }

  function Read(content: string): Config {
    Store(map[], WithPreamble(Body(UsefulLines(content)), Sections(UsefulLines(content))))
  }

  /** The reading in which every section stands on its own. */
  function ReadApart(content: string): Config {
    Store(map[], Sections(UsefulLines(content)))
  }

  // ----- The loop -----

  function Remainder(known: Config, current: Option<string>, settings: Settings, lines: seq<string>): Config {
    match current
    case Some(name) =>
      Store(Stored(known, name, ParseExchangeSettings(name, Collect(settings, Body(lines)))), Sections(lines))
    case None =>
      if Sections(lines) == [] then known
      else
        var first := Sections(lines)[0];
        Store(Stored(known, first.name,
                     ParseExchangeSettings(first.name, Collect(settings, Body(lines) + first.lines))),
              Sections(lines)[1..])
  }

  lemma RemainderOfHeader(known: Config, current: Option<string>, settings: Settings, line: string,
                          rest: seq<string>)
    requires IsHeader(line)
    ensures Remainder(known, current, settings, [line] + rest)
         == if current.None? then Remainder(known, Some(HeaderName(line)), settings, rest)
            else Remainder(Stored(known, current.value, ParseExchangeSettings(current.value, settings)),
                           Some(HeaderName(line)), map[], rest)
  {
    SectionsOfHeader(line, rest);
    var first := Section(HeaderName(line), Body(rest));
    CollectedEndpoint(first.name, first.lines);
    hide IsHeader, HeaderName, Body, Sections, ParseExchangeSettings, EndpointOf;
    var sections := [first] + Sections(rest);
    assert sections[1..] == Sections(rest);
    assert [] + first.lines == first.lines;
    assert Collect(settings, []) == settings;
  }

  lemma RemainderOfSetting(known: Config, current: Option<string>, settings: Settings, line: string,
                           rest: seq<string>)
    requires !IsHeader(line)
    ensures Remainder(known, current, settings, [line] + rest)
         == Remainder(known, current, With(settings, line), rest)
  {
    SectionsOfPlain(line, rest);
    hide IsHeader, Body, Sections, ParseExchangeSettings, Store, With;
    var body := Body(rest);
    assert ([line] + body)[1..] == body;
    if Sections(rest) != [] {
      var more := Sections(rest)[0].lines;
      Regroup([line], body, more);
      assert ([line] + (body + more))[1..] == body + more;
    }
  }

  lemma ReadStarts(content: string)
    ensures Remainder(map[], None, map[], UsefulLines(content)) == Read(content)
  {
    hide UsefulLines, Body, Sections, ParseExchangeSettings, EndpointOf;
    var body, sections := Body(UsefulLines(content)), Sections(UsefulLines(content));
    if sections != [] {
      var first := Section(sections[0].name, body + sections[0].lines);
      CollectedEndpoint(first.name, first.lines);
      assert WithPreamble(body, sections)[1..] == sections[1..];
    }
  }

  lemma ReadEnds(known: Config, current: Option<string>, settings: Settings)
    ensures Remainder(known, current, settings, Useful(IsComment, []))
         == if current.None? then known
            else Stored(known, current.value, ParseExchangeSettings(current.value, settings))
  {
  }

  method Parse(content: string) returns (exchanges: Config)
    ensures exchanges == Read(content)
  {
    hide Remainder, Useful, IsHeader, HeaderName, Read, Lines, Trim, SplitOnce, ParseExchangeSettings;
    exchanges := map[];
    var current: Option<string> := None;
    var settings: Settings := map[];
    var lines := Lines(content);
    var i := 0;
    ReadStarts(content);
    assert lines[0..] == lines;
    while i < |lines|
      invariant 0 <= i <= |lines|
      invariant Remainder(exchanges, current, settings, Useful(IsComment, lines[i..])) == Read(content)
    {
      var line := Trim(lines[i]);
      ghost var rest := Useful(IsComment, lines[i + 1..]);
      UsefulStep(IsComment, lines[i], lines[i + 1..]);
      assert lines[i..] == [lines[i]] + lines[i + 1..];
      i := i + 1;
      if line == [] || IsComment(line[0]) {
        assert [] + rest == rest;
      } else if IsHeader(line) {
        RemainderOfHeader(exchanges, current, settings, line, rest);
        if current.Some? {
          var endpoint := ParseExchangeSettings(current.value, settings);
          if endpoint.Some? {
            exchanges := exchanges[current.value := endpoint.value];
          }
          settings := map[];
        }
        current := Some(HeaderName(line));
      } else {
        RemainderOfSetting(exchanges, current, settings, line, rest);
        var parts := SplitOnce('=', line);
        if parts.Some? {
          settings := settings[Trim(parts.value.0) := Trim(parts.value.1)];
        }
      }
    }
    assert lines[i..] == [];
    ReadEnds(exchanges, current, settings);
    if current.Some? {
      var endpoint := ParseExchangeSettings(current.value, settings);
      if endpoint.Some? {
        exchanges := exchanges[current.value := endpoint.value];
      }
    }
  }

  // ----- What the reading means -----

  /** The endpoint of the last section of that name that makes one. */
  function LastValid(sections: seq<Section>, exchange: string): Option<Endpoint> {
    if sections == [] then None
    else
      Either(LastValid(sections[1..], exchange),
             if sections[0].name == exchange then EndpointOf(exchange, sections[0].lines) else None)
  }

  function Find(config: Config, exchange: string): Option<Endpoint> {
    if exchange in config then Some(config[exchange]) else None
  }

  lemma {:induction false} LastValidWins(known: Config, sections: seq<Section>, exchange: string)
    ensures Find(Store(known, sections), exchange) == Either(LastValid(sections, exchange), Find(known, exchange))
    decreases |sections|
  {
    hide EndpointOf;
    if sections != [] {
      LastValidWins(Stored(known, sections[0].name, EndpointOf(sections[0].name, sections[0].lines)),
                    sections[1..], exchange);
    }
  }

  predicate SetsNothing(lines: seq<string>) {
    forall l :: l in lines ==> Setting(l).None?
  }

  lemma {:induction false} NothingSet(lines: seq<string>, key: string)
    requires SetsNothing(lines)
    ensures LastValue(lines, key) == None
  {
    if lines != [] {
      hide Setting;
      assert lines[|lines| - 1] in lines;
      NothingSet(lines[..|lines| - 1], key);
    }
  }

  /** When no line before the first header is a setting, no setting reaches another section: every
      exchange has the endpoint of its last valid section, read from that section's lines alone. */
  lemma SectionsStayApart(content: string, exchange: string)
    requires SetsNothing(Body(UsefulLines(content)))
    ensures Read(content) == ReadApart(content)
    ensures Find(Read(content), exchange) == LastValid(Sections(UsefulLines(content)), exchange)
  {
    hide UsefulLines, Body, Sections, EndpointFrom, SetsNothing;
    var body, sections := Body(UsefulLines(content)), Sections(UsefulLines(content));
    LastValidWins(map[], sections, exchange);
    if sections != [] {
      PreambleKnown(body, sections[0].lines);
      NothingKnown(body);
      assert KnownIn(body + sections[0].lines) == KnownIn(sections[0].lines);
      assert WithPreamble(body, sections)[1..] == sections[1..];
    }
  }

  lemma NothingKnown(lines: seq<string>)
    requires SetsNothing(lines)
    ensures KnownIn(lines) == Known(None, None, None, None)
  {
    NothingSet(lines, "ws_url_base");
    NothingSet(lines, "timeout_ms");
    NothingSet(lines, "ping_interval_ms");
    NothingSet(lines, "enabled");
  }

  function Override(over: Known, under: Known): Known {
    Known(Either(over.url, under.url), Either(over.timeout, under.timeout),
          Either(over.ping, under.ping), Either(over.enabled, under.enabled))
  }

  lemma PreambleKnown(preamble: seq<string>, lines: seq<string>)
    ensures KnownIn(preamble + lines) == Override(KnownIn(lines), KnownIn(preamble))
  {
    LastValueAppend(preamble, lines, "ws_url_base");
    LastValueAppend(preamble, lines, "timeout_ms");
    LastValueAppend(preamble, lines, "ping_interval_ms");
    LastValueAppend(preamble, lines, "enabled");
  }

  /** Settings `under` reach a section that itself has `over`: they supply an address or a timeout
      the section lacks, or, for a section that is complete without them, a ping interval that is a
      number or an `enabled` that is true. */
  predicate Leaks(over: Known, under: Known) {
    var both := Override(over, under);
    && both.url.Some? && both.timeout.Some?
    && (|| over.url.None? || over.timeout.None?
        || (over.ping.None? && PingOf(under.ping).Some?)
        || (over.enabled.None? && EnabledOf(under.enabled)))
  }

  lemma LeakChangesEndpoint(exchange: string, over: Known, under: Known)
    ensures EndpointFrom(exchange, Override(over, under)) != EndpointFrom(exchange, over) <==> Leaks(over, under)
  {
  }

  /** The preamble changes what the file means exactly when it leaks into the first section and no
      later section of that name is valid. */
  lemma PreambleMatters(content: string)
    ensures var preamble, sections := Body(UsefulLines(content)), Sections(UsefulLines(content));
            Read(content) != ReadApart(content) <==>
              && sections != []
              && Leaks(KnownIn(sections[0].lines), KnownIn(preamble))
              && LastValid(sections[1..], sections[0].name).None?
  {
    hide UsefulLines, Body, Sections, KnownIn, Leaks, EndpointFrom, LastValid;
    var preamble, sections := Body(UsefulLines(content)), Sections(UsefulLines(content));
    if sections != [] {
      var name, later := sections[0].name, sections[1..];
      var with, without := EndpointOf(name, preamble + sections[0].lines), EndpointOf(name, sections[0].lines);
      PreambleKnown(preamble, sections[0].lines);
      LeakChangesEndpoint(name, KnownIn(sections[0].lines), KnownIn(preamble));
      assert WithPreamble(preamble, sections)[1..] == later;
      var a, b := Stored(map[], name, with), Stored(map[], name, without);
      assert Read(content) == Store(a, later) && ReadApart(content) == Store(b, later);
      LastValidWins(a, later, name);
      LastValidWins(b, later, name);
      if LastValid(later, name).Some? || with == without {
        SameFinds(a, b, later, name);
      }
    }
  }

  lemma SameFinds(a: Config, b: Config, later: seq<Section>, name: string)
    requires forall exchange :: exchange != name ==> Find(a, exchange) == Find(b, exchange)
    requires LastValid(later, name).Some? || Find(a, name) == Find(b, name)
    ensures Store(a, later) == Store(b, later)
  {
    hide Store, LastValid, Find;
    var x, y := Store(a, later), Store(b, later);
    forall exchange ensures Find(x, exchange) == Find(y, exchange) {
      LastValidWins(a, later, exchange);
      LastValidWins(b, later, exchange);
    }
    FindDetermines(x, y);
  }

  lemma FindDetermines(x: Config, y: Config)
    requires forall exchange :: Find(x, exchange) == Find(y, exchange)
    ensures x == y
  {
    assert forall exchange :: exchange in x <==> Find(x, exchange).Some?;
    assert forall exchange :: exchange in y <==> Find(y, exchange).Some?;
  }

  lemma SettingOf(key: string, value: string)
    requires FileLine(IsComment, key) && '=' !in key && key[0] != '[' && Tight(value) && '\n' !in value
    ensures var line := key + "=" + value;
            Setting(line) == Some((key, value)) && FileLine(IsComment, line) && !IsHeader(line)
  {
    SplitOnceAt('=', key, value);
    TrimTight(key);
    TrimTight(value);
  }

  lemma LastValueOne(line: string, key: string)
    ensures LastValue([line], key)
         == if Setting(line).Some? && Setting(line).value.0 == key then Some(Setting(line).value.1) else None
  {
    hide Setting;
    assert [line][..0] == [];
    assert LastValue([], key) == None;
  }

  lemma KnownInOne(line: string)
    requires Setting(line).Some?
    ensures var (key, value) := Setting(line).value;
            KnownIn([line]) == Known(if key == "ws_url_base" then Some(value) else None,
                                     if key == "timeout_ms" then Some(value) else None,
                                     if key == "ping_interval_ms" then Some(value) else None,
                                     if key == "enabled" then Some(value) else None)
  {
    hide Setting, LastValue;
    LastValueOne(line, "ws_url_base");
    LastValueOne(line, "timeout_ms");
    LastValueOne(line, "ping_interval_ms");
    LastValueOne(line, "enabled");
  }

  lemma TwoSettings(url: string, time: string, address: string, number: string)
    requires Setting(url) == Some(("ws_url_base", address)) && Setting(time) == Some(("timeout_ms", number))
    ensures KnownIn([url, time]) == Known(Some(address), Some(number), None, None)
  {
    hide Setting, KnownIn;
    KnownInOne(url);
    KnownInOne(time);
    PreambleKnown([url], [time]);
    assert [url] + [time] == [url, time];
  }

  lemma UsefulWritten(preamble: seq<string>, name: string, own: seq<string>)
    requires forall l :: l in preamble || l in own ==> FileLine(IsComment, l) && !IsHeader(l)
    requires FileLine(IsComment, HeaderLine(name))
    ensures var lines := UsefulLines(Unlines(preamble + Written([Section(name, own)])));
            Body(lines) == preamble && Sections(lines) == [Section(name, own)]
  {
    var section := Section(name, own);
    assert [section] + [] == [section];
    WrittenCons(section, []);
    var lines := preamble + Written([section]);
    assert Written([section]) == [HeaderLine(name)] + own;
    hide IsHeader, Written, Lines, Useful, Tight, HeaderLine;
    assert forall l :: l in lines ==> FileLine(IsComment, l);
    LinesUnlines(lines);
    UsefulAll(IsComment, lines);
    SectionsUnique(preamble, [section]);
  }

  /** An exchange that its own section leaves switched off is switched on by an `enabled=true` above
      the first header, whatever its name and address are. */
  lemma PreambleCanLeak(name: string, on: string, url: string, time: string, address: string)
    requires Setting(on) == Some(("enabled", "true"))
    requires Setting(url) == Some(("ws_url_base", address)) && Setting(time) == Some(("timeout_ms", "1"))
    requires forall l :: l in [on, url, time] ==> FileLine(IsComment, l) && !IsHeader(l)
    requires FileLine(IsComment, HeaderLine(name))
    ensures var content := Unlines([on] + Written([Section(name, [url, time])]));
            && Find(Read(content), name) == Some(Endpoint(name, address, 1, None, true))
            && Find(ReadApart(content), name) == Some(Endpoint(name, address, 1, None, false))
  {
    hide UsefulLines, Unlines, Written, Body, Sections, KnownIn, Setting, FileLine, HeaderLine, IsHeader, Milliseconds;
    var own := [url, time];
    var content := Unlines([on] + Written([Section(name, own)]));
    UsefulWritten([on], name, own);
    KnownInOne(on);
    TwoSettings(url, time, address, "1");
    PreambleKnown([on], own);
    OneMillisecond();
    var sections := [Section(name, own)];
    assert WithPreamble([on], sections) == [Section(name, [on] + own)];
    LastValidWins(map[], sections, name);
    LastValidWins(map[], [Section(name, [on] + own)], name);
    assert sections[1..] == [] && LastValid([], name) == None;
    assert [Section(name, [on] + own)][1..] == [];
  }

  lemma OneMillisecond()
    ensures Milliseconds("1") == Some(1)
  {
    ParseDecimal(1, TWO_64);
    assert Decimal(1) == "1";
  }

  /** Such a file exists. */
  lemma PreambleLeaks()
    ensures exists content :: Read(content) != ReadApart(content)
  {
    hide Setting, Read, ReadApart, Find, Unlines, Written, HeaderLine, IsHeader;
    SettingOf("enabled", "true");
    SettingOf("ws_url_base", "u");
    SettingOf("timeout_ms", "1");
    HeaderIsFileLine();
    hide FileLine;
    LeakFrom("enabled" + "=" + "true", "ws_url_base" + "=" + "u", "timeout_ms" + "=" + "1");
  }

  lemma LeakFrom(on: string, url: string, time: string)
    requires Setting(on) == Some(("enabled", "true"))
    requires Setting(url) == Some(("ws_url_base", "u")) && Setting(time) == Some(("timeout_ms", "1"))
    requires FileLine(IsComment, on) && FileLine(IsComment, url) && FileLine(IsComment, time)
    requires !IsHeader(on) && !IsHeader(url) && !IsHeader(time)
    requires FileLine(IsComment, HeaderLine("x"))
    ensures exists content :: Read(content) != ReadApart(content)
  {
    hide Setting, FileLine, IsHeader, Read, ReadApart, Find, Unlines, Written, HeaderLine;
    PreambleCanLeak("x", on, url, time, "u");
  }

  lemma HeaderIsFileLine()
    ensures FileLine(IsComment, HeaderLine("x"))
  {
  }

  // ----- What the four settings mean -----

  /** The endpoint of a section: none without an address or a timeout; otherwise the address, the timeout
      or 5000 when that is no number, the ping interval when it is a number, and whether the switch says
      `true`. */
  lemma SettingsMean(exchange: string, lines: seq<string>, n: nat)
    ensures var endpoint := EndpointOf(exchange, lines);
            var time, ping := LastValue(lines, "timeout_ms"), LastValue(lines, "ping_interval_ms");
            && (endpoint.None? <==> LastValue(lines, "ws_url_base").None? || time.None?)
            && (endpoint.Some? ==>
                  && endpoint.value.exchange == exchange && LastValue(lines, "ws_url_base") == Some(endpoint.value.url)
                  && (n < TWO_64 && Writes(time.value, n) ==> endpoint.value.timeout == n)
                  && ((forall m: nat :: m < TWO_64 ==> !Writes(time.value, m)) ==> endpoint.value.timeout == 5000)
                  && (endpoint.value.ping == Some(n) <==> ping.Some? && n < TWO_64 && Writes(ping.value, n))
                  && (endpoint.value.enabled <==> LastValue(lines, "enabled") == Some("true")))
  {
    hide LastValue, ParseUnsigned, Writes;
    var time, ping := LastValue(lines, "timeout_ms"), LastValue(lines, "ping_interval_ms");
    if time.Some? {
      ParsesExactly(time.value, TWO_64, n);
      if Milliseconds(time.value).Some? {
        ParsesExactly(time.value, TWO_64, Milliseconds(time.value).value);
      }
    }
    if ping.Some? {
      ParsesExactly(ping.value, TWO_64, n);
    }
  }

  // ----- Writing and reading back -----

  function SwitchText(enabled: bool): string {
    if enabled then "true" else "false"
  }

  function SettingLine(key: string, value: string): string {
    key + "=" + value
  }

  function PrintedLines(e: Endpoint): seq<string> {
    [SettingLine("ws_url_base", e.url), SettingLine("timeout_ms", Decimal(e.timeout))]
    + (if e.ping.None? then [] else [SettingLine("ping_interval_ms", Decimal(e.ping.value))])
    + [SettingLine("enabled", SwitchText(e.enabled))]
  }

  function SectionFor(e: Endpoint): Section {
    Section(e.exchange, PrintedLines(e))
  }

  function Print(endpoints: seq<Endpoint>): string {
    Unlines(Written(Map(SectionFor, endpoints)))
  }

  /** An endpoint as a file can hold it: names of one line, an address without white space around it, and
      64-bit numbers. */
  predicate Printable(e: Endpoint) {
    && '\n' !in e.exchange && '\n' !in e.url && Tight(e.url) && e.timeout < TWO_64
    && (e.ping.Some? ==> e.ping.value < TWO_64)
  }

  /** A line that is read as this setting. */
  predicate Sets(line: string, key: string, value: string) {
    Setting(line) == Some((key, value)) && FileLine(IsComment, line) && !IsHeader(line)
  }

  lemma PrintedSetting(key: string, value: string)
    requires key in ["ws_url_base", "timeout_ms", "ping_interval_ms", "enabled"] && Tight(value) && '\n' !in value
    ensures Sets(SettingLine(key, value), key, value)
  {
    hide Setting, IsHeader;
    SettingOf(key, value);
  }

  lemma DigitsAreTight(n: nat)
    ensures Tight(Decimal(n)) && '\n' !in Decimal(n)
  {
    var digits := Decimal(n);
    assert digits[0] in digits && digits[|digits| - 1] in digits;
  }

  lemma PrintedSettings(e: Endpoint)
    requires Printable(e)
    ensures Sets(SettingLine("ws_url_base", e.url), "ws_url_base", e.url)
    ensures Sets(SettingLine("timeout_ms", Decimal(e.timeout)), "timeout_ms", Decimal(e.timeout))
    ensures e.ping.Some? ==> Sets(SettingLine("ping_interval_ms", Decimal(e.ping.value)), "ping_interval_ms",
                                  Decimal(e.ping.value))
    ensures Sets(SettingLine("enabled", SwitchText(e.enabled)), "enabled", SwitchText(e.enabled))
  {
    hide Sets, SettingLine, Decimal;
    PrintedSetting("ws_url_base", e.url);
    DigitsAreTight(e.timeout);
    PrintedSetting("timeout_ms", Decimal(e.timeout));
    if e.ping.Some? {
      DigitsAreTight(e.ping.value);
      PrintedSetting("ping_interval_ms", Decimal(e.ping.value));
    }
    PrintedSetting("enabled", SwitchText(e.enabled));
  }

  lemma PrintedAreFileLines(e: Endpoint)
    requires Printable(e)
    ensures forall l :: l in PrintedLines(e) ==> FileLine(IsComment, l) && !IsHeader(l)
  {
    hide Setting, FileLine, IsHeader, Decimal, SwitchText, SettingLine, Printable;
    PrintedSettings(e);
    var number := if e.ping.None? then [] else [SettingLine("ping_interval_ms", Decimal(e.ping.value))];
    forall l | l in PrintedLines(e) ensures FileLine(IsComment, l) && !IsHeader(l) {
      assert l == SettingLine("ws_url_base", e.url) || l == SettingLine("timeout_ms", Decimal(e.timeout))
          || l in number || l == SettingLine("enabled", SwitchText(e.enabled));
    }
  }

  lemma PrintedKnown(e: Endpoint)
    requires Printable(e)
    ensures KnownIn(PrintedLines(e))
         == Known(Some(e.url), Some(Decimal(e.timeout)), if e.ping.None? then None else Some(Decimal(e.ping.value)),
                  Some(SwitchText(e.enabled)))
  {
    hide Setting, KnownIn, Decimal, SwitchText, Printable, SettingLine, FileLine, IsHeader;
    PrintedSettings(e);
    var address, time := SettingLine("ws_url_base", e.url), SettingLine("timeout_ms", Decimal(e.timeout));
    var switch := SettingLine("enabled", SwitchText(e.enabled));
    TwoSettings(address, time, e.url, Decimal(e.timeout));
    KnownInOne(switch);
    if e.ping.None? {
      assert PrintedLines(e) == [address, time] + [switch];
      PreambleKnown([address, time], [switch]);
    } else {
      var ping := SettingLine("ping_interval_ms", Decimal(e.ping.value));
      KnownInOne(ping);
      assert PrintedLines(e) == ([address, time] + [ping]) + [switch];
      PreambleKnown([address, time], [ping]);
      PreambleKnown([address, time] + [ping], [switch]);
    }
  }

  /** A printed endpoint is read back, with any 64-bit numbers. */
  lemma EndpointReadsBack(e: Endpoint)
    requires Printable(e)
    ensures EndpointOf(e.exchange, PrintedLines(e)) == Some(e)
  {
    hide KnownIn, PrintedLines, ParseUnsigned, Decimal;
    PrintedKnown(e);
    ParseDecimal(e.timeout, TWO_64);
    if e.ping.Some? {
      ParseDecimal(e.ping.value, TWO_64);
    }
  }

  lemma {:induction false} WrittenLines(endpoints: seq<Endpoint>)
    requires forall e :: e in endpoints ==> Printable(e)
    ensures forall l :: l in Written(Map(SectionFor, endpoints)) ==> FileLine(IsComment, l)
    ensures WithoutHeaders(Map(SectionFor, endpoints))
  {
    if endpoints != [] {
      hide FileLine, IsHeader, PrintedLines, Printable;
      var first, rest := endpoints[0], endpoints[1..];
      assert first in endpoints && forall e :: e in rest ==> e in endpoints;
      WrittenLines(rest);
      PrintedAreFileLines(first);
      PrintedHeader(first);
      MapFirst(SectionFor, endpoints);
      WrittenCons(SectionFor(first), Map(SectionFor, rest));
    }
  }

  lemma PrintedHeader(e: Endpoint)
    requires Printable(e)
    ensures FileLine(IsComment, HeaderLine(e.exchange))
  {
  }

  lemma PrintedSections(endpoints: seq<Endpoint>)
    requires forall e :: e in endpoints ==> Printable(e)
    ensures var lines := UsefulLines(Print(endpoints));
            Body(lines) == [] && Sections(lines) == Map(SectionFor, endpoints)
  {
    hide Sections, Body, Useful, Lines, Map, Printable;
    var sections := Map(SectionFor, endpoints);
    var lines := Written(sections);
    WrittenLines(endpoints);
    assert forall l :: l in lines ==> FileLine(IsComment, l);
    LinesUnlines(lines);
    UsefulAll(IsComment, lines);
    SectionsUnique([], sections);
    assert [] + lines == lines;
  }

  /** The last endpoint of a list with that name. */
  function LastNamed(endpoints: seq<Endpoint>, exchange: string): Option<Endpoint> {
    if endpoints == [] then None
    else
      var last := endpoints[|endpoints| - 1];
      if last.exchange == exchange then Some(last) else LastNamed(endpoints[..|endpoints| - 1], exchange)
  }

  lemma {:induction false} LastValidAppend(sections: seq<Section>, last: Section, exchange: string)
    ensures LastValid(sections + [last], exchange)
         == Either(if last.name == exchange then EndpointOf(exchange, last.lines) else None,
                   LastValid(sections, exchange))
  {
    hide EndpointOf;
    if sections == [] {
      assert sections + [last] == [last];
    } else {
      assert (sections + [last])[1..] == sections[1..] + [last];
      LastValidAppend(sections[1..], last, exchange);
    }
  }

  lemma {:induction false} LastPrinted(endpoints: seq<Endpoint>, exchange: string)
    requires forall e :: e in endpoints ==> Printable(e)
    ensures LastValid(Map(SectionFor, endpoints), exchange) == LastNamed(endpoints, exchange)
  {
    hide LastValid, EndpointOf, Printable, PrintedLines;
    if endpoints != [] {
      var init, last := endpoints[..|endpoints| - 1], endpoints[|endpoints| - 1];
      assert last in endpoints && forall e :: e in init ==> e in endpoints;
      LastPrinted(init, exchange);
      EndpointReadsBack(last);
      assert Map(SectionFor, endpoints) == Map(SectionFor, init) + [SectionFor(last)];
      LastValidAppend(Map(SectionFor, init), SectionFor(last), exchange);
    } else {
      assert Map(SectionFor, endpoints) == [];
      NoSections(exchange);
    }
  }

  lemma NoSections(exchange: string)
    ensures LastValid([], exchange) == None
  {
  }

  /** Parsing undoes printing: from the file of any list of endpoints each exchange gets its last one. */
  lemma PrintedLastWins(endpoints: seq<Endpoint>, exchange: string)
    requires forall e :: e in endpoints ==> Printable(e)
    ensures Find(Read(Print(endpoints)), exchange) == LastNamed(endpoints, exchange)
  {
    hide UsefulLines, Print, Body, Sections, Read, Find, LastValid, Printable, LastNamed;
    PrintedSections(endpoints);
    SectionsStayApart(Print(endpoints), exchange);
    LastPrinted(endpoints, exchange);
  }

  /** `endpoints` lists the configuration: every exchange, in any order. */
  ghost predicate Lists(endpoints: seq<Endpoint>, config: Config) {
    && (forall e :: e in endpoints ==> e.exchange in config && config[e.exchange] == e)
    && (forall exchange :: exchange in config ==> exists e :: e in endpoints && e.exchange == exchange)
  }

  lemma {:induction false} LastNamedIn(endpoints: seq<Endpoint>, exchange: string)
    ensures match LastNamed(endpoints, exchange)
            case Some(e) => e in endpoints && e.exchange == exchange
            case None => forall e :: e in endpoints ==> e.exchange != exchange
  {
    if endpoints != [] {
      var init, last := endpoints[..|endpoints| - 1], endpoints[|endpoints| - 1];
      assert endpoints == init + [last];
      LastNamedIn(init, exchange);
    }
  }

  /** So a configuration is read back from its file, in whatever order it is written. */
  lemma RoundTrip(endpoints: seq<Endpoint>, config: Config)
    requires Lists(endpoints, config) && forall e :: e in endpoints ==> Printable(e)
    ensures Read(Print(endpoints)) == config
  {
    hide Read, Print, Printable, LastNamed;
    forall exchange ensures Find(Read(Print(endpoints)), exchange) == Find(config, exchange) {
      PrintedLastWins(endpoints, exchange);
      LastNamedIn(endpoints, exchange);
    }
    hide Find;
    FindDetermines(Read(Print(endpoints)), config);
  }
}
