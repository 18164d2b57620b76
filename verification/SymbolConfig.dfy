/** The symbol configuration file: one section per exchange, one session per line. */
module SymbolConfig {
  import opened Bits
  import opened Ini
  import opened Sequences
  import opened Text

  const DEFAULT_PORT: u16 := 55555

  datatype Result<+T> = Ok(value: T) | Err(line: string)

  datatype Session = Session(symbols: seq<string>, btc: bool, port: u16)

  datatype Group = Group(exchange: string, sessions: seq<Session>)

  type Config = map<string, Group>

  predicate IsComment(c: char) {
    c == '#' || c == ';'
  }

  // ----- One line -----

  predicate NonEmpty(s: string) {
    s != []
  }

  function SymbolsIn(text: string): seq<string> {
    Filter(NonEmpty, Map(Trim, Split(',', text)))
  }

  predicate IsBtc(symbols: seq<string>) {
    |symbols| == 1 && StartsWith(symbols[0], "BTC^")
  }

  /** Some piece of the list is not blank. */
  ghost predicate HasSymbol(list: string) {
    exists piece :: piece in Split(',', list) && Trim(piece) != []
  }

  function PortIn(text: string): Option<nat> {
    ParseUnsigned(Trim(text), 0x1_0000)
  }

  /** The line is a port text, its first equals sign, and a list. */
  predicate Divides(line: string, port: string, list: string) {
    '=' !in port && line == port + ['='] + list
  }

  /** A line without an equals sign is a list for the default port, and an error exactly when it
      holds no symbol. A line with one is a port and a list, and an error exactly when the port is
      no number below 65536 or the list holds no symbol. The symbols are the trimmed pieces that
      are not blank, in order; an error names the line. */
  function ParseSymbolLine(line: string): (r: Result<Session>)
    ensures r.Err? ==> r.line == line
    ensures r.Ok? ==> WellFormedSession(r.value)
    ensures '=' !in line ==>
              && (r.Ok? <==> HasSymbol(line))
              && (r.Ok? ==> r.value.port == DEFAULT_PORT && r.value.symbols == SymbolsIn(line))
    ensures '=' in line ==>
              exists port, list ::
                && Divides(line, port, list)
                && (r.Ok? <==> PortIn(port).Some? && HasSymbol(list))
                && (r.Ok? ==> PortIn(port) == Some(r.value.port as nat) && r.value.symbols == SymbolsIn(list))
  {
    var parts := SplitOnce('=', line);
    var port := if parts.None? then Some(DEFAULT_PORT as nat) else PortIn(parts.value.0);
    var text := if parts.None? then line else parts.value.1;
    assert parts.Some? ==> Divides(line, parts.value.0, parts.value.1);
    SymbolsAreNames(text);
    SomeSymbol(text);
    if port.None? || SymbolsIn(text) == [] then Err(line)
    else Ok(Session(SymbolsIn(text), IsBtc(SymbolsIn(text)), port.value as u16))
  }

  lemma SomeSymbol(text: string)
    ensures SymbolsIn(text) != [] <==> HasSymbol(text)
  {
    var pieces := Split(',', text);
    var trimmed := Map(Trim, pieces);
    if SymbolsIn(text) != [] {
      var x := SymbolsIn(text)[0];
      assert x in SymbolsIn(text);
      var i :| 0 <= i < |trimmed| && trimmed[i] == x;
      assert pieces[i] in pieces;
    }
    if piece :| piece in pieces && Trim(piece) != [] {
      var i :| 0 <= i < |pieces| && pieces[i] == piece;
      assert trimmed[i] in trimmed && trimmed[i] in SymbolsIn(text);
    }
  }

  /** A symbol as a list can hold it: not blank, no comma, no white space around it. */
  predicate IsSymbol(s: string) {
    s != [] && Tight(s) && ',' !in s
  }

  predicate WellFormedSession(s: Session) {
    s.symbols != [] && (forall x :: x in s.symbols ==> IsSymbol(x)) && s.btc == IsBtc(s.symbols)
  }

  lemma SymbolsAreNames(text: string)
    ensures forall x :: x in SymbolsIn(text) ==> IsSymbol(x)
  {
    SplitKeeps(',', text);
    var pieces := Split(',', text);
    forall x | x in SymbolsIn(text) ensures IsSymbol(x) {
      var i :| 0 <= i < |pieces| && Map(Trim, pieces)[i] == x;
      assert pieces[i] in pieces;
      TrimTight(pieces[i]);
      TrimKeeps(pieces[i]);
    }
  }

  /** A port is any text of a number below 65536, with white space around it or not. */
  lemma PortsAreNumbers(text: string, port: nat)
    ensures PortIn(text) == Some(port) <==> port < 65536 && Writes(Trim(text), port)
  {
    hide ParseUnsigned;
    ParsesExactly(Trim(text), 0x1_0000, port);
  }

  /** The session of a line: its own port or 55555, and the BTC mark for a single symbol that begins with
      `BTC^`. */
  lemma SessionOfLine(line: string)
    requires ParseSymbolLine(line).Ok?
    ensures var session := ParseSymbolLine(line).value;
            && (session.btc <==> |session.symbols| == 1 && exists quote :: session.symbols[0] == "BTC^" + quote)
            && ('=' !in line ==> session.port == 55555)
  {
    hide ParseSymbolLine, IsSymbol;
    var first := ParseSymbolLine(line).value.symbols[0];
    if StartsWith(first, "BTC^") {
      assert first == "BTC^" + first[4..];
    }
    if quote :| first == "BTC^" + quote {
      assert "BTC^" <= first;
    }
  }

  // ----- The declarative reading -----

  function SessionsOf(lines: seq<string>): (r: Result<seq<Session>>) {
    if lines == [] then Ok([])
    else
      match ParseSymbolLine(lines[0])
      case Err(e) => Err(e)
      case Ok(first) =>
        match SessionsOf(lines[1..])
        case Err(e) => Err(e)
        case Ok(others) => Ok([first] + others)
  }

  function Store(known: Config, sections: seq<Section>): (r: Result<Config>)
    decreases |sections|
  {
    if sections == [] then Ok(known)
    else
      match SessionsOf(sections[0].lines)
      case Err(e) => Err(e)
      case Ok(sessions) =>
        Store(known[sections[0].name := Group(sections[0].name, sessions)], sections[1..])
  }

  function Read(content: string): Result<Config> {
    Store(map[], Sections(Useful(IsComment, Lines(content))))
  }

  /** A blank line, or one that begins with `#` or `;`, changes nothing wherever it stands; any other line
      counts, without the white space around it. */
  lemma CommentsDoNotCount(a: seq<string>, line: string, b: seq<string>)
    requires forall l :: l in a + [line] + b ==> '\n' !in l && (l == [] || l[|l| - 1] != '\r')
    ensures var text, rest := Trim(line), Unlines(a + b);
            var lines := Useful(IsComment, Lines(Unlines(a + [line] + b)));
            if text == [] || text[0] == '#' || text[0] == ';' then Read(Unlines(a + [line] + b)) == Read(rest)
            else lines == Useful(IsComment, a) + [text] + Useful(IsComment, b)
  {
    hide Useful, Lines, Unlines, Trim;
    LinesUnlines(a + [line] + b);
    LinesUnlines(a + b);
    LineBetween(IsComment, a, line, b);
    UsefulAppend(IsComment, a, b);
    var before := Useful(IsComment, a);
    assert before + [] == before;
  }

  // ----- The loop -----

  /** What remains to be read when section `current` is open and holds `sessions` so far. */
  function Remainder(known: Config, current: Option<string>, sessions: seq<Session>, lines: seq<string>)
    : Result<Config>
  {
    match current
    case None => Store(known, Sections(lines))
    case Some(name) =>
      match SessionsOf(Body(lines))
      case Err(e) => Err(e)
      case Ok(more) => Store(known[name := Group(name, sessions + more)], Sections(lines))
  }

  lemma RemainderOfHeader(known: Config, current: Option<string>, sessions: seq<Session>, line: string,
                          rest: seq<string>)
    requires IsHeader(line)
    ensures Remainder(known, current, sessions, [line] + rest)
         == Remainder(if current.Some? then known[current.value := Group(current.value, sessions)] else known,
                      Some(HeaderName(line)), [], rest)
  {
    SectionsOfHeader(line, rest);
    hide IsHeader, HeaderName, Body, Sections;
    var section := Section(HeaderName(line), Body(rest));
    assert ([section] + Sections(rest))[1..] == Sections(rest);
    assert SessionsOf([]) == Ok([]);
    assert sessions + [] == sessions;
    var read := SessionsOf(Body(rest));
    if read.Ok? {
      assert [] + read.value == read.value;
    }
  }

  lemma RemainderOfSession(known: Config, current: string, sessions: seq<Session>, line: string,
                           rest: seq<string>)
    requires !IsHeader(line)
    ensures Remainder(known, Some(current), sessions, [line] + rest)
         == match ParseSymbolLine(line)
            case Err(e) => Err(e)
            case Ok(session) => Remainder(known, Some(current), sessions + [session], rest)
  {
    SectionsOfPlain(line, rest);
    hide IsHeader, Body, Sections, Store, ParseSymbolLine, WellFormedSession;
    assert ([line] + Body(rest))[1..] == Body(rest);
    var first, others := ParseSymbolLine(line), SessionsOf(Body(rest));
    if first.Ok? && others.Ok? {
      Regroup(sessions, [first.value], others.value);
    }
  }

  lemma RemainderOfPreamble(known: Config, sessions: seq<Session>, line: string, rest: seq<string>)
    requires !IsHeader(line)
    ensures Remainder(known, None, sessions, [line] + rest) == Remainder(known, None, sessions, rest)
  {
    SectionsOfPlain(line, rest);
  }

  lemma ReadStarts(content: string)
    ensures Remainder(map[], None, [], Useful(IsComment, Lines(content))) == Read(content)
  {
  }

  lemma ReadEnds(known: Config, current: Option<string>, sessions: seq<Session>)
    ensures Remainder(known, current, sessions, Useful(IsComment, []))
         == Ok(if current.Some? then known[current.value := Group(current.value, sessions)] else known)
  {
    assert sessions + [] == sessions;
  }

  method Parse(content: string) returns (r: Result<Config>)
    ensures r == Read(content)
  {
    hide Remainder, Useful, IsHeader, HeaderName, Read, ParseSymbolLine, Trim, Lines, WellFormedSession;
    var exchanges: Config := map[];
    var current: Option<string> := None;
    var sessions: seq<Session> := [];
    var lines := Lines(content);
    var i := 0;
    ReadStarts(content);
    assert lines[0..] == lines;
    while i < |lines|
      invariant 0 <= i <= |lines|
      invariant Remainder(exchanges, current, sessions, Useful(IsComment, lines[i..])) == Read(content)
      invariant current.None? ==> sessions == []
    {
      var line := Trim(lines[i]);
      ghost var rest := Useful(IsComment, lines[i + 1..]);
      UsefulStep(IsComment, lines[i], lines[i + 1..]);
      assert lines[i..] == [lines[i]] + lines[i + 1..];
      i := i + 1;
      if line == [] || IsComment(line[0]) {
        assert [] + rest == rest;
      } else if IsHeader(line) {
        RemainderOfHeader(exchanges, current, sessions, line, rest);
        if current.Some? {
          exchanges := exchanges[current.value := Group(current.value, sessions)];
          sessions := [];
        }
        current := Some(HeaderName(line));
      } else if current.Some? {
        RemainderOfSession(exchanges, current.value, sessions, line, rest);
        var session := ParseSymbolLine(line);
        if session.Err? {
          return Err(session.line);
        }
        sessions := sessions + [session.value];
      } else {
        RemainderOfPreamble(exchanges, sessions, line, rest);
      }
    }
    assert lines[i..] == [];
    ReadEnds(exchanges, current, sessions);
    if current.Some? {
      exchanges := exchanges[current.value := Group(current.value, sessions)];
    }
    r := Ok(exchanges);
  }

  // ----- What the reading means -----

  predicate Parses(line: string) {
    ParseSymbolLine(line).Ok?
  }

  function SessionOn(line: string): Session
    requires Parses(line)
  {
    ParseSymbolLine(line).value
  }

  ghost predicate FirstBad(lines: seq<string>, line: string) {
    exists i :: 0 <= i < |lines| && lines[i] == line && !Parses(line) && forall j :: 0 <= j < i ==> Parses(lines[j])
  }

  ghost predicate InOrder(lines: seq<string>, sessions: seq<Session>) {
    |sessions| == |lines| && forall i :: 0 <= i < |lines| ==> Parses(lines[i]) && sessions[i] == SessionOn(lines[i])
  }

  lemma FirstBadLater(first: string, rest: seq<string>, line: string)
    requires Parses(first) && FirstBad(rest, line)
    ensures FirstBad([first] + rest, line)
  {
    hide Parses;
    var lines := [first] + rest;
    var i :| 0 <= i < |rest| && rest[i] == line && !Parses(line) && forall j :: 0 <= j < i ==> Parses(rest[j]);
    assert lines[i + 1] == line;
    assert forall j :: 0 < j < i + 1 ==> lines[j] == rest[j - 1];
  }

  /** A section is its lines' sessions in order, or the first line that is not one. */
  lemma {:induction false} SessionsInOrder(lines: seq<string>)
    ensures match SessionsOf(lines)
            case Ok(sessions) => InOrder(lines, sessions)
            case Err(line) => FirstBad(lines, line)
  {
    hide SymbolsIn, IsBtc, WellFormedSession, SplitOnce, PortIn, Trim, FirstBad;
    if lines != [] {
      var tail := lines[1..];
      SessionsInOrder(tail);
      assert lines == [lines[0]] + tail;
      if !Parses(lines[0]) {
        BadNow(lines);
      } else if SessionsOf(tail).Err? {
        FirstBadLater(lines[0], tail, SessionsOf(tail).line);
      }
    }
  }

  lemma BadNow(lines: seq<string>)
    requires lines != [] && !Parses(lines[0])
    ensures FirstBad(lines, lines[0])
  {
  }

  lemma SectionReads(section: Section)
    ensures SessionsOf(section.lines).Ok? <==> AllParse(section)
  {
    hide Parses, SessionsOf;
    SessionsInOrder(section.lines);
  }

  predicate Names(section: Section, exchange: string) {
    section.name == exchange
  }

  function LastNamed(sections: seq<Section>, exchange: string): Option<Section> {
    if sections == [] then None
    else
      var last := sections[|sections| - 1];
      if last.name == exchange then Some(last) else LastNamed(sections[..|sections| - 1], exchange)
  }

  ghost predicate IsLast(sections: seq<Section>, k: int, exchange: string) {
    && 0 <= k < |sections| && Names(sections[k], exchange)
    && forall j :: k < j < |sections| ==> !Names(sections[j], exchange)
  }

  lemma {:induction false} LastNamedIsLast(sections: seq<Section>, exchange: string)
    ensures match LastNamed(sections, exchange)
            case Some(section) => exists k :: IsLast(sections, k, exchange) && sections[k] == section
            case None => forall section :: section in sections ==> !Names(section, exchange)
  {
    if sections != [] {
      var shorter, last := sections[..|sections| - 1], sections[|sections| - 1];
      assert sections == shorter + [last];
      LastNamedIsLast(shorter, exchange);
      if Names(last, exchange) {
        assert IsLast(sections, |sections| - 1, exchange);
      } else if LastNamed(shorter, exchange).Some? {
        var k :| IsLast(shorter, k, exchange) && shorter[k] == LastNamed(shorter, exchange).value;
        assert IsLast(sections, k, exchange);
      }
    }
  }

  lemma {:induction false} LastNamedFromFront(first: Section, others: seq<Section>, exchange: string)
    ensures LastNamed([first] + others, exchange)
         == if LastNamed(others, exchange).Some? then LastNamed(others, exchange)
            else if first.name == exchange then Some(first) else None
  {
    var all := [first] + others;
    if others != [] {
      assert all[..|all| - 1] == [first] + others[..|others| - 1];
      LastNamedFromFront(first, others[..|others| - 1], exchange);
    }
  }

  predicate AllParse(section: Section) {
    forall l :: l in section.lines ==> Parses(l)
  }

  ghost predicate Holds(config: Config, known: Config, sections: seq<Section>, exchange: string) {
    match LastNamed(sections, exchange)
    case Some(section) =>
      exchange in config && SessionsOf(section.lines).Ok?
      && config[exchange] == Group(exchange, SessionsOf(section.lines).value)
    case None =>
      (exchange in config <==> exchange in known) && (exchange in known ==> config[exchange] == known[exchange])
  }

  lemma {:induction false} StoreMeaning(known: Config, sections: seq<Section>)
    ensures Store(known, sections).Ok? <==> forall s :: s in sections ==> AllParse(s)
    ensures var r := Store(known, sections);
            r.Ok? ==> forall exchange :: Holds(r.value, known, sections, exchange)
    decreases |sections|
  {
    if sections != [] {
      hide SessionsOf, LastNamed, Parses;
      var first, others := sections[0], sections[1..];
      assert sections == [first] + others;
      SectionReads(first);
      if SessionsOf(first.lines).Ok? {
        var sessions := SessionsOf(first.lines).value;
        var updated := known[first.name := Group(first.name, sessions)];
        StoreMeaning(updated, others);
        var r := Store(updated, others);
        if r.Ok? {
          forall exchange ensures Holds(r.value, known, sections, exchange) {
            assert Holds(r.value, updated, others, exchange);
            LastNamedFromFront(first, others, exchange);
          }
        }
      } else {
        assert !AllParse(first);
      }
    }
  }

  /** Parsing succeeds exactly when every line owned by a section is a session, wherever the other
      lines are. Each exchange then has the sessions of its last section, in file order. */
  lemma ReadMeaning(content: string)
    ensures var sections := Sections(Useful(IsComment, Lines(content)));
            && (Read(content).Ok? <==> forall s, l :: s in sections && l in s.lines ==> Parses(l))
            && (Read(content).Ok? ==>
                  && (forall exchange :: exchange in Read(content).value <==> LastNamed(sections, exchange).Some?)
                  && (forall exchange :: exchange in Read(content).value ==>
                        var lines := LastNamed(sections, exchange).value.lines;
                        var group := Read(content).value[exchange];
                        group.exchange == exchange && InOrder(lines, group.sessions)))
  {
    hide Sections, Useful, Lines, LastNamed, SessionsOf, Parses;
    hide InOrder;
    var sections := Sections(Useful(IsComment, Lines(content)));
    StoreMeaning(map[], sections);
    var r := Read(content);
    assert (forall s :: s in sections ==> AllParse(s)) <==> forall s, l :: s in sections && l in s.lines ==> Parses(l);
    if r.Ok? {
      forall exchange
        ensures exchange in r.value <==> LastNamed(sections, exchange).Some?
        ensures exchange in r.value ==>
                  var lines := LastNamed(sections, exchange).value.lines;
                  var group := r.value[exchange];
                  group.exchange == exchange && InOrder(lines, group.sessions)
      {
        assert Holds(r.value, map[], sections, exchange);
        if exchange in r.value {
          SessionsInOrder(LastNamed(sections, exchange).value.lines);
        }
      }
    }
  }

  // ----- Writing and reading back -----

  function PrintSession(s: Session): string {
    Decimal(s.port as nat) + "=" + Join(", ", s.symbols)
  }

  function SectionFor(group: Group): Section {
    Section(group.exchange, Map(PrintSession, group.sessions))
  }

  function Print(groups: seq<Group>): string {
    Unlines(Written(Map(SectionFor, groups)))
  }

  predicate OneLine(s: string) {
    '\n' !in s
  }

  predicate PrintableSession(s: Session) {
    WellFormedSession(s) && forall x :: x in s.symbols ==> OneLine(x)
  }

  predicate Printable(group: Group) {
    OneLine(group.exchange) && forall s :: s in group.sessions ==> PrintableSession(s)
  }

  /** The symbols of a list, each after the first with the blank that follows its comma. */
  function Padded(symbols: seq<string>): seq<string>
    requires symbols != []
  {
    [symbols[0]] + Map(Indented, symbols[1..])
  }

  function Indented(s: string): string {
    " " + s
  }

  lemma {:induction false} JoinPadded(symbols: seq<string>)
    requires symbols != []
    ensures Join(", ", symbols) == Join(",", Padded(symbols))
  {
    if |symbols| > 1 {
      var rest := symbols[1..];
      var padded := Padded(symbols);
      JoinPadded(rest);
      assert padded[1..] == [Indented(rest[0])] + Map(Indented, rest[1..]);
      assert Join(",", padded[1..]) == " " + Join(",", Padded(rest)) by {
        JoinFirst(" ", rest[0], Map(Indented, rest[1..]));
      }
      assert Join(", ", symbols) == symbols[0] + ", " + Join(", ", rest);
      assert Join(",", padded) == symbols[0] + "," + (" " + Join(", ", rest));
    } else {
      assert Padded(symbols) == symbols;
    }
  }

  lemma JoinFirst(w: string, a: string, rest: seq<string>)
    ensures Join(",", [w + a] + rest) == w + Join(",", [a] + rest)
  {
    if rest != [] {
      assert ([w + a] + rest)[1..] == rest && ([a] + rest)[1..] == rest;
    }
  }

  lemma SymbolsReadBack(symbols: seq<string>)
    requires symbols != [] && forall x :: x in symbols ==> IsSymbol(x)
    ensures SymbolsIn(Join(", ", symbols)) == symbols
  {
    var padded := Padded(symbols);
    forall i | 0 <= i < |padded| ensures ',' !in padded[i] && Trim(padded[i]) == symbols[i] {
      assert IsSymbol(symbols[i]);
      TrimTight(symbols[i]);
      TrimPrefix(" ", symbols[i]);
    }
    JoinPadded(symbols);
    SplitJoin(',', padded);
    assert Map(Trim, padded) == symbols;
    FilterAll(NonEmpty, symbols);
  }

  lemma DecimalIsTight(n: nat)
    ensures Trim(Decimal(n)) == Decimal(n) && '=' !in Decimal(n)
  {
    var digits := Decimal(n);
    assert digits[0] in digits && digits[|digits| - 1] in digits;
    TrimTight(digits);
  }

  lemma SessionReadsBack(s: Session)
    requires WellFormedSession(s)
    ensures ParseSymbolLine(PrintSession(s)) == Ok(s)
  {
    SymbolsReadBack(s.symbols);
    hide Decimal, Join, SymbolsIn, SplitOnce, PortIn, Trim, IsBtc, IsSymbol;
    var digits, list := Decimal(s.port as nat), Join(", ", s.symbols);
    assert PrintSession(s) == digits + ['='] + list;
    DecimalIsTight(s.port as nat);
    SplitOnceAt('=', digits, list);
    ParseDecimal(s.port as nat, 0x1_0000);
  }

  lemma {:induction false} JoinEnds(symbols: seq<string>)
    requires symbols != [] && forall x :: x in symbols ==> IsSymbol(x) && OneLine(x)
    ensures var text := Join(", ", symbols);
            text != [] && !IsWhite(text[|text| - 1]) && OneLine(text)
  {
    assert symbols[0] in symbols;
    if |symbols| > 1 {
      JoinEnds(symbols[1..]);
    }
  }

  lemma SessionLineIsPlain(s: Session)
    requires PrintableSession(s)
    ensures FileLine(IsComment, PrintSession(s)) && !IsHeader(PrintSession(s))
  {
    JoinEnds(s.symbols);
    var line, digits := PrintSession(s), Decimal(s.port as nat);
    assert line[0] == digits[0] && IsDigit(digits[0]);
    assert OneLine(digits);
  }

  lemma {:induction false} WrittenLines(groups: seq<Group>)
    requires forall g :: g in groups ==> Printable(g)
    ensures forall l :: l in Written(Map(SectionFor, groups)) ==> FileLine(IsComment, l)
    ensures WithoutHeaders(Map(SectionFor, groups))
  {
    if groups != [] {
      var group := groups[0];
      assert group in groups;
      WrittenLines(groups[1..]);
      var section := SectionFor(group);
      forall l | l in section.lines ensures FileLine(IsComment, l) && !IsHeader(l) {
        var i :| 0 <= i < |group.sessions| && l == PrintSession(group.sessions[i]);
        assert group.sessions[i] in group.sessions;
        SessionLineIsPlain(group.sessions[i]);
      }
      assert FileLine(IsComment, HeaderLine(group.exchange));
      assert Map(SectionFor, groups) == [section] + Map(SectionFor, groups[1..]);
      WrittenCons(section, Map(SectionFor, groups[1..]));
    }
  }

  lemma SessionsOfNext(line: string, rest: seq<string>, session: Session, others: seq<Session>)
    requires ParseSymbolLine(line) == Ok(session) && SessionsOf(rest) == Ok(others)
    ensures SessionsOf([line] + rest) == Ok([session] + others)
  {
    hide ParseSymbolLine, WellFormedSession;
    assert ([line] + rest)[1..] == rest;
  }

  lemma {:induction false} GroupReadsBack(sessions: seq<Session>)
    requires forall s :: s in sessions ==> WellFormedSession(s)
    ensures SessionsOf(Map(PrintSession, sessions)) == Ok(sessions)
  {
    if sessions != [] {
      hide ParseSymbolLine, PrintSession, WellFormedSession, SessionsOf, Map;
      var rest := sessions[1..];
      assert sessions[0] in sessions;
      SessionReadsBack(sessions[0]);
      GroupReadsBack(rest);
      SessionsOfNext(PrintSession(sessions[0]), Map(PrintSession, rest), sessions[0], rest);
      MapFirst(PrintSession, sessions);
      assert sessions == [sessions[0]] + rest;
    }
  }

  /** `groups` lists the configuration: every exchange, in any order. */
  ghost predicate Lists(groups: seq<Group>, config: Config) {
    && (forall g :: g in groups ==> g.exchange in config && config[g.exchange] == g)
    && (forall exchange :: exchange in config ==> exists g :: g in groups && g.exchange == exchange)
  }

  lemma PrintedGroupReads(group: Group)
    requires Printable(group)
    ensures SessionsOf(SectionFor(group).lines) == Ok(group.sessions)
  {
    GroupReadsBack(group.sessions);
  }

  lemma PrintedSections(groups: seq<Group>)
    requires forall g :: g in groups ==> Printable(g)
    ensures Sections(Useful(IsComment, Lines(Print(groups)))) == Map(SectionFor, groups)
  {
    hide Sections, Useful, Lines, Map, Printable;
    var sections := Map(SectionFor, groups);
    var lines := Written(sections);
    WrittenLines(groups);
    assert forall l :: l in lines ==> FileLine(IsComment, l);
    LinesUnlines(lines);
    UsefulAll(IsComment, lines);
    SectionsUnique([], sections);
    assert [] + lines == lines;
  }

  lemma PrintedLookup(groups: seq<Group>, config: Config, read: Config, exchange: string)
    requires Lists(groups, config) && forall g :: g in groups ==> Printable(g)
    requires Holds(read, map[], Map(SectionFor, groups), exchange)
    ensures exchange in read <==> exchange in config
    ensures exchange in config ==> read[exchange] == config[exchange]
  {
    hide LastNamed, SessionsOf, Printable;
    var sections := Map(SectionFor, groups);
    if exchange in config {
      var g :| g in groups && g.exchange == exchange;
      var i :| 0 <= i < |groups| && groups[i] == g;
      assert sections[i] in sections && Names(sections[i], exchange);
    }
    LastNamedIsLast(sections, exchange);
    if LastNamed(sections, exchange).Some? {
      var k :| IsLast(sections, k, exchange) && sections[k] == LastNamed(sections, exchange).value;
      assert groups[k] in groups;
      PrintedGroupReads(groups[k]);
    }
  }

  lemma PrintedSectionsParse(groups: seq<Group>)
    requires forall g :: g in groups ==> Printable(g)
    ensures forall s :: s in Map(SectionFor, groups) ==> AllParse(s)
  {
    hide SessionsOf, Printable, AllParse;
    var sections := Map(SectionFor, groups);
    forall s | s in sections ensures AllParse(s) {
      var i :| 0 <= i < |groups| && s == SectionFor(groups[i]);
      assert groups[i] in groups;
      PrintedGroupReads(groups[i]);
      SectionReads(s);
    }
  }

  /** Parsing undoes printing, in whatever order the exchanges are written. */
  lemma RoundTrip(groups: seq<Group>, config: Config)
    requires Lists(groups, config) && forall g :: g in groups ==> Printable(g)
    ensures Read(Print(groups)) == Ok(config)
  {
    var sections := Map(SectionFor, groups);
    PrintedSections(groups);
    hide Sections, Useful, Lines, Print, Map, Store, Holds, Lists, Printable, AllParse;
    StoreMeaning(map[], sections);
    PrintedSectionsParse(groups);
    var read := Store(map[], sections).value;
    forall exchange ensures exchange in read <==> exchange in config
                    ensures exchange in config ==> read[exchange] == config[exchange] {
      PrintedLookup(groups, config, read, exchange);
    }
    assert read == config;
  }

  // ----- Every parsed file can be printed -----

  lemma ParsedSession(line: string)
    requires OneLine(line) && Parses(line)
    ensures PrintableSession(SessionOn(line))
  {
    var parts := SplitOnce('=', line);
    var text := if parts.None? then line else parts.value.1;
    assert forall c :: c in text ==> c in line;
    SymbolsAreOneLiners(text);
    hide SplitOnce, SymbolsIn, PortIn, Trim, IsBtc, IsSymbol;
  }

  lemma SymbolsAreOneLiners(text: string)
    requires OneLine(text)
    ensures forall x :: x in SymbolsIn(text) ==> OneLine(x)
  {
    hide Split, Trim;
    SplitKeeps(',', text);
    var pieces := Split(',', text);
    forall x | x in SymbolsIn(text) ensures OneLine(x) {
      var i :| 0 <= i < |pieces| && Map(Trim, pieces)[i] == x;
      assert pieces[i] in pieces;
      TrimKeeps(pieces[i]);
    }
  }

  lemma SectionsAreOneLiners(lines: seq<string>)
    requires forall l :: l in lines ==> OneLine(l)
    ensures forall s, l :: s in Sections(lines) && l in s.lines ==> OneLine(l)
    ensures forall s :: s in Sections(lines) ==> OneLine(s.name)
  {
    if lines != [] {
      assert lines[0] in lines && forall l :: l in lines[1..] ==> l in lines;
      SectionsAreOneLiners(lines[1..]);
    }
  }

  lemma ParsedIsPrintable(content: string, exchange: string)
    requires Read(content).Ok? && exchange in Read(content).value
    ensures Read(content).value[exchange].exchange == exchange && Printable(Read(content).value[exchange])
  {
    LinesAreOneLiners(content);
    UsefulOneLiners(IsComment, Lines(content));
    var sections := Sections(Useful(IsComment, Lines(content)));
    SectionsAreOneLiners(Useful(IsComment, Lines(content)));
    ReadMeaning(content);
    LastNamedIsLast(sections, exchange);
    hide Sections, Useful, Lines, LastNamed, Read, PrintableSession, Parses;
    var section := LastNamed(sections, exchange).value;
    var k :| IsLast(sections, k, exchange) && sections[k] == section;
    assert section in sections;
    var group := Read(content).value[exchange];
    forall s | s in group.sessions ensures PrintableSession(s) {
      var i :| 0 <= i < |group.sessions| && group.sessions[i] == s;
      assert section.lines[i] in section.lines;
      ParsedSession(section.lines[i]);
    }
  }

  /** Printing what a file says gives a file that says the same, for every file that parses. */
  lemma PrintKeepsMeaning(content: string, groups: seq<Group>)
    requires Read(content).Ok? && Lists(groups, Read(content).value)
    ensures Read(Print(groups)) == Read(content)
  {
    forall g | g in groups ensures Printable(g) {
      ParsedIsPrintable(content, g.exchange);
    }
    RoundTrip(groups, Read(content).value);
  }
}
