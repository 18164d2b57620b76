/** Files of `[name]` sections: which lines count and which section owns each of them. */
module Ini {
  import opened Sequences
  import opened Text

  datatype Section = Section(name: string, lines: seq<string>)

  predicate IsHeader(line: string) {
    line != [] && line[0] == '[' && line[|line| - 1] == ']'
  }

  /** The headers are the lines `[name]`. */
  lemma HeadersAreBracketed(line: string)
    ensures IsHeader(line) <==> exists name :: line == "[" + name + "]"
    ensures IsHeader(line) ==> line == "[" + HeaderName(line) + "]"
  {
    if IsHeader(line) {
      assert line == "[" + line[1..|line| - 1] + "]";
    }
  }

  /** A header holds two brackets, as one character cannot be both. */
  function HeaderName(line: string): string
    requires IsHeader(line)
  {
    line[1..|line| - 1]
  }

  function HeaderLine(name: string): (line: string)
    ensures IsHeader(line) && HeaderName(line) == name
  {
    "[" + name + "]"
  }

  /** The trimmed lines of a text that are neither blank nor comments. */
  function Useful(comment: char -> bool, lines: seq<string>): (r: seq<string>)
    ensures forall l :: l in r ==> l != [] && !comment(l[0]) && Tight(l)
  {
    if lines == [] then []
    else
      var line := Trim(lines[0]);
      TrimTight(lines[0]);
      (if line == [] || comment(line[0]) then [] else [line]) + Useful(comment, lines[1..])
  }

  lemma UsefulStep(comment: char -> bool, line: string, rest: seq<string>)
    ensures var trimmed := Trim(line);
            Useful(comment, [line] + rest)
            == (if trimmed == [] || comment(trimmed[0]) then [] else [trimmed]) + Useful(comment, rest)
  {
    assert ([line] + rest)[1..] == rest;
  }

  lemma {:induction false} UsefulAppend(comment: char -> bool, a: seq<string>, b: seq<string>)
    ensures Useful(comment, a + b) == Useful(comment, a) + Useful(comment, b)
  {
    hide Trim, Useful;
    if a == [] {
      assert a + b == b;
      assert Useful(comment, []) == [] by { NothingUseful(comment); }
    } else {
      var first, rest := a[0], a[1..];
      assert a + b == [first] + (rest + b) && a == [first] + rest;
      UsefulAppend(comment, rest, b);
      UsefulStep(comment, first, rest + b);
      UsefulStep(comment, first, rest);
    }
  }

  lemma NothingUseful(comment: char -> bool)
    ensures Useful(comment, []) == []
  {
  }

  /** A line between others counts, trimmed, unless it is blank or a comment. */
  lemma LineBetween(comment: char -> bool, a: seq<string>, line: string, b: seq<string>)
    ensures var trimmed := Trim(line);
            Useful(comment, a + [line] + b)
            == Useful(comment, a) + (if trimmed == [] || comment(trimmed[0]) then [] else [trimmed])
               + Useful(comment, b)
  {
    hide Trim, Useful;
    UsefulAppend(comment, a, [line] + b);
    assert a + [line] + b == a + ([line] + b);
    UsefulStep(comment, line, b);
  }

  /** A line as a file can hold it: it survives trimming and is no comment. */
  predicate FileLine(comment: char -> bool, line: string) {
    line != [] && !comment(line[0]) && Tight(line) && '\n' !in line
  }

  ghost predicate Plain(lines: seq<string>) {
    forall l :: l in lines ==> !IsHeader(l)
  }

  /** The lines before the first header. */
  function Body(lines: seq<string>): (r: seq<string>)
    ensures r <= lines
    ensures Plain(r)
    ensures |r| < |lines| ==> IsHeader(lines[|r|])
  {
    if lines == [] || IsHeader(lines[0]) then [] else [lines[0]] + Body(lines[1..])
  }

  /** A section starts at its header and owns every line up to the next one; the lines before the
      first header belong to no section. */
  function Sections(lines: seq<string>): (r: seq<Section>) {
    if lines == [] then []
    else if IsHeader(lines[0]) then
      [Section(HeaderName(lines[0]), Body(lines[1..]))] + Sections(lines[1..])
    else Sections(lines[1..])
  }

  function Written(sections: seq<Section>): seq<string> {
    if sections == [] then [] else [HeaderLine(sections[0].name)] + sections[0].lines + Written(sections[1..])
  }

  ghost predicate WithoutHeaders(sections: seq<Section>) {
    forall s :: s in sections ==> Plain(s.lines)
  }

  lemma HeaderIsItsName(line: string)
    requires IsHeader(line)
    ensures HeaderLine(HeaderName(line)) == line
  {
    assert line == [line[0]] + line[1..|line| - 1] + [line[|line| - 1]];
  }

  lemma WrittenCons(first: Section, others: seq<Section>)
    ensures Written([first] + others) == [HeaderLine(first.name)] + first.lines + Written(others)
    ensures WithoutHeaders([first] + others) <==> Plain(first.lines) && WithoutHeaders(others)
  {
    hide Plain, HeaderLine;
    var all := [first] + others;
    assert all[1..] == others && all[0] == first && first in all;
    assert forall s :: s in all <==> s == first || s in others;
  }

  /** Nothing is lost and nothing moves: a file is its preamble followed by its sections, and no
      section holds a header. */
  lemma {:induction false} SectionsPartition(lines: seq<string>)
    ensures lines == Body(lines) + Written(Sections(lines))
    ensures Plain(Body(lines)) && WithoutHeaders(Sections(lines))
  {
    if lines != [] {
      hide Plain, WithoutHeaders, Written, IsHeader, HeaderLine, HeaderName, Sections, Body;
      var tail := lines[1..];
      SectionsPartition(tail);
      var body, written := Body(tail), Written(Sections(tail));
      Regroup([lines[0]], body, written);
      assert [lines[0]] + tail == lines;
      if IsHeader(lines[0]) {
        HeaderIsItsName(lines[0]);
        SectionsOfHeader(lines[0], tail);
        WrittenCons(Section(HeaderName(lines[0]), body), Sections(tail));
      } else {
        SectionsOfPlain(lines[0], tail);
      }
    }
  }

  /** That partition is the only one. */
  lemma {:induction false} SectionsUnique(preamble: seq<string>, sections: seq<Section>)
    requires Plain(preamble) && WithoutHeaders(sections)
    ensures Body(preamble + Written(sections)) == preamble
    ensures Sections(preamble + Written(sections)) == sections
    decreases |sections|, |preamble|
  {
    if preamble != [] {
      hide WithoutHeaders, Written, IsHeader, Body, Sections;
      var rest := preamble[1..] + Written(sections);
      assert preamble + Written(sections) == [preamble[0]] + rest;
      SectionsUnique(preamble[1..], sections);
      SectionsOfPlain(preamble[0], rest);
    } else if sections != [] {
      hide Plain, WithoutHeaders, Written, IsHeader, HeaderLine, Body, Sections;
      var first, others := sections[0], sections[1..];
      assert sections == [first] + others;
      WrittenCons(first, others);
      SectionsUnique(first.lines, others);
      var tail := first.lines + Written(others);
      assert preamble + Written(sections) == [HeaderLine(first.name)] + tail;
      SectionsOfHeader(HeaderLine(first.name), tail);
    }
  }

  lemma {:induction false} UsefulAll(comment: char -> bool, lines: seq<string>)
    requires forall l :: l in lines ==> l != [] && !comment(l[0]) && Tight(l)
    ensures Useful(comment, lines) == lines
  {
    if lines != [] {
      assert lines[0] in lines && forall l :: l in lines[1..] ==> l in lines;
      TrimTight(lines[0]);
      UsefulAll(comment, lines[1..]);
    }
  }

  // ----- What happens to single lines, for a reader that goes through them in order -----

  lemma SectionsOfPlain(line: string, rest: seq<string>)
    requires !IsHeader(line)
    ensures Body([line] + rest) == [line] + Body(rest)
    ensures Sections([line] + rest) == Sections(rest)
  {
    assert ([line] + rest)[1..] == rest;
  }

  lemma SectionsOfHeader(line: string, rest: seq<string>)
    requires IsHeader(line)
    ensures Body([line] + rest) == []
    ensures Sections([line] + rest) == [Section(HeaderName(line), Body(rest))] + Sections(rest)
  {
    assert ([line] + rest)[1..] == rest;
  }

  lemma {:induction false} UsefulOneLiners(comment: char -> bool, lines: seq<string>)
    requires forall l :: l in lines ==> '\n' !in l
    ensures forall l :: l in Useful(comment, lines) ==> '\n' !in l
  {
    if lines != [] {
      assert lines[0] in lines && forall l :: l in lines[1..] ==> l in lines;
      TrimKeeps(lines[0]);
      UsefulOneLiners(comment, lines[1..]);
    }
  }
}
