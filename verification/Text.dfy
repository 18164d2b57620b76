/** Strings: trimming, splitting, joining, lines and decimal numbers. */
module Text {
  import opened Sequences

  datatype Option<+T> = None | Some(value: T)

  /** The White_Space characters of Unicode. */
  predicate IsWhite(c: char) {
    var n := c as int;
    || 0x09 <= n <= 0x0D || n == 0x20 || n == 0x85 || n == 0xA0 || n == 0x1680
    || 0x2000 <= n <= 0x200A || n == 0x2028 || n == 0x2029 || n == 0x202F || n == 0x205F || n == 0x3000
  }

  function TrimStart(s: string): (r: string)
    ensures r == [] || !IsWhite(r[0])
  {
    if s != [] && IsWhite(s[0]) then TrimStart(s[1..]) else s
  }

  function TrimEnd(s: string): (r: string)
    ensures r <= s
    ensures r == [] || !IsWhite(r[|r| - 1])
  {
    if s != [] && IsWhite(s[|s| - 1]) then TrimEnd(s[..|s| - 1]) else s
  }

  function Trim(s: string): (r: string)
  {
    TrimEnd(TrimStart(s))
  }

  /** Text that trimming leaves alone. */
  predicate Tight(s: string) {
    s == [] || (!IsWhite(s[0]) && !IsWhite(s[|s| - 1]))
  }

  lemma TrimTight(s: string)
    ensures Tight(Trim(s))
    ensures Tight(s) ==> Trim(s) == s
  {
    var t := TrimStart(s);
    if Trim(s) != [] {
      assert Trim(s)[0] == t[0];
    }
  }

  lemma TrimPrefix(w: string, s: string)
    requires forall c :: c in w ==> IsWhite(c)
    requires Tight(s)
    ensures Trim(w + s) == s
  {
    if w == [] {
      assert w + s == s;
      TrimTight(s);
    } else {
      assert (w + s)[1..] == w[1..] + s;
      TrimPrefix(w[1..], s);
    }
  }

  /** Trimming drops white space only, so it cannot change what a filter keeps
      when the filter keeps no white space. */
  lemma TrimThenFilter(p: char -> bool, s: string)
    requires forall c :: p(c) ==> !IsWhite(c)
    ensures Filter(p, Trim(s)) == Filter(p, s)
  {
    TrimStartThenFilter(p, s);
    TrimEndThenFilter(p, TrimStart(s));
  }

  lemma TrimStartThenFilter(p: char -> bool, s: string)
    requires forall c :: p(c) ==> !IsWhite(c)
    ensures Filter(p, TrimStart(s)) == Filter(p, s)
  {
    if s != [] && IsWhite(s[0]) {
      TrimStartThenFilter(p, s[1..]);
    }
  }

  lemma TrimEndThenFilter(p: char -> bool, s: string)
    requires forall c :: p(c) ==> !IsWhite(c)
    ensures Filter(p, TrimEnd(s)) == Filter(p, s)
  {
    if s != [] && IsWhite(s[|s| - 1]) {
      var t := s[..|s| - 1];
      TrimEndThenFilter(p, t);
      assert s == t + [s[|s| - 1]];
      FilterAppend(p, t, [s[|s| - 1]]);
    }
  }

  predicate StartsWith(s: string, p: string) {
    p <= s
  }

  predicate EndsWith(s: string, p: string) {
    |p| <= |s| && s[|s| - |p|..] == p
  }

  // ----- Splitting and joining -----

  function Split(sep: char, s: string): (r: seq<string>)
    ensures |r| >= 1
  {
    if s == [] then [[]]
    else
      var r := Split(sep, s[1..]);
      if s[0] == sep then [[]] + r else [[s[0]] + r[0]] + r[1..]
  }

  function Join(sep: string, parts: seq<string>): string
  {
    if parts == [] then []
    else if |parts| == 1 then parts[0]
    else parts[0] + sep + Join(sep, parts[1..])
  }

  lemma {:induction false} SplitOne(sep: char, a: string)
    requires sep !in a
    ensures Split(sep, a) == [a]
  {
    if a != [] {
      SplitOne(sep, a[1..]);
      assert a == [a[0]] + a[1..];
    }
  }

  lemma {:induction false} SplitFirst(sep: char, a: string, b: string)
    requires sep !in a
    ensures Split(sep, a + [sep] + b) == [a] + Split(sep, b)
  {
    var s := a + [sep] + b;
    if a == [] {
      assert s[1..] == b;
    } else {
      assert s[1..] == a[1..] + [sep] + b;
      SplitFirst(sep, a[1..], b);
      assert a == [a[0]] + a[1..];
    }
  }

  /** Splitting undoes joining when no part holds the separator. */
  lemma {:induction false} SplitJoin(sep: char, parts: seq<string>)
    requires parts != []
    requires forall p :: p in parts ==> sep !in p
    ensures Split(sep, Join([sep], parts)) == parts
  {
    if |parts| == 1 {
      SplitOne(sep, parts[0]);
    } else {
      SplitJoin(sep, parts[1..]);
      SplitFirst(sep, parts[0], Join([sep], parts[1..]));
      assert parts == [parts[0]] + parts[1..];
    }
  }

  /** The text before and after the first `sep`. */
  function SplitOnce(sep: char, s: string): (r: Option<(string, string)>)
    ensures r.None? <==> sep !in s
    ensures r.Some? ==> sep !in r.value.0 && s == r.value.0 + [sep] + r.value.1
  {
    if s == [] then None
    else if s[0] == sep then Some(([], s[1..]))
    else
      match SplitOnce(sep, s[1..])
      case None => None
      case Some((a, b)) => Some(([s[0]] + a, b))
  }

  lemma SplitOnceAt(sep: char, a: string, b: string)
    requires sep !in a
    ensures SplitOnce(sep, a + [sep] + b) == Some((a, b))
  {
    var s := a + [sep] + b;
    if a != [] {
      assert s[1..] == a[1..] + [sep] + b;
      SplitOnceAt(sep, a[1..], b);
      assert a == [a[0]] + a[1..];
    } else {
      assert s[1..] == b;
    }
  }

  /** A line without the carriage return that ended it. */
  function DropCarriageReturn(s: string): string {
    if s != [] && s[|s| - 1] == '\r' then s[..|s| - 1] else s
  }

  /** The lines of a text: every line ends at a newline, optionally preceded by a carriage
      return, and the last one may lack its newline. */
  function Lines(s: string): seq<string> {
    var pieces := Split('\n', s);
    var last := pieces[|pieces| - 1];
    Map(DropCarriageReturn, pieces[..|pieces| - 1]) + (if last == [] then [] else [last])
  }

  function Unlines(lines: seq<string>): string {
    if lines == [] then [] else lines[0] + "\n" + Unlines(lines[1..])
  }

  lemma {:induction false} SplitUnlines(lines: seq<string>)
    requires forall l :: l in lines ==> '\n' !in l
    ensures Split('\n', Unlines(lines)) == lines + [[]]
  {
    if lines == [] {
    } else {
      SplitUnlines(lines[1..]);
      SplitFirst('\n', lines[0], Unlines(lines[1..]));
      assert lines == [lines[0]] + lines[1..];
    }
  }

  /** Reading back written lines. */
  lemma LinesUnlines(lines: seq<string>)
    requires forall l :: l in lines ==> '\n' !in l && (l == [] || l[|l| - 1] != '\r')
    ensures Lines(Unlines(lines)) == lines
  {
    SplitUnlines(lines);
    var pieces := Split('\n', Unlines(lines));
    assert pieces[|pieces| - 1] == [];
    assert pieces[..|pieces| - 1] == lines;
    forall i | 0 <= i < |lines| ensures DropCarriageReturn(lines[i]) == lines[i] {
      assert lines[i] in lines;
    }
    assert Map(DropCarriageReturn, lines) == lines;
  }

  // ----- Characters that survive -----

  lemma TrimKeeps(s: string)
    ensures forall c :: c in Trim(s) ==> c in s
  {
    TrimStartKeeps(s);
    assert Trim(s) <= TrimStart(s);
  }

  lemma TrimStartKeeps(s: string)
    ensures forall c :: c in TrimStart(s) ==> c in s
  {
  }

  lemma {:induction false} SplitKeeps(sep: char, s: string)
    ensures forall p, c :: p in Split(sep, s) && c in p ==> c in s && c != sep
  {
    if s != [] {
      SplitKeeps(sep, s[1..]);
      var r := Split(sep, s[1..]);
      assert r[0] in r && forall p :: p in r[1..] ==> p in r;
    }
  }

  lemma LinesAreOneLiners(s: string)
    ensures forall l :: l in Lines(s) ==> '\n' !in l
  {
    SplitKeeps('\n', s);
    hide Split;
    var pieces := Split('\n', s);
    var last := pieces[|pieces| - 1];
    var ended := Map(DropCarriageReturn, pieces[..|pieces| - 1]);
    forall l | l in ended ensures '\n' !in l {
      var i :| 0 <= i < |ended| && ended[i] == l;
      assert forall c :: c in DropCarriageReturn(pieces[i]) ==> c in pieces[i];
      assert pieces[i] in pieces && ended[i] == DropCarriageReturn(pieces[i]);
    }
    assert last in pieces;
  }

  // ----- Unsigned decimal numbers -----

  predicate IsDigit(c: char) {
    '0' <= c <= '9'
  }

  function DigitChar(d: nat): (c: char)
    requires d < 10
    ensures IsDigit(c)
  {
    (('0' as int) + d) as char
  }

  function DigitOf(c: char): (d: nat)
    requires IsDigit(c)
    ensures d < 10
  {
    (c as int) - ('0' as int)
  }

  function Decimal(n: nat): (s: string)
    ensures s != [] && forall c :: c in s ==> IsDigit(c)
  {
    if n < 10 then [DigitChar(n)] else Decimal(n / 10) + [DigitChar(n % 10)]
  }

  /** The value of a digit string, read from the left. */
  function DigitsValue(s: string): nat
    requires forall c :: c in s ==> IsDigit(c)
  {
    if s == [] then 0
    else
      assert IsDigit(s[|s| - 1]);
      DigitsValue(s[..|s| - 1]) * 10 + DigitOf(s[|s| - 1])
  }

  /** An unsigned number below `limit`: an optional plus sign and at least one digit. */
  function ParseUnsigned(s: string, limit: nat): (r: Option<nat>)
    ensures r.Some? ==> r.value < limit
  {
    var digits := if s != [] && s[0] == '+' then s[1..] else s;
    if digits != [] && (forall c :: c in digits ==> IsDigit(c)) && DigitsValue(digits) < limit
    then Some(DigitsValue(digits))
    else None
  }

  lemma {:induction false} DecimalValue(n: nat)
    ensures DigitsValue(Decimal(n)) == n
  {
    if n >= 10 {
      DecimalValue(n / 10);
      var s := Decimal(n);
      assert s[..|s| - 1] == Decimal(n / 10);
    } else {
      assert DigitsValue([]) == 0;
    }
  }

  lemma ParseDecimal(n: nat, limit: nat)
    requires n < limit
    ensures ParseUnsigned(Decimal(n), limit) == Some(n)
  {
    DecimalValue(n);
    assert IsDigit(Decimal(n)[0]);
  }

  /** A text for a number: an optional plus sign, any zeros, and its decimal digits. */
  ghost predicate Writes(s: string, n: nat) {
    exists plus, zeros :: IsNumeral(s, plus, zeros, n)
  }

  predicate IsNumeral(s: string, plus: string, zeros: string, n: nat) {
    (plus == "" || plus == "+") && (forall c :: c in zeros ==> c == '0') && s == plus + zeros + Decimal(n)
  }

  lemma {:induction false} LeadingZeros(zeros: string, t: string)
    requires (forall c :: c in zeros ==> c == '0') && forall c :: c in t ==> IsDigit(c)
    ensures (forall c :: c in zeros + t ==> IsDigit(c)) && DigitsValue(zeros + t) == DigitsValue(t)
    decreases |zeros|, |t|
  {
    var all := zeros + t;
    if t != [] {
      var init := t[..|t| - 1];
      assert all[..|all| - 1] == zeros + init;
      assert forall c :: c in init ==> c in t;
      LeadingZeros(zeros, init);
      assert t[|t| - 1] in t;
    } else if zeros != [] {
      var init := zeros[..|zeros| - 1];
      assert all[..|all| - 1] == init + [] && init + [] == init;
      assert forall c :: c in init ==> c in zeros;
      LeadingZeros(init, []);
      assert zeros[|zeros| - 1] in zeros;
    }
  }

  predicate AllDigits(s: string) {
    forall c :: c in s ==> IsDigit(c)
  }

  lemma LastDigit(init: string, last: char)
    requires AllDigits(init) && IsDigit(last)
    ensures AllDigits(init + [last])
    ensures DigitsValue(init + [last]) == DigitsValue(init) * 10 + DigitOf(last)
  {
    assert (init + [last])[..|init|] == init;
  }

  /** Any digits are zeros and then the decimal digits of their value. */
  lemma {:induction false} DigitsAreDecimal(digits: string) returns (zeros: string)
    requires digits != [] && AllDigits(digits)
    ensures (forall c :: c in zeros ==> c == '0') && digits == zeros + Decimal(DigitsValue(digits))
  {
    hide Decimal, DigitsValue;
    var init, last := digits[..|digits| - 1], digits[|digits| - 1];
    assert last in digits && forall c :: c in init ==> c in digits;
    assert digits == init + [last];
    LastDigit(init, last);
    var d := DigitOf(last);
    OneDigit(d);
    if init == [] {
      NoDigits();
      zeros := [];
    } else {
      var before := DigitsAreDecimal(init);
      var n := DigitsValue(init);
      if n == 0 {
        OneDigit(0);
        zeros := before + "0";
      } else {
        DecimalNext(n, d);
        zeros := before;
        Regroup(before, Decimal(n), [last]);
      }
    }
  }

  lemma NoDigits()
    ensures DigitsValue([]) == 0
  {
  }

  lemma OneDigit(d: nat)
    requires d < 10
    ensures Decimal(d) == [DigitChar(d)]
  {
  }

  lemma DecimalNext(n: nat, d: nat)
    requires n > 0 && d < 10
    ensures Decimal(n * 10 + d) == Decimal(n) + [DigitChar(d)]
  {
    assert (n * 10 + d) / 10 == n && (n * 10 + d) % 10 == d;
  }

  lemma NumeralParses(digits: string, zeros: string, limit: nat, n: nat)
    requires (forall c :: c in zeros ==> c == '0') && digits == zeros + Decimal(n)
    ensures ParseUnsigned(digits, limit) == ParseUnsigned("+" + digits, limit) == if n < limit then Some(n) else None
  {
    LeadingZeros(zeros, Decimal(n));
    DecimalValue(n);
    hide Decimal, DigitsValue;
    assert digits[0] in digits && ("+" + digits)[1..] == digits;
  }

  /** Exactly the texts of the numbers below the limit are accepted, each as its number. */
  lemma ParsesExactly(s: string, limit: nat, n: nat)
    ensures ParseUnsigned(s, limit) == Some(n) <==> n < limit && Writes(s, n)
  {
    hide Decimal, DigitsValue;
    if ParseUnsigned(s, limit) == Some(n) {
      var plus, digits := if s[0] == '+' then "+" else "", if s[0] == '+' then s[1..] else s;
      var zeros := DigitsAreDecimal(digits);
      assert plus + zeros + Decimal(n) == plus + digits == s;
      assert IsNumeral(s, plus, zeros, n);
    }
    if Writes(s, n) && n < limit {
      var plus, zeros :| IsNumeral(s, plus, zeros, n);
      var digits := zeros + Decimal(n);
      assert s == plus + digits;
      NumeralParses(digits, zeros, limit, n);
      assert "" + digits == digits;
    }
  }
}
