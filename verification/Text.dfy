/** Text as the scripts handle it: lines, trimming, decimal numbers and small patterns. */
module Text {
  import opened Results

  /** ECMAScript white space and line terminators, the characters of `\s`. */
  predicate IsWhite(c: char)
  {
    || '\t' <= c <= '\r' || c == ' ' || c == '\U{A0}' || c == '\U{1680}' || '\U{2000}' <= c <= '\U{200A}'
    || c == '\U{2028}' || c == '\U{2029}' || c == '\U{202F}' || c == '\U{205F}' || c == '\U{3000}' || c == '\U{FEFF}'
  }

  /** The characters `.` does not match. */
  predicate IsLineTerminator(c: char)
  {
    c == '\n' || c == '\r' || c == '\U{2028}' || c == '\U{2029}'
  }

  predicate IsDigit(c: char)
  {
    '0' <= c <= '9'
  }

  predicate AllDigits(s: string)
  {
    |s| > 0 && forall i | 0 <= i < |s| :: IsDigit(s[i])
  }

  function TrimStart(s: string): string
  {
    if s != [] && IsWhite(s[0]) then TrimStart(s[1..]) else s
  }

  function TrimEnd(s: string): string
  {
    if s != [] && IsWhite(s[|s| - 1]) then TrimEnd(s[..|s| - 1]) else s
  }

  function Trim(s: string): string
  {
    TrimEnd(TrimStart(s))
  }

  /** A text whose ends are not white space is its own trimmed form. */
  lemma TrimmedAlready(s: string)
    requires s == [] || (!IsWhite(s[0]) && !IsWhite(s[|s| - 1]))
    ensures Trim(s) == s
  {
  }

  lemma TrimBlankPrefix(s: string)
    requires s == [] || (!IsWhite(s[0]) && !IsWhite(s[|s| - 1]))
    ensures Trim([' '] + s) == s
  {
    assert ([' '] + s)[1..] == s;
    assert IsWhite(' ');
    assert TrimStart([' '] + s) == TrimStart(s);
  }

  /** The position of the first `c`, or the length. */
  function IndexOf(s: string, c: char): (i: nat)
    ensures i <= |s| && (i < |s| ==> s[i] == c) && forall j | 0 <= j < i :: s[j] != c
  {
    if s == [] || s[0] == c then 0 else 1 + IndexOf(s[1..], c)
  }

  lemma IndexOfAfter(a: string, c: char, b: string)
    requires c !in a
    ensures IndexOf(a + [c] + b, c) == |a|
  {
    var s := a + [c] + b;
    assert s[|a|] == c;
    assert forall j | 0 <= j < |a| :: s[j] == a[j];
  }

  // ---------------------------------------------------------------- lines

  /** The pieces between line feeds; there is always at least one. */
  function Split(s: string): (r: seq<string>)
    ensures |r| > 0
  {
    if s == [] then [[]]
    else if s[0] == '\n' then [[]] + Split(s[1..])
    else
      var r := Split(s[1..]);
      [[s[0]] + r[0]] + r[1..]
  }

  /** The lines, each followed by a line feed except the last. */
  function Join(lines: seq<string>): string
    requires |lines| > 0
  {
    if |lines| == 1 then lines[0] else lines[0] + ['\n'] + Join(lines[1..])
  }

  /** Every line followed by a line feed. */
  function Unlines(lines: seq<string>): string
  {
    if lines == [] then [] else lines[0] + ['\n'] + Unlines(lines[1..])
  }

  lemma {:induction false} SplitLine(line: string, rest: string)
    requires '\n' !in line
    ensures Split(line + ['\n'] + rest) == [line] + Split(rest)
    decreases |line|
  {
    var s := line + ['\n'] + rest;
    if line == [] {
      assert s == ['\n'] + rest && s[1..] == rest;
    } else {
      assert s[1..] == line[1..] + ['\n'] + rest;
      SplitLine(line[1..], rest);
      assert [line[0]] + line[1..] == line;
    }
  }

  lemma {:induction false} SplitSingle(line: string)
    requires '\n' !in line
    ensures Split(line) == [line]
    decreases |line|
  {
    if line != [] {
      SplitSingle(line[1..]);
      assert [line[0]] + line[1..] == line;
    }
  }

  /** Splitting undoes joining. */
  lemma {:induction false} SplitJoin(lines: seq<string>)
    requires |lines| > 0 && forall line | line in lines :: '\n' !in line
    ensures Split(Join(lines)) == lines
    decreases |lines|
  {
    if |lines| == 1 {
      SplitSingle(lines[0]);
    } else {
      SplitJoin(lines[1..]);
      SplitLine(lines[0], Join(lines[1..]));
    }
  }

  lemma {:induction false} SplitUnlines(lines: seq<string>)
    requires forall line | line in lines :: '\n' !in line
    ensures Split(Unlines(lines)) == lines + [[]]
    decreases |lines|
  {
    if lines != [] {
      SplitUnlines(lines[1..]);
      SplitLine(lines[0], Unlines(lines[1..]));
    }
  }

  /** Joining undoes splitting, and no piece holds a line feed. */
  lemma {:induction false} JoinSplit(s: string)
    ensures Join(Split(s)) == s && forall line | line in Split(s) :: '\n' !in line
    decreases |s|
  {
    if s != [] {
      JoinSplit(s[1..]);
      var r := Split(s[1..]);
      if s[0] == '\n' {
        assert ([[]] + r)[1..] == r;
      } else {
        var all := [[s[0]] + r[0]] + r[1..];
        assert all[1..] == r[1..];
      }
    }
  }

  lemma UnlinesConcat(a: seq<string>, b: seq<string>)
    ensures Unlines(a + b) == Unlines(a) + Unlines(b)
    decreases |a|
  {
    if a == [] {
      assert a + b == b;
    } else {
      assert (a + b)[1..] == a[1..] + b;
      UnlinesConcat(a[1..], b);
    }
  }

  // ---------------------------------------------------------------- decimal numbers

  function DigitChar(d: nat): (c: char)
    requires d < 10
    ensures IsDigit(c)
  {
    '0' + d as char
  }

  function Decimal(n: nat): (s: string)
    ensures AllDigits(s)
  {
    if n < 10 then [DigitChar(n)] else Decimal(n / 10) + [DigitChar(n % 10)]
  }

  function DigitsValue(s: string): nat
    requires forall i | 0 <= i < |s| :: IsDigit(s[i])
  {
    if s == [] then 0
    else
      assert IsDigit(s[|s| - 1]);
      DigitsValue(s[..|s| - 1]) * 10 + (s[|s| - 1] as int - '0' as int)
  }

  lemma {:induction false} DecimalValue(n: nat)
    ensures DigitsValue(Decimal(n)) == n
    decreases n
  {
    if n >= 10 {
      DecimalValue(n / 10);
      var s := Decimal(n);
      assert s[..|s| - 1] == Decimal(n / 10) && s[|s| - 1] == DigitChar(n % 10);
    } else {
      assert [DigitChar(n)][..0] == [];
    }
  }

  lemma DecimalInjective(m: nat, n: nat)
    requires Decimal(m) == Decimal(n)
    ensures m == n
  {
    DecimalValue(m);
    DecimalValue(n);
  }

  lemma {:induction false} DecimalLength(n: nat, digits: nat, bound: nat)
    requires n < bound && bound == Power10(digits) && digits > 0
    ensures |Decimal(n)| <= digits
    decreases n
  {
    if n >= 10 {
      assert digits > 1 by {
        assert Power10(1) == 10;
      }
      assert n / 10 < Power10(digits - 1);
      DecimalLength(n / 10, digits - 1, Power10(digits - 1));
    }
  }

  function Power10(n: nat): nat
  {
    if n == 0 then 1 else 10 * Power10(n - 1)
  }

  // ---------------------------------------------------------------- patterns of literals and numbers

  /** A piece of an anchored pattern: literal text, or one or more digits. */
  datatype Piece = Lit(text: string) | Num

  /** The length of the leading run of digits. */
  function DigitRun(s: string): (n: nat)
    ensures n <= |s| && (forall i | 0 <= i < n :: IsDigit(s[i])) && (n < |s| ==> !IsDigit(s[n]))
  {
    if s != [] && IsDigit(s[0]) then 1 + DigitRun(s[1..]) else 0
  }

  /** Whether the whole text is the pieces, one after the other. */
  predicate Matches(s: string, pieces: seq<Piece>)
    decreases |pieces|
  {
    if pieces == [] then s == []
    else
      match pieces[0]
      case Lit(text) => text <= s && Matches(s[|text|..], pieces[1..])
      case Num => DigitRun(s) > 0 && Matches(s[DigitRun(s)..], pieces[1..])
  }

  lemma MatchLit(text: string, s: string, pieces: seq<Piece>)
    requires Matches(s, pieces)
    ensures Matches(text + s, [Lit(text)] + pieces)
  {
    var all := [Lit(text)] + pieces;
    assert all[1..] == pieces && (text + s)[|text|..] == s;
  }

  lemma MatchNum(n: nat, s: string, pieces: seq<Piece>)
    requires Matches(s, pieces) && (s == [] || !IsDigit(s[0]))
    ensures Matches(Decimal(n) + s, [Num] + pieces)
  {
    var all, text := [Num] + pieces, Decimal(n) + s;
    var run := DigitRun(text);
    assert forall i | 0 <= i < |Decimal(n)| :: text[i] == Decimal(n)[i];
    assert s != [] ==> text[|Decimal(n)|] == s[0];
    assert run == |Decimal(n)|;
    assert all[1..] == pieces && text[run..] == s;
  }
}
