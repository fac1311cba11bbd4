/**
  Pinning the Gradle wrapper: rewriting the distribution lines of a properties file, and the
  validator that inspects the result. A text is handled through its pieces between line feeds.
 */
module GradlePin {
  import opened Results
  import opened Text

  // ---------------------------------------------------------------- the properties

  datatype Key = DistributionUrl | DistributionSum

  /** The URL as a properties file spells it. */
  function Url(): string
  {
    "https\\://services.gradle.org" + "/distributions/" + "gradle-8.14.3-bin.zip"
  }

  function Sum(): string
  {
    "bd71102213493060956ec229d946beee" + "57158dbd89d0e62b91bca0fa2c5f3531"
  }

  function KeyName(key: Key): string
  {
    if key.DistributionUrl? then "distributionUrl" else "distributionSha256Sum"
  }

  const BASE_NAME := "distributionBase"

  function Value(key: Key): string
  {
    if key.DistributionUrl? then Url() else Sum()
  }

  function CanonicalLine(key: Key): string
  {
    KeyName(key) + "=" + Value(key)
  }

  function Canonical(): (lines: seq<string>)
    ensures |lines| == 2
  {
    [CanonicalLine(DistributionUrl), CanonicalLine(DistributionSum)]
  }

  /** What follows the separator: white space around `=` or `:`, or white space alone. */
  function AfterSeparator(rest: string): Option<string>
  {
    var u := TrimStart(rest);
    if u != [] && (u[0] == '=' || u[0] == ':') then Some(TrimStart(u[1..]))
    else if |u| < |rest| then Some(u)
    else None
  }

  /** The rest of a line that, after white space, begins with the name. */
  function AfterName(line: string, name: string): Option<string>
  {
    var t := TrimStart(line);
    if name <= t then AfterSeparator(t[|name|..]) else None
  }

  predicate OneLine(s: string)
  {
    forall i | 0 <= i < |s| :: !IsLineTerminator(s[i])
  }

  /** The raw value a line gives to a key; a value never spans a line terminator. */
  function ValueOf(line: string, key: Key): Option<string>
  {
    match AfterName(line, KeyName(key))
    case None => None
    case Some(value) => if OneLine(value) then Some(value) else None
  }

  predicate IsCritical(line: string)
  {
    ValueOf(line, DistributionUrl).Some? || ValueOf(line, DistributionSum).Some?
  }

  predicate IsBase(line: string)
  {
    AfterName(line, BASE_NAME).Some?
  }

  // ---------------------------------------------------------------- lines

  predicate EndsCr(line: string)
  {
    line != [] && line[|line| - 1] == '\r'
  }

  function WithoutCr(line: string): string
  {
    if EndsCr(line) then line[..|line| - 1] else line
  }

  /** One carriage return before each line feed belongs to the separator. */
  function Lines(s: string): (r: seq<string>)
    ensures |r| > 0
  {
    DropCrs(Split(s))
  }

  function DropCrs(pieces: seq<string>): (r: seq<string>)
    ensures |r| == |pieces|
  {
    seq(|pieces|, i requires 0 <= i < |pieces| => if i < |pieces| - 1 then WithoutCr(pieces[i]) else pieces[i])
  }

  function AddCrs(lines: seq<string>): (r: seq<string>)
    ensures |r| == |lines|
  {
    seq(|lines|, i requires 0 <= i < |lines| => if i < |lines| - 1 then lines[i] + ['\r'] else lines[i])
  }

  predicate HasCrlf(s: string)
  {
    exists i | 0 < i < |s| :: s[i - 1] == '\r' && s[i] == '\n'
  }

  /** Some piece before the last ends with a carriage return. */
  predicate HasInnerCr(pieces: seq<string>)
  {
    exists i | 0 <= i < |pieces| - 1 :: EndsCr(pieces[i])
  }

  // ---------------------------------------------------------------- pinning

  function Survivors(lines: seq<string>): seq<string>
  {
    if lines == [] then []
    else
      var rest := Survivors(lines[..|lines| - 1]);
      var last := lines[|lines| - 1];
      if IsCritical(last) then rest else rest + [last]
  }

  function FirstCritical(lines: seq<string>): (i: nat)
    ensures i <= |lines| && (i < |lines| ==> IsCritical(lines[i])) && forall j | 0 <= j < i :: !IsCritical(lines[j])
  {
    if lines == [] || IsCritical(lines[0]) then 0 else 1 + FirstCritical(lines[1..])
  }

  function FirstBase(lines: seq<string>): (i: nat)
    ensures i <= |lines| && (i < |lines| ==> IsBase(lines[i])) && forall j | 0 <= j < i :: !IsBase(lines[j])
  {
    if lines == [] || IsBase(lines[0]) then 0 else 1 + FirstBase(lines[1..])
  }

  /** Where the canonical lines go: in place of the first critical line, else after the first base line, else on top. */
  function Slot(lines: seq<string>): (i: nat)
    ensures i <= |lines|
  {
    if FirstCritical(lines) < |lines| then FirstCritical(lines)
    else if FirstBase(lines) < |lines| then FirstBase(lines) + 1
    else 0
  }

  function PinLines(lines: seq<string>): seq<string>
  {
    var k := Slot(lines);
    Survivors(lines[..k]) + Canonical() + Survivors(lines[k..])
  }

  function Pin(s: string): string
  {
    var lines := PinLines(Lines(s));
    Join(if HasCrlf(s) then AddCrs(lines) else lines)
  }

  /**
    The only texts that pinning does not settle at once: no critical line, no CRLF, and the last
    line is the first base line and ends with a lone carriage return.
   */
  predicate IsUnsettled(s: string)
  {
    var lines := Lines(s);
    && !HasCrlf(s) && FirstCritical(lines) == |lines|
    && FirstBase(lines) == |lines| - 1 && EndsCr(lines[|lines| - 1])
  }

  // ---------------------------------------------------------------- the validator

  datatype Problem = UrlMissing | UrlRepeated | UrlMismatch | SumMissing | SumRepeated | SumMalformed | SumMismatch

  /** The trimmed values of the lines that set the key, in order. */
  function Entries(lines: seq<string>, key: Key): seq<string>
  {
    if lines == [] then []
    else
      var rest := Entries(lines[..|lines| - 1], key);
      match ValueOf(lines[|lines| - 1], key)
      case None => rest
      case Some(value) => rest + [Trim(value)]
  }

  predicate IsSumText(s: string)
  {
    |s| == 64 && forall i | 0 <= i < |s| :: IsDigit(s[i]) || 'a' <= s[i] <= 'f'
  }

  function Problems(urls: seq<string>, sums: seq<string>): seq<Problem>
  {
    (if urls == [] then [UrlMissing] else if |urls| > 1 then [UrlRepeated]
     else if urls[0] != Url() then [UrlMismatch] else [])
    + (if sums == [] then [SumMissing] else if |sums| > 1 then [SumRepeated]
       else if !IsSumText(sums[0]) then [SumMalformed] else if sums[0] != Sum() then [SumMismatch] else [])
  }

  function Validate(s: string): seq<Problem>
  {
    Problems(Entries(Lines(s), DistributionUrl), Entries(Lines(s), DistributionSum))
  }

  // ---------------------------------------------------------------- the canonical lines

  lemma {:induction false} TrimStartShape(s: string)
    ensures exists n | 0 <= n <= |s| :: TrimStart(s) == s[n..]
    ensures TrimStart(s) != [] ==> !IsWhite(TrimStart(s)[0])
    decreases |s|
  {
    if s != [] && IsWhite(s[0]) {
      TrimStartShape(s[1..]);
      var n :| 0 <= n <= |s[1..]| && TrimStart(s[1..]) == s[1..][n..];
      assert s[1..][n..] == s[n + 1..];
    } else {
      assert s == s[0..];
    }
  }

  lemma NamesDiffer(text: string)
    ensures !("distributionUrl" <= text && "distributionSha256Sum" <= text)
    ensures !("distributionUrl" <= text && BASE_NAME <= text)
    ensures !("distributionSha256Sum" <= text && BASE_NAME <= text)
  {
    assert "distributionUrl"[12] == 'U' && "distributionSha256Sum"[12] == 'S' && "distributionBase"[12] == 'B';
  }

  /** A base line is not critical. */
  lemma BaseIsNotCritical(line: string)
    requires BASE_NAME <= TrimStart(line)
    ensures !IsCritical(line)
  {
    hide TrimStart, AfterSeparator;
    NamesDiffer(TrimStart(line));
  }

  lemma EqualsSeparates(value: string)
    requires value != [] && !IsWhite(value[0])
    ensures AfterSeparator("=" + value) == Some(value)
  {
    assert ("=" + value)[1..] == value;
    assert !IsWhite('=');
  }

  /** Visible ASCII without white space. */
  predicate IsToken(s: string)
  {
    s != [] && forall i | 0 <= i < |s| :: '!' <= s[i] <= '~'
  }

  lemma TokenConcat(a: string, b: string)
    requires IsToken(a) && IsToken(b)
    ensures IsToken(a + b)
  {
  }

  lemma TokenFacts(s: string)
    requires IsToken(s)
    ensures s != [] && !IsWhite(s[0]) && !IsWhite(s[|s| - 1]) && OneLine(s) && '\n' !in s && !EndsCr(s)
  {
    assert forall i | 0 <= i < |s| :: '!' <= s[i] <= '~';
  }

  lemma UrlParts()
    ensures IsToken("https\\://services.gradle.org") && IsToken("/distributions/") && IsToken("gradle-8.14.3-bin.zip")
  {
  }

  lemma SumParts()
    ensures IsToken("bd71102213493060956ec229d946beee") && IsToken("57158dbd89d0e62b91bca0fa2c5f3531")
  {
  }

  lemma ValueIsToken(key: Key)
    ensures IsToken(Value(key))
  {
    hide IsToken;
    UrlParts();
    SumParts();
    TokenConcat("https\\://services.gradle.org", "/distributions/");
    TokenConcat("https\\://services.gradle.org" + "/distributions/", "gradle-8.14.3-bin.zip");
    TokenConcat("bd71102213493060956ec229d946beee", "57158dbd89d0e62b91bca0fa2c5f3531");
  }

  lemma NameIsToken(key: Key)
    ensures IsToken(KeyName(key)) && IsToken("=")
  {
  }

  lemma TokenLine(line: string, name: string, value: string)
    requires IsToken(name) && IsToken(value) && line == name + "=" + value
    ensures AfterName(line, name) == Some(value) && OneLine(value) && Trim(value) == value
    ensures TrimStart(line) == line && name <= line && !EndsCr(line) && '\n' !in line
  {
    assert IsToken("=");
    TokenConcat(name, "=");
    TokenConcat(name + "=", value);
    TokenFacts(line);
    TokenFacts(value);
    EqualsSeparates(value);
    TrimmedAlready(value);
    hide IsToken, IsWhite, AfterSeparator, Trim;
    assert TrimStart(line) == line;
    assert line[|name|..] == "=" + value;
  }

  lemma CanonicalIsCritical(key: Key)
    ensures ValueOf(CanonicalLine(key), key) == Some(Value(key)) && Trim(Value(key)) == Value(key)
    ensures forall other | other != key :: ValueOf(CanonicalLine(key), other) == None
    ensures !EndsCr(CanonicalLine(key)) && '\n' !in CanonicalLine(key)
  {
    ValueIsToken(key);
    NameIsToken(key);
    hide Value, KeyName, IsToken, Trim, AfterSeparator, TrimStart, EndsCr, OneLine;
    var line := CanonicalLine(key);
    TokenLine(line, KeyName(key), Value(key));
    forall other | other != key ensures ValueOf(line, other) == None {
      OtherName(key, other, line);
    }
  }

  lemma OtherName(key: Key, other: Key, line: string)
    requires key != other && KeyName(key) <= line
    ensures !(KeyName(other) <= line)
  {
    NamesDiffer(line);
  }

  lemma CanonicalLines()
    ensures forall line | line in Canonical() :: IsCritical(line) && !EndsCr(line) && '\n' !in line
    ensures Survivors(Canonical()) == [] && FirstCritical(Canonical()) == 0
    ensures Entries(Canonical(), DistributionUrl) == [Url()] && Entries(Canonical(), DistributionSum) == [Sum()]
  {
    CanonicalIsCritical(DistributionUrl);
    CanonicalIsCritical(DistributionSum);
    hide CanonicalLine, ValueOf, Url, Sum, Trim, EndsCr;
    var lines, first := Canonical(), [CanonicalLine(DistributionUrl)];
    assert lines[..1] == first && first[..0] == [];
  }

  // ---------------------------------------------------------------- survivors and entries

  lemma {:induction false} SurvivorsConcat(a: seq<string>, b: seq<string>)
    ensures Survivors(a + b) == Survivors(a) + Survivors(b)
    decreases |b|
  {
    hide IsCritical;
    if b == [] {
      assert a + b == a;
    } else {
      SurvivorsConcat(a, b[..|b| - 1]);
      assert (a + b)[..|a + b| - 1] == a + b[..|b| - 1];
    }
  }

  lemma {:induction false} EntriesConcat(a: seq<string>, b: seq<string>, key: Key)
    ensures Entries(a + b, key) == Entries(a, key) + Entries(b, key)
    decreases |b|
  {
    hide ValueOf, Trim;
    if b == [] {
      assert a + b == a;
    } else {
      EntriesConcat(a, b[..|b| - 1], key);
      assert (a + b)[..|a + b| - 1] == a + b[..|b| - 1];
    }
  }

  ghost predicate NoneCritical(lines: seq<string>)
  {
    forall line | line in lines :: !IsCritical(line)
  }

  lemma {:induction false} SurvivorsOf(lines: seq<string>)
    ensures NoneCritical(Survivors(lines)) && forall line | line in Survivors(lines) :: line in lines
    decreases |lines|
  {
    hide IsCritical;
    if lines != [] {
      SurvivorsOf(lines[..|lines| - 1]);
    }
  }

  lemma {:induction false} AllSurvive(lines: seq<string>)
    requires NoneCritical(lines)
    ensures Survivors(lines) == lines
    decreases |lines|
  {
    hide IsCritical;
    if lines != [] {
      assert lines[|lines| - 1] in lines;
      AllSurvive(lines[..|lines| - 1]);
      assert lines == lines[..|lines| - 1] + [lines[|lines| - 1]];
    }
  }

  lemma {:induction false} NoEntries(lines: seq<string>, key: Key)
    requires NoneCritical(lines)
    ensures Entries(lines, key) == []
    decreases |lines|
  {
    if lines != [] {
      assert lines[|lines| - 1] in lines;
      hide ValueOf;
      NoEntries(lines[..|lines| - 1], key);
    }
  }

  lemma {:induction false} FirstCriticalAt(a: seq<string>, b: seq<string>)
    requires NoneCritical(a) && b != [] && IsCritical(b[0])
    ensures FirstCritical(a + b) == |a|
    decreases |a|
  {
    hide IsCritical;
    if a == [] {
      assert a + b == b;
    } else {
      assert a[0] in a && (a + b)[1..] == a[1..] + b;
      FirstCriticalAt(a[1..], b);
    }
  }

  lemma SurvivorsAround(before: seq<string>, pair: seq<string>, after: seq<string>)
    requires NoneCritical(before) && NoneCritical(after) && Survivors(pair) == []
    ensures Survivors(before + pair + after) == before + after
    ensures Survivors(pair + after) == after
  {
    hide IsCritical, Survivors, NoneCritical;
    AllSurvive(before);
    AllSurvive(after);
    SurvivorsConcat(before + pair, after);
    SurvivorsConcat(before, pair);
    SurvivorsConcat(pair, after);
  }

  lemma EntriesAround(before: seq<string>, pair: seq<string>, after: seq<string>, key: Key)
    requires NoneCritical(before) && NoneCritical(after)
    ensures Entries(before + pair + after, key) == Entries(pair, key)
  {
    hide Entries, NoneCritical;
    EntriesConcat(before + pair, after, key);
    EntriesConcat(before, pair, key);
    NoEntries(before, key);
    NoEntries(after, key);
  }

  lemma SlotAround(before: seq<string>, pair: seq<string>, after: seq<string>)
    requires NoneCritical(before) && pair != [] && IsCritical(pair[0])
    ensures Slot(before + pair + after) == |before|
  {
    hide IsCritical, NoneCritical, FirstCritical;
    assert before + pair + after == before + (pair + after);
    FirstCriticalAt(before, pair + after);
  }

  /** What pinning leaves: the survivors in order, around the canonical pair. */
  lemma PinnedShape(lines: seq<string>)
    ensures var k := Slot(lines); NoneCritical(Survivors(lines[..k])) && NoneCritical(Survivors(lines[k..]))
    ensures Survivors(PinLines(lines)) == Survivors(lines)
  {
    hide Canonical, Survivors, Slot, NoneCritical, Entries, FirstCritical, IsCritical, EndsCr, Url, Sum;
    var k := Slot(lines);
    SurvivorsOf(lines[..k]);
    SurvivorsOf(lines[k..]);
    CanonicalLines();
    assert lines == lines[..k] + lines[k..];
    SurvivorsConcat(lines[..k], lines[k..]);
    SurvivorsAround(Survivors(lines[..k]), Canonical(), Survivors(lines[k..]));
  }

  lemma AroundCanonical(before: seq<string>, after: seq<string>)
    requires NoneCritical(before) && NoneCritical(after)
    ensures var lines := before + Canonical() + after;
            && PinLines(lines) == lines
            && Entries(lines, DistributionUrl) == [Url()] && Entries(lines, DistributionSum) == [Sum()]
  {
    hide Canonical, IsCritical, Url, Sum, Survivors, Slot, NoneCritical, Entries, FirstCritical, EndsCr;
    var lines := before + Canonical() + after;
    CanonicalLines();
    assert Canonical()[0] in Canonical();
    SlotAround(before, Canonical(), after);
    assert lines[..|before|] == before && lines[|before|..] == Canonical() + after;
    AllSurvive(before);
    SurvivorsAround(before, Canonical(), after);
    EntriesAround(before, Canonical(), after, DistributionUrl);
    EntriesAround(before, Canonical(), after, DistributionSum);
  }

  // ---------------------------------------------------------------- carriage returns

  lemma {:induction false} CrlfInPieces(s: string)
    ensures HasCrlf(s) <==> HasInnerCr(Split(s))
    decreases |s|
  {
    if s != [] {
      CrlfInPieces(s[1..]);
      CrlfHead(s);
      PiecesHead(s);
    } else {
      assert Split(s) == [[]];
    }
  }

  lemma CrlfHead(s: string)
    requires s != []
    ensures HasCrlf(s) <==> (|s| > 1 && s[0] == '\r' && s[1] == '\n') || HasCrlf(s[1..])
  {
    if HasCrlf(s) {
      var i :| 0 < i < |s| && s[i - 1] == '\r' && s[i] == '\n';
      if i > 1 {
        assert s[1..][i - 1 - 1] == '\r' && s[1..][i - 1] == '\n';
      }
    }
    if HasCrlf(s[1..]) {
      var i :| 0 < i < |s[1..]| && s[1..][i - 1] == '\r' && s[1..][i] == '\n';
      assert s[i + 1 - 1] == '\r' && s[i + 1] == '\n';
    }
    if |s| > 1 && s[0] == '\r' && s[1] == '\n' {
      assert s[1 - 1] == '\r' && s[1] == '\n';
    }
  }

  lemma InnerCrTail(pieces: seq<string>)
    requires |pieces| > 1
    ensures HasInnerCr(pieces) <==> EndsCr(pieces[0]) || HasInnerCr(pieces[1..])
  {
    hide EndsCr;
    if HasInnerCr(pieces[1..]) {
      var i :| 0 <= i < |pieces[1..]| - 1 && EndsCr(pieces[1..][i]);
      assert EndsCr(pieces[i + 1]);
    }
    if HasInnerCr(pieces) {
      var i :| 0 <= i < |pieces| - 1 && EndsCr(pieces[i]);
      if i > 0 {
        assert EndsCr(pieces[1..][i - 1]);
      }
    }
  }

  lemma PiecesHead(s: string)
    requires s != []
    ensures HasInnerCr(Split(s)) <==> (|s| > 1 && s[0] == '\r' && s[1] == '\n') || HasInnerCr(Split(s[1..]))
  {
    hide HasInnerCr;
    var r, all := Split(s[1..]), Split(s);
    if s[0] == '\n' {
      assert all[1..] == r;
      InnerCrTail(all);
    } else {
      assert all[1..] == r[1..] && |all| == |r|;
      assert r[0] == [] && |r| > 1 <==> |s| > 1 && s[1] == '\n' by {
        assert s[1..] != [] ==> s[1..][0] == s[1];
      }
      if |r| > 1 {
        InnerCrTail(all);
        InnerCrTail(r);
      } else {
        NoInnerCr(all);
        NoInnerCr(r);
      }
    }
  }

  lemma NoInnerCr(pieces: seq<string>)
    requires |pieces| <= 1
    ensures !HasInnerCr(pieces)
  {
  }

  ghost predicate NoLineFeeds(lines: seq<string>)
  {
    forall line | line in lines :: '\n' !in line
  }

  lemma AddCrsNoFeeds(lines: seq<string>)
    requires NoLineFeeds(lines)
    ensures NoLineFeeds(AddCrs(lines))
  {
    forall line | line in AddCrs(lines) ensures '\n' !in line {
      var i :| 0 <= i < |lines| && AddCrs(lines)[i] == line;
      assert lines[i] in lines;
    }
  }

  lemma DropAddCrs(lines: seq<string>)
    ensures DropCrs(AddCrs(lines)) == lines
    ensures |lines| > 1 ==> HasInnerCr(AddCrs(lines))
  {
    if |lines| > 1 {
      assert EndsCr(AddCrs(lines)[0]);
    }
  }

  lemma DropNothing(lines: seq<string>)
    requires !HasInnerCr(lines)
    ensures DropCrs(lines) == lines
  {
  }

  lemma LinesNoFeeds(s: string)
    ensures NoLineFeeds(Lines(s))
  {
    JoinSplit(s);
    hide Split;
    forall line | line in Lines(s) ensures '\n' !in line {
      var i :| 0 <= i < |Lines(s)| && Lines(s)[i] == line;
      assert Split(s)[i] in Split(s);
    }
  }

  lemma PinnedNoFeeds(lines: seq<string>)
    requires NoLineFeeds(lines)
    ensures NoLineFeeds(PinLines(lines)) && |PinLines(lines)| > 1
  {
    hide Canonical, Survivors, Slot, IsCritical, EndsCr, Entries, FirstCritical, Url, Sum;
    var k := Slot(lines);
    SurvivorsOf(lines[..k]);
    SurvivorsOf(lines[k..]);
    CanonicalLines();
  }

  // ---------------------------------------------------------------- where a lone carriage return ends up

  /** Every survivor but the last came from before the last line. */
  lemma {:induction false} InnerSurvivors(lines: seq<string>, i: nat)
    requires i < |Survivors(lines)| - 1 && !HasInnerCr(lines)
    ensures !EndsCr(Survivors(lines)[i])
    decreases |lines|
  {
    hide IsCritical, EndsCr;
    var front := lines[..|lines| - 1];
    if IsCritical(lines[|lines| - 1]) {
      FrontNoCr(lines);
      InnerSurvivors(front, i);
    } else {
      SurvivorsOf(front);
      FrontNoCr(lines);
      assert Survivors(lines)[i] in Survivors(front);
    }
  }

  lemma FrontNoCr(lines: seq<string>)
    requires lines != [] && !HasInnerCr(lines)
    ensures var front := lines[..|lines| - 1]; !HasInnerCr(front) && forall line | line in front :: !EndsCr(line)
  {
    hide EndsCr;
    var front := lines[..|lines| - 1];
    forall line | line in front ensures !EndsCr(line) {
      var i :| 0 <= i < |front| && front[i] == line;
      assert lines[i] == line;
    }
  }

  lemma TailNoCr(lines: seq<string>, k: nat)
    requires k <= |lines| && !HasInnerCr(lines)
    ensures !HasInnerCr(lines[k..])
  {
    hide EndsCr;
    forall i | 0 <= i < |lines[k..]| - 1 ensures !EndsCr(lines[k..][i]) {
      assert lines[k..][i] == lines[k + i];
    }
  }

  /** Without CRLF, pinning puts a carriage return before a line feed only by inserting after the last line. */
  lemma PinnedNoInnerCr(lines: seq<string>)
    requires !HasInnerCr(lines) && (Slot(lines) == |lines| > 0 ==> !EndsCr(lines[|lines| - 1]))
    ensures !HasInnerCr(PinLines(lines))
  {
    hide Canonical, Survivors, Slot, IsCritical, EndsCr, Entries, FirstCritical, Url, Sum, HasInnerCr;
    var k := Slot(lines);
    var before, after := Survivors(lines[..k]), Survivors(lines[k..]);
    SurvivorsOf(lines[..k]);
    CanonicalLines();
    HeadNoCr(lines, k);
    TailNoCr(lines, k);
    forall i | 0 <= i < |PinLines(lines)| - 1 ensures !EndsCr(PinLines(lines)[i]) {
      if i < |before| {
        assert before[i] in before;
      } else if i < |before| + 2 {
        assert Canonical()[i - |before|] in Canonical();
      } else {
        InnerSurvivors(lines[k..], i - |before| - 2);
      }
    }
    NoInner(PinLines(lines));
  }

  lemma NoInner(pieces: seq<string>)
    requires forall i | 0 <= i < |pieces| - 1 :: !EndsCr(pieces[i])
    ensures !HasInnerCr(pieces)
  {
  }

  lemma HeadNoCr(lines: seq<string>, k: nat)
    requires k <= |lines| && !HasInnerCr(lines) && (k == |lines| > 0 ==> !EndsCr(lines[|lines| - 1]))
    ensures forall line | line in lines[..k] :: !EndsCr(line)
  {
    hide EndsCr;
    forall line | line in lines[..k] ensures !EndsCr(line) {
      var i :| 0 <= i < k && lines[..k][i] == line;
      assert lines[i] == line;
    }
  }

  // ---------------------------------------------------------------- reading a pinned text back

  lemma LinesWithoutCrlf(s: string)
    requires !HasCrlf(s)
    ensures Lines(s) == Split(s) && !HasInnerCr(Lines(s))
  {
    hide HasCrlf, HasInnerCr, Split, DropCrs;
    CrlfInPieces(s);
    DropNothing(Split(s));
  }

  lemma UnsettledSlot(s: string)
    requires !HasCrlf(s)
    ensures IsUnsettled(s) <==> Slot(Lines(s)) == |Lines(s)| && EndsCr(Lines(s)[|Lines(s)| - 1])
  {
    hide HasCrlf, EndsCr, Lines, FirstCritical, FirstBase;
  }

  lemma PinnedPieces(s: string)
    ensures var out := PinLines(Lines(s)); Split(Pin(s)) == if HasCrlf(s) then AddCrs(out) else out
  {
    hide HasCrlf, Split, PinLines, NoLineFeeds, Lines;
    var out := PinLines(Lines(s));
    LinesNoFeeds(s);
    PinnedNoFeeds(Lines(s));
    AddCrsNoFeeds(out);
    var pieces := if HasCrlf(s) then AddCrs(out) else out;
    assert NoLineFeeds(pieces);
    SplitJoinPieces(pieces);
  }

  lemma SplitJoinPieces(pieces: seq<string>)
    requires |pieces| > 0 && NoLineFeeds(pieces)
    ensures Split(Join(pieces)) == pieces
  {
    SplitJoin(pieces);
  }

  /** A settled text is read back as the pinned lines, with the same line ends. */
  lemma PinnedReadBack(s: string)
    requires !IsUnsettled(s)
    ensures Lines(Pin(s)) == PinLines(Lines(s)) && HasCrlf(Pin(s)) == HasCrlf(s)
  {
    hide HasCrlf, HasInnerCr, Split, PinLines, Pin, IsUnsettled, EndsCr, NoLineFeeds, DropCrs, AddCrs, Slot;
    var out := PinLines(Lines(s));
    PinnedPieces(s);
    CrlfInPieces(Pin(s));
    LinesNoFeeds(s);
    PinnedNoFeeds(Lines(s));
    if HasCrlf(s) {
      DropAddCrs(out);
    } else {
      LinesWithoutCrlf(s);
      UnsettledSlot(s);
      PinnedNoInnerCr(Lines(s));
      DropNothing(out);
    }
  }

  /** An unsettled text gains a CRLF after its last line. */
  lemma UnsettledReadBack(s: string)
    requires IsUnsettled(s)
    ensures var lines := Lines(s);
            var n := |lines| - 1;
            && HasCrlf(Pin(s)) && Split(Pin(s)) == lines + Canonical()
            && Lines(Pin(s)) == lines[..n] + [WithoutCr(lines[n])] + Canonical()
            && NoneCritical(lines) && NoneCritical(lines[..n] + [WithoutCr(lines[n])])
  {
    var lines := Lines(s);
    var n := |lines| - 1;
    UnsettledLines(s);
    PinnedPieces(s);
    hide HasCrlf, Split, Pin, PinLines, Lines, Canonical, IsCritical, NoneCritical;
    var out := lines + Canonical();
    CrlfInPieces(Pin(s));
    assert out[n] == lines[n];
    assert HasInnerCr(out);
    UnsettledDrop(lines, Canonical());
    SameLines(Pin(s), out);
  }

  lemma SameLines(s: string, pieces: seq<string>)
    requires Split(s) == pieces
    ensures Lines(s) == DropCrs(pieces)
  {
  }

  lemma UnsettledDrop(lines: seq<string>, pair: seq<string>)
    requires |lines| > 0 && !HasInnerCr(lines) && |pair| == 2 && !EndsCr(pair[0])
    ensures DropCrs(lines + pair) == lines[..|lines| - 1] + [WithoutCr(lines[|lines| - 1])] + pair
  {
  }

  lemma PinnedAfterLast(lines: seq<string>)
    requires |lines| > 0 && FirstCritical(lines) == |lines| && FirstBase(lines) == |lines| - 1
    ensures PinLines(lines) == lines + Canonical() && NoneCritical(lines)
  {
    hide IsCritical, IsBase, Canonical, Survivors;
    assert NoneCritical(lines);
    AllSurvive(lines);
    AllSurvive([]);
    assert lines[..|lines|] == lines && lines[|lines|..] == [];
  }

  lemma ReplaceLast(lines: seq<string>, last: string)
    requires |lines| > 0 && NoneCritical(lines) && !IsCritical(last)
    ensures NoneCritical(lines[..|lines| - 1] + [last])
  {
    hide IsCritical;
    forall line | line in lines[..|lines| - 1] ensures !IsCritical(line) {
      assert line in lines;
    }
  }

  lemma UnsettledLines(s: string)
    requires IsUnsettled(s)
    ensures var lines := Lines(s);
            var n := |lines| - 1;
            && PinLines(lines) == lines + Canonical() && !HasInnerCr(lines) && EndsCr(lines[n]) && !EndsCr(Canonical()[0])
            && NoneCritical(lines) && NoneCritical(lines[..n] + [WithoutCr(lines[n])])
  {
    hide HasCrlf, Lines, Canonical, IsCritical, IsBase, HasInnerCr, PinLines, NoneCritical, Entries, Survivors, Url, Sum, EndsCr,
         WithoutCr;
    var lines := Lines(s);
    LinesWithoutCrlf(s);
    CanonicalLines();
    assert Canonical()[0] in Canonical();
    PinnedAfterLast(lines);
    BaseWithoutCr(lines[|lines| - 1]);
    ReplaceLast(lines, WithoutCr(lines[|lines| - 1]));
  }

  lemma BaseWithoutCr(line: string)
    requires IsBase(line) && EndsCr(line)
    ensures !IsCritical(WithoutCr(line))
  {
    var t, short := TrimStart(line), WithoutCr(line);
    TrimStartShape(line);
    var n :| 0 <= n <= |line| && t == line[n..];
    assert BASE_NAME <= t && t[|t| - 1] == '\r';
    NameHasNoCr();
    assert |t| > |BASE_NAME|;
    TrimStartShorter(line);
    assert BASE_NAME <= TrimStart(short);
    BaseIsNotCritical(short);
  }

  lemma NameHasNoCr()
    ensures '\r' !in BASE_NAME
  {
  }

  lemma {:induction false} TrimStartShorter(s: string)
    requires |TrimStart(s)| > 1
    ensures TrimStart(s[..|s| - 1]) == TrimStart(s)[..|TrimStart(s)| - 1]
    decreases |s|
  {
    if IsWhite(s[0]) {
      TrimStartShorter(s[1..]);
      assert s[..|s| - 1][1..] == s[1..][..|s| - 2];
    }
  }

  // ---------------------------------------------------------------- what pinning promises

  lemma NoProblems()
    ensures Problems([Url()], [Sum()]) == []
  {
    hide Url;
    assert forall i | 0 <= i < 32 :: IsSumDigit("bd71102213493060956ec229d946beee"[i]);
    assert forall i | 0 <= i < 32 :: IsSumDigit("57158dbd89d0e62b91bca0fa2c5f3531"[i]);
    assert forall i | 0 <= i < 64 :: IsSumDigit(Sum()[i]);
  }

  predicate IsSumDigit(c: char)
  {
    IsDigit(c) || 'a' <= c <= 'f'
  }

  /** The validator finds nothing wrong with any pinned text. */
  lemma PinValidates(s: string)
    ensures Validate(Pin(s)) == []
  {
    hide HasCrlf, Canonical, Pin, Lines, Survivors, NoneCritical, Slot, Url, Sum, Problems, IsUnsettled, WithoutCr, Entries;
    NoProblems();
    if IsUnsettled(s) {
      UnsettledReadBack(s);
      NoneCriticalEmpty();
      var lines := Lines(s);
      var before := lines[..|lines| - 1] + [WithoutCr(lines[|lines| - 1])];
      AroundCanonical(before, []);
      assert before + Canonical() + [] == before + Canonical();
    } else {
      var lines := Lines(s);
      PinnedReadBack(s);
      PinnedShape(lines);
      AroundCanonical(Survivors(lines[..Slot(lines)]), Survivors(lines[Slot(lines)..]));
    }
  }

  lemma NoneCriticalEmpty()
    ensures NoneCritical([])
  {
  }

  /** All other lines survive in order; an unsettled text only loses its trailing carriage return. */
  lemma PinKeepsLines(s: string)
    ensures var lines := Lines(s);
            var n := |lines| - 1;
            Survivors(Lines(Pin(s)))
              == if IsUnsettled(s) then lines[..n] + [WithoutCr(lines[n])] else Survivors(lines)
  {
    hide HasCrlf, Canonical, Pin, Lines, PinLines, Survivors, NoneCritical, Slot, IsUnsettled, WithoutCr, IsCritical, EndsCr,
         Entries, FirstCritical, Url, Sum;
    var lines := Lines(s);
    if IsUnsettled(s) {
      UnsettledReadBack(s);
      NoneCriticalEmpty();
      CanonicalLines();
      var before := lines[..|lines| - 1] + [WithoutCr(lines[|lines| - 1])];
      SurvivorsAround(before, Canonical(), []);
      assert before + Canonical() + [] == before + Canonical() && before + [] == before;
    } else {
      PinnedReadBack(s);
      PinnedShape(lines);
    }
  }

  lemma PinLinesTwice(lines: seq<string>)
    ensures PinLines(PinLines(lines)) == PinLines(lines)
  {
    hide Canonical, Survivors, NoneCritical, Slot, Entries, Url, Sum;
    PinnedShape(lines);
    AroundCanonical(Survivors(lines[..Slot(lines)]), Survivors(lines[Slot(lines)..]));
  }

  /** Pinning twice equals pinning once, exactly for the settled texts. */
  lemma PinIdempotent(s: string)
    ensures Pin(Pin(s)) == Pin(s) <==> !IsUnsettled(s)
  {
    hide HasCrlf, Canonical, Lines, PinLines, Split, Join, IsUnsettled, NoneCritical, WithoutCr, EndsCr;
    if IsUnsettled(s) {
      UnsettledReadBack(s);
      PinnedPieces(Pin(s));
      UnsettledDiffers(s);
    } else {
      PinnedReadBack(s);
      PinLinesTwice(Lines(s));
    }
  }

  lemma UnsettledDiffers(s: string)
    requires IsUnsettled(s)
    ensures Pin(Pin(s)) != Pin(s)
  {
    hide HasCrlf, Canonical, Lines, PinLines, Split, Pin, IsUnsettled, NoneCritical, WithoutCr, IsCritical, Entries, Survivors,
         FirstCritical, Url, Sum;
    UnsettledReadBack(s);
    PinnedPieces(Pin(s));
    CanonicalLines();
    assert Canonical()[0] in Canonical();
    var once, twice := Split(Pin(s)), Split(Pin(Pin(s)));
    assert once[|once| - 2] == Canonical()[0];
    assert |twice| > 1 ==> EndsCr(twice[|twice| - 2]);
  }

  /** A pinned text is always settled: a third pass never changes anything. */
  lemma PinSettles(s: string)
    ensures !IsUnsettled(Pin(s)) && Pin(Pin(Pin(s))) == Pin(Pin(s))
  {
    hide HasCrlf, Canonical, Pin, Lines, Survivors, NoneCritical, Slot, Url, Sum, IsUnsettled, WithoutCr, IsCritical, Entries;
    PinValidates(s);
    ValidHasCritical(Pin(s));
    PinIdempotent(Pin(s));
  }

  lemma ValidHasCritical(s: string)
    requires Validate(s) == []
    ensures !IsUnsettled(s)
  {
    hide Lines, HasCrlf, IsBase, Entries, IsSumText, Url, Sum;
    var lines := Lines(s);
    if IsUnsettled(s) {
      assert NoneCritical(lines) by {
        hide IsCritical;
      }
      NoEntries(lines, DistributionUrl);
      assert false;
    }
  }

  lemma BaseExample(s: string)
    requires s == BASE_NAME + "=x\r"
    ensures IsBase(s) && !IsCritical(s) && '\n' !in s && EndsCr(s)
  {
    assert !IsWhite('d') && BASE_NAME[0] == 'd';
    assert TrimStart(s) == s;
    assert s[|BASE_NAME|..] == "=x\r";
    assert TrimStart("=x\r") == "=x\r";
    BaseIsNotCritical(s);
  }

  /** A concrete unsettled text: pinning it twice differs from pinning it once. */
  lemma UnsettledExample()
    ensures Pin(Pin(BASE_NAME + "=x\r")) != Pin(BASE_NAME + "=x\r")
  {
    hide Pin, IsCritical, IsBase, EndsCr, IsUnsettled;
    ExampleIsUnsettled(BASE_NAME + "=x\r");
    PinIdempotent(BASE_NAME + "=x\r");
  }

  lemma ExampleIsUnsettled(s: string)
    requires s == BASE_NAME + "=x\r"
    ensures IsUnsettled(s)
  {
    hide IsCritical, IsBase, EndsCr;
    BaseExample(s);
    SplitSingle(s);
    hide Split;
    assert Lines(s) == [s];
    assert FirstCritical([s]) == 1 && FirstBase([s]) == 0;
  }

  // ---------------------------------------------------------------- the loops

  function JoinWith(lines: seq<string>, eol: string): string
    requires |lines| > 0
  {
    if |lines| == 1 then lines[0] else lines[0] + eol + JoinWith(lines[1..], eol)
  }

  lemma {:induction false} JoinWithFeed(lines: seq<string>)
    requires |lines| > 0
    ensures JoinWith(lines, "\n") == Join(lines)
    decreases |lines|
  {
    if |lines| > 1 {
      JoinWithFeed(lines[1..]);
    }
  }

  lemma {:induction false} JoinWithCrlf(lines: seq<string>)
    requires |lines| > 0
    ensures JoinWith(lines, "\r\n") == Join(AddCrs(lines))
    decreases |lines|
  {
    if |lines| > 1 {
      JoinWithCrlf(lines[1..]);
      assert AddCrs(lines)[1..] == AddCrs(lines[1..]);
    }
  }

  lemma {:induction false} JoinWithLast(lines: seq<string>, eol: string)
    requires |lines| > 0
    ensures JoinWith(lines + [""], eol) == JoinWith(lines, eol) + eol
    decreases |lines|
  {
    var all := lines + [""];
    if |lines| > 1 {
      JoinWithLast(lines[1..], eol);
      assert all[1..] == lines[1..] + [""];
    } else {
      assert all[1..] == [""];
    }
  }

  lemma {:induction false} TrailingPiece(s: string)
    requires s != [] && s[|s| - 1] == '\n'
    ensures |Split(s)| > 1 && Split(s)[|Split(s)| - 1] == []
    decreases |s|
  {
    if |s| > 1 {
      TrailingPiece(s[1..]);
    } else {
      assert s[1..] == [];
    }
  }

  lemma {:induction false} EmptyLast(lines: seq<string>)
    ensures FirstCritical(lines + [""]) == if FirstCritical(lines) < |lines| then FirstCritical(lines) else |lines| + 1
    ensures FirstBase(lines + [""]) == if FirstBase(lines) < |lines| then FirstBase(lines) else |lines| + 1
    decreases |lines|
  {
    EmptyIsNothing();
    hide IsCritical, IsBase;
    var all := lines + [""];
    if lines == [] {
      assert all[1..] == [];
    } else {
      EmptyLast(lines[1..]);
      assert all[1..] == lines[1..] + [""];
    }
  }

  lemma EmptyIsNothing()
    ensures !IsCritical("") && !IsBase("")
  {
    assert TrimStart("") == "";
  }

  /** An empty last line stays where it is. */
  lemma PinLinesTrailing(lines: seq<string>)
    ensures PinLines(lines + [""]) == PinLines(lines) + [""]
  {
    hide IsCritical, IsBase, FirstCritical, FirstBase, Canonical, Survivors;
    EmptyLast(lines);
    EmptyIsNothing();
    var all, k := lines + [""], Slot(lines);
    assert Slot(all) == k;
    assert all[..k] == lines[..k] && all[k..] == lines[k..] + [""];
    SurvivorsConcat(lines[k..], [""]);
    SurvivesAlone("");
  }

  lemma SurvivesAlone(line: string)
    ensures Survivors([line]) == if IsCritical(line) then [] else [line]
  {
    assert [line][..0] == [];
  }

  lemma SurvivorsNext(lines: seq<string>, k: nat, i: nat)
    requires k <= i < |lines|
    ensures Survivors(lines[k..i + 1]) == Survivors(lines[k..i]) + (if IsCritical(lines[i]) then [] else [lines[i]])
  {
    hide IsCritical;
    assert lines[k..i + 1] == lines[k..i] + [lines[i]];
    SurvivorsConcat(lines[k..i], [lines[i]]);
    SurvivesAlone(lines[i]);
  }

  /** The body of the rewrite, with the pair pushed at the first critical line or spliced in afterwards. */
  method RewriteLines(lines: seq<string>) returns (output: seq<string>)
    ensures output == PinLines(lines)
  {
    hide IsCritical, IsBase, Canonical, Survivors, FirstCritical, FirstBase;
    output := [];
    var inserted := false;
    ghost var k := FirstCritical(lines);
    NothingSurvives();
    for i := 0 to |lines|
      invariant inserted <==> k < i
      invariant !inserted ==> output == Survivors(lines[..i]) == lines[..i]
      invariant inserted ==> output == Survivors(lines[..k]) + Canonical() + Survivors(lines[k..i])
    {
      if i <= k {
        SurvivorsNext(lines, 0, i);
        if i == k {
          assert lines[k..k] == [];
          SurvivorsNext(lines, k, k);
        }
      } else {
        SurvivorsNext(lines, k, i);
      }
      if IsCritical(lines[i]) {
        if !inserted {
          output := output + Canonical();
          inserted := true;
        }
        continue;
      }
      output := output + [lines[i]];
    }
    assert lines[..|lines|] == lines;
    if !inserted {
      var base := FirstBase(output);
      var at := if base < |output| then base + 1 else 0;
      SpliceSurvivors(lines, at);
      output := output[..at] + Canonical() + output[at..];
    } else {
      assert lines[k..|lines|] == lines[k..];
    }
  }

  lemma NothingSurvives()
    ensures Survivors([]) == []
  {
  }

  lemma SpliceSurvivors(lines: seq<string>, at: nat)
    requires Survivors(lines) == lines && at <= |lines|
    ensures Survivors(lines[..at]) == lines[..at] && Survivors(lines[at..]) == lines[at..]
  {
    SurvivorsOf(lines);
    hide Survivors;
    AllSurvive(lines[..at]);
    AllSurvive(lines[at..]);
  }

  method PinAndroidGradleWrapper(source: string) returns (r: string)
    ensures r == Pin(source)
  {
    hide Split, PinLines, HasCrlf, Join, JoinWith;
    var eol := if HasCrlf(source) then "\r\n" else "\n";
    var hasTrailingEol := source != [] && source[|source| - 1] == '\n';
    var lines := Lines(source);
    if hasTrailingEol {
      TrailingPiece(source);
      lines := lines[..|lines| - 1];
      assert Lines(source) == lines + [""];
      PinLinesTrailing(lines);
    }
    var output := RewriteLines(lines);
    PinnedIsLong(lines);
    JoinWithLast(output, eol);
    ghost var all := PinLines(Lines(source));
    assert all == output + (if hasTrailingEol then [""] else []);
    JoinWithFeed(all);
    JoinWithCrlf(all);
    assert hasTrailingEol || all == output;
    return JoinWith(output, eol) + (if hasTrailingEol then eol else "");
  }

  lemma PinnedIsLong(lines: seq<string>)
    ensures |PinLines(lines)| > 1
  {
  }

  lemma EntriesNext(lines: seq<string>, i: nat, key: Key)
    requires i < |lines|
    ensures Entries(lines[..i + 1], key)
            == Entries(lines[..i], key) + (match ValueOf(lines[i], key) case None => [] case Some(v) => [Trim(v)])
  {
    hide ValueOf, Trim;
    assert lines[..i + 1][..i] == lines[..i];
  }

  function Stored(values: map<Key, seq<string>>, key: Key): seq<string>
  {
    if key in values then values[key] else []
  }

  method CollectEntries(lines: seq<string>) returns (values: map<Key, seq<string>>)
    ensures Stored(values, DistributionUrl) == Entries(lines, DistributionUrl)
    ensures Stored(values, DistributionSum) == Entries(lines, DistributionSum)
  {
    hide ValueOf, Trim, Entries;
    values := map[];
    NoLines();
    for i := 0 to |lines|
      invariant Stored(values, DistributionUrl) == Entries(lines[..i], DistributionUrl)
      invariant Stored(values, DistributionSum) == Entries(lines[..i], DistributionSum)
    {
      SetsOneKey(lines[i]);
      EntriesNext(lines, i, DistributionUrl);
      EntriesNext(lines, i, DistributionSum);
      var key := if ValueOf(lines[i], DistributionUrl).Some? then DistributionUrl else DistributionSum;
      var value := ValueOf(lines[i], key);
      if value.None? {
        continue;
      }
      values := values[key := Stored(values, key) + [Trim(value.value)]];
    }
    assert lines[..|lines|] == lines;
  }

  lemma NoLines()
    ensures forall key :: Entries([], key) == []
  {
  }

  method ValidateAndroidGradleWrapper(source: string) returns (errors: seq<Problem>)
    ensures errors == Validate(source)
  {
    hide Lines, Entries, IsSumText, Url, Sum;
    var values := CollectEntries(Lines(source));
    var urls, sums := Stored(values, DistributionUrl), Stored(values, DistributionSum);
    errors := [];
    if |urls| == 0 {
      errors := errors + [UrlMissing];
    } else if |urls| > 1 {
      errors := errors + [UrlRepeated];
    } else if urls[0] != Url() {
      errors := errors + [UrlMismatch];
    }
    if |sums| == 0 {
      errors := errors + [SumMissing];
    } else if |sums| > 1 {
      errors := errors + [SumRepeated];
    } else if !IsSumText(sums[0]) {
      errors := errors + [SumMalformed];
    } else if sums[0] != Sum() {
      errors := errors + [SumMismatch];
    }
  }

  lemma SetsOneKey(line: string)
    ensures ValueOf(line, DistributionUrl).None? || ValueOf(line, DistributionSum).None?
  {
    hide TrimStart, AfterSeparator;
    NamesDiffer(TrimStart(line));
  }
}
