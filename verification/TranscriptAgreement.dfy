/** Text the compiler emits is text its own strict reader accepts. */
module TranscriptAgreement {
  import opened Results
  import opened Text
  import opened TranscriptParse

  predicate IsCleanChar(c: char)
  {
    ' ' <= c <= '~' && c != 'B'
  }

  predicate IsClean(s: string)
  {
    forall i | 0 <= i < |s| :: IsCleanChar(s[i])
  }

  lemma CleanConcat(a: string, b: string)
    requires IsClean(a) && IsClean(b)
    ensures IsClean(a + b)
  {
  }

  /** The first three letters, folded, begin none of the forbidden words. */
  predicate IsSafeStart(s: string)
  {
    |s| >= 3 && !IsWhite(s[0]) &&
    [Fold(s[0]), Fold(s[1]), Fold(s[2])] !in ["pas", "sec", "tok", "pro", "rul", "pay"]
  }

  predicate IsCleanLine(line: string)
  {
    IsClean(line) && IsSafeStart(line) && |line| <= 1024
  }

  lemma CleanHasNo(s: string)
    requires IsClean(s)
    ensures '\n' !in s && '\r' !in s && '\0' !in s && 'B' !in s
  {
  }

  lemma {:induction false} UnlinesChars(lines: seq<string>, i: nat)
    requires (forall line | line in lines :: IsClean(line)) && i < |Unlines(lines)|
    ensures Unlines(lines)[i] == '\n' || IsCleanChar(Unlines(lines)[i])
    decreases |lines|
  {
    if lines != [] {
      assert lines[0] in lines;
      if i > |lines[0]| {
        UnlinesChars(lines[1..], i - |lines[0]| - 1);
      }
    }
  }

  /** Every line of the text starts safely. */
  lemma {:induction false} LineStartSafe(lines: seq<string>, i: nat)
    requires (forall line | line in lines :: IsCleanLine(line))
    requires IsLineStart(Unlines(lines), i) && i < |Unlines(lines)|
    ensures IsSafeStart(Unlines(lines)[i..])
    decreases |lines|
  {
    hide IsSafeStart, IsClean;
    var s, line := Unlines(lines), lines[0];
    assert line in lines;
    var rest := Unlines(lines[1..]);
    CleanHasNo(line);
    if i == 0 {
      SafeStartExtends(line, ['\n'] + rest);
      assert s[0..] == line + (['\n'] + rest);
    } else {
      assert forall k | 0 <= k < |line| :: s[k] == line[k];
      var j := i - |line| - 1;
      assert s[i..] == rest[j..];
      assert j > 0 ==> s[i - 1] == rest[j - 1];
      LineStartSafe(lines[1..], j);
    }
  }

  lemma SafeStartExtends(a: string, b: string)
    requires IsSafeStart(a)
    ensures IsSafeStart(a + b)
  {
  }

  lemma SafeStartIsNoWord(s: string, word: string)
    requires IsSafeStart(s) && |word| >= 3 && word[..3] in ["pas", "sec", "tok", "pro", "rul", "pay"]
    ensures !FoldedPrefix(word, s)
  {
    assert [Fold(s[0]), Fold(s[1]), Fold(s[2])] != word[..3];
  }

  lemma NoForbiddenWord(lines: seq<string>, j: nat, word: string)
    requires forall line | line in lines :: IsCleanLine(line)
    requires |word| >= 3 && word[..3] in ["pas", "sec", "tok", "pro", "rul", "pay"]
    ensures !WordStartsLine(Unlines(lines), j, word)
  {
    hide IsCleanLine, IsSafeStart, Unlines;
    var s := Unlines(lines);
    if WordStartsLine(s, j, word) {
      var i :| 0 <= i <= j && IsLineStart(s, i) && forall k | i <= k < j :: IsWhite(s[k]);
      LineStartSafe(lines, i);
      SafeStartNotWhite(s[i..]);
      assert s[i..][0] == s[i];
      assert i == j;
      SafeStartIsNoWord(s[j..], word);
    }
  }

  lemma SafeStartNotWhite(s: string)
    requires IsSafeStart(s)
    ensures |s| > 0 && !IsWhite(s[0])
  {
  }

  lemma NoForbiddenField(lines: seq<string>, word: string, separators: seq<char>)
    requires forall line | line in lines :: IsCleanLine(line)
    requires |word| >= 3 && word[..3] in ["pas", "sec", "tok", "pro", "rul", "pay"]
    ensures !HasField(Unlines(lines), word, separators)
  {
    hide IsCleanLine, WordStartsLine, Unlines;
    forall j: nat ensures !WordStartsLine(Unlines(lines), j, word) {
      NoForbiddenWord(lines, j, word);
    }
  }

  lemma NoPem(s: string)
    requires 'B' !in s
    ensures !HasPem(s)
  {
    assert "-----BEGIN "[5] == 'B';
  }

  lemma NothingForbidden(lines: seq<string>)
    requires forall line | line in lines :: IsCleanLine(line)
    ensures !IsForbidden(Unlines(lines))
  {
    forall i | 0 <= i < |Unlines(lines)| ensures Unlines(lines)[i] != 'B' {
      UnlinesChars(lines, i);
    }
    hide IsCleanLine, HasPem, HasField, Unlines;
    NoPem(Unlines(lines));
    assert "password"[..3] == "pas" && "secret"[..3] == "sec" && "token"[..3] == "tok";
    assert "proxy-authorization"[..3] == "pro" && "proxies"[..3] == "pro" && "proxy-providers"[..3] == "pro";
    assert "rules"[..3] == "rul" && "payload"[..3] == "pay";
    NoForbiddenField(lines, "password", [':', '=']);
    NoForbiddenField(lines, "secret", [':', '=']);
    NoForbiddenField(lines, "token", [':', '=']);
    NoForbiddenField(lines, "proxy-authorization", [':', '=']);
    NoForbiddenField(lines, "proxies", [':']);
    NoForbiddenField(lines, "proxy-providers", [':']);
    NoForbiddenField(lines, "rules", [':']);
    NoForbiddenField(lines, "payload", [':']);
  }

  lemma {:induction false} NoCrlf(s: string)
    requires '\r' !in s
    ensures ReplaceCrlf(s) == s
    decreases |s|
  {
    if s != [] {
      NoCrlf(s[1..]);
    }
  }

  lemma {:induction false} AsciiLength(s: string)
    requires forall i | 0 <= i < |s| :: s[i] <= '~'
    ensures ByteLength(s) == |s|
    decreases |s|
  {
    if s != [] {
      AsciiLength(s[1..]);
    }
  }

  lemma CleanText(lines: seq<string>)
    requires forall line | line in lines :: IsCleanLine(line)
    ensures '\0' !in Unlines(lines) && ReplaceCrlf(Unlines(lines)) == Unlines(lines)
  {
    hide ReplaceCrlf;
    var s := Unlines(lines);
    forall i | 0 <= i < |s| ensures s[i] != '\0' && s[i] != '\r' {
      UnlinesChars(lines, i);
    }
    hide Unlines;
    NoCrlf(s);
  }

  lemma CleanLineAccepted(line: string)
    requires IsCleanLine(line)
    ensures '\n' !in line && IsAcceptableLine(line)
  {
    hide ByteLength;
    CleanHasNo(line);
    AsciiLength(line);
  }

  /** Clean lines are read back exactly. */
  lemma StrictLinesReadBack(lines: seq<string>)
    requires |lines| <= 256 && forall line | line in lines :: IsCleanLine(line)
    ensures StrictLines(Unlines(lines)) == Ok(lines)
  {
    hide IsForbidden, IsCleanLine, IsAcceptableLine, Unlines, ReplaceCrlf, Split;
    NothingForbidden(lines);
    CleanText(lines);
    forall line | line in lines ensures '\n' !in line && IsAcceptableLine(line) {
      CleanLineAccepted(line);
    }
    SplitUnlines(lines);
    assert (lines + [[]])[..|lines|] == lines;
  }

  /** A printed field is read back as its key and its value. */
  lemma FieldReadBack(key: string, value: string)
    requires key != [] && ':' !in key && !IsWhite(key[0]) && !IsWhite(key[|key| - 1])
    requires value == [] || (!IsWhite(value[0]) && !IsWhite(value[|value| - 1]))
    ensures Field(key + ": " + value) == Ok((key, value))
  {
    var line := key + ": " + value;
    hide Trim;
    assert line == key + [':'] + ([' '] + value);
    IndexOfAfter(key, ':', [' '] + value);
    assert line[..|key|] == key && line[|key| + 1..] == [' '] + value;
    TrimmedAlready(key);
    TrimBlankPrefix(value);
  }
}
