/** The checksum manifests of both release kinds: one `digest  name` line per file. */
module Checksums {
  import opened Results
  import opened Text

  datatype ChecksumError = NoFinalNewline | InvalidEntry | DuplicateEntry

  /** A file name and its digest. */
  type Entry = (string, string)

  predicate IsHex(s: string)
  {
    forall i | 0 <= i < |s| :: IsDigit(s[i]) || 'a' <= s[i] <= 'f'
  }

  predicate IsDigest(s: string)
  {
    |s| == 64 && IsHex(s)
  }

  predicate IsNameChar(c: char)
  {
    'A' <= c <= 'Z' || 'a' <= c <= 'z' || IsDigit(c) || c == '.' || c == '+' || c == '-'
  }

  predicate IsName(s: string)
  {
    |s| > 0 && forall i | 0 <= i < |s| :: IsNameChar(s[i])
  }

  predicate AreEntries(entries: seq<Entry>)
  {
    && (forall e | e in entries :: IsName(e.0) && IsDigest(e.1))
    && (forall i, j | 0 <= i < j < |entries| :: entries[i].0 != entries[j].0)
  }

  function PrintEntry(e: Entry): string
  {
    e.1 + "  " + e.0
  }

  function PrintEntries(entries: seq<Entry>): (lines: seq<string>)
    ensures |lines| == |entries|
  {
    seq(|entries|, i requires 0 <= i < |entries| => PrintEntry(entries[i]))
  }

  function Print(entries: seq<Entry>): string
  {
    (if entries == [] then "" else Join(PrintEntries(entries))) + "\n"
  }

  function ParseEntry(line: string): Option<Entry>
  {
    if |line| > 66 && IsHex(line[..64]) && line[64..66] == "  " && IsName(line[66..])
    then Some((line[66..], line[..64])) else None
  }

  /** The entries of the lines in order; a repeated name is refused. */
  function ParseEntries(found: seq<Entry>, lines: seq<string>): Result<seq<Entry>, ChecksumError>
    decreases |lines|
  {
    if lines == [] then Ok(found)
    else
      match ParseEntry(lines[0])
      case None => Err(InvalidEntry)
      case Some(e) =>
        if exists f | f in found :: f.0 == e.0 then Err(DuplicateEntry)
        else ParseEntries(found + [e], lines[1..])
  }

  function Parse(source: string): Result<seq<Entry>, ChecksumError>
  {
    if source == [] || source[|source| - 1] != '\n' then Err(NoFinalNewline)
    else ParseEntries([], Split(TrimEnd(source)))
  }

  // ---------------------------------------------------------------- lines

  lemma EntryReadBack(e: Entry)
    requires IsName(e.0) && IsDigest(e.1)
    ensures ParseEntry(PrintEntry(e)) == Some(e) && '\n' !in PrintEntry(e)
    ensures var line := PrintEntry(e); line != [] && !IsWhite(line[|line| - 1])
  {
    var line := PrintEntry(e);
    assert line[..64] == e.1 && line[64..66] == "  " && line[66..] == e.0;
    assert forall i | 0 <= i < |e.0| :: IsNameChar(e.0[i]);
    assert forall i | 0 <= i < |e.1| :: IsDigit(e.1[i]) || 'a' <= e.1[i] <= 'f';
  }

  lemma EntryPrintBack(line: string)
    requires ParseEntry(line).Some?
    ensures var e := ParseEntry(line).value; PrintEntry(e) == line && IsName(e.0) && IsDigest(e.1)
  {
    assert line == line[..64] + line[64..66] + line[66..];
  }

  lemma {:induction false} EntriesReadBack(found: seq<Entry>, entries: seq<Entry>)
    requires AreEntries(found + entries)
    ensures ParseEntries(found, PrintEntries(entries)) == Ok(found + entries)
    decreases |entries|
  {
    hide ParseEntry, PrintEntry, IsName, IsDigest;
    if entries == [] {
      assert found + entries == found;
    } else {
      var e, all := entries[0], found + entries;
      assert all[|found|] == e && e in all;
      EntryReadBack(e);
      forall f | f in found ensures f.0 != e.0 {
        var i :| 0 <= i < |found| && found[i] == f;
        assert all[i].0 != all[|found|].0;
      }
      assert PrintEntries(entries)[1..] == PrintEntries(entries[1..]);
      assert (found + [e]) + entries[1..] == all;
      EntriesReadBack(found + [e], entries[1..]);
    }
  }

  lemma {:induction false} EntriesPrintBack(found: seq<Entry>, lines: seq<string>)
    requires AreEntries(found) && ParseEntries(found, lines).Ok?
    ensures var all := ParseEntries(found, lines).value;
            AreEntries(all) && found <= all && PrintEntries(all[|found|..]) == lines
    decreases |lines|
  {
    hide ParseEntry, PrintEntry, IsName, IsDigest;
    if lines != [] {
      var e := ParseEntry(lines[0]).value;
      EntryPrintBack(lines[0]);
      EntriesPrintBack(found + [e], lines[1..]);
      var all := ParseEntries(found, lines).value;
      assert all[|found|] == e && all[|found|..] == [e] + all[|found| + 1..];
    }
  }

  // ---------------------------------------------------------------- the whole text

  lemma TrimFeed(s: string)
    requires s != [] && !IsWhite(s[|s| - 1])
    ensures TrimEnd(s + "\n") == s
  {
    assert (s + "\n")[..|s|] == s;
    assert TrimEnd(s + "\n") == TrimEnd(s);
  }

  lemma {:induction false} JoinEnd(lines: seq<string>)
    requires |lines| > 0 && lines[|lines| - 1] != []
    ensures var s, last := Join(lines), lines[|lines| - 1]; s != [] && s[|s| - 1] == last[|last| - 1]
    decreases |lines|
  {
    if |lines| > 1 {
      JoinEnd(lines[1..]);
    }
  }

  ghost predicate AreLines(lines: seq<string>)
  {
    |lines| > 0 && forall line | line in lines :: '\n' !in line && line != [] && !IsWhite(line[|line| - 1])
  }

  lemma LinesReadBack(lines: seq<string>)
    requires AreLines(lines)
    ensures Split(TrimEnd(Join(lines) + "\n")) == lines
  {
    hide IsWhite, TrimEnd, Split;
    assert lines[|lines| - 1] in lines;
    JoinEnd(lines);
    SplitJoin(lines);
    hide Join;
    TrimFeed(Join(lines));
  }

  lemma PrintedLines(entries: seq<Entry>)
    requires AreEntries(entries) && entries != []
    ensures AreLines(PrintEntries(entries))
  {
    hide PrintEntry, IsName, IsDigest, IsWhite;
    var lines := PrintEntries(entries);
    forall line | line in lines ensures '\n' !in line && line != [] && !IsWhite(line[|line| - 1]) {
      var i :| 0 <= i < |lines| && lines[i] == line;
      assert entries[i] in entries;
      EntryReadBack(entries[i]);
    }
  }

  /** Parsing undoes printing, in order, exactly when there is anything to print. */
  lemma ParsePrint(entries: seq<Entry>)
    requires AreEntries(entries)
    ensures Parse(Print(entries)) == if entries == [] then Err(InvalidEntry) else Ok(entries)
  {
    hide AreEntries, AreLines, ParseEntries, PrintEntries, Split, TrimEnd, Join;
    if entries == [] {
      NothingToParse();
      assert "" + "\n" == "\n";
    } else {
      PrintedLines(entries);
      LinesReadBack(PrintEntries(entries));
      assert [] + entries == entries;
      EntriesReadBack([], entries);
    }
  }

  lemma NothingToParse()
    ensures Parse("\n") == Err(InvalidEntry)
  {
    assert "\n"[..0] == "";
    assert TrimEnd("\n") == TrimEnd("") == "";
    assert Split("") == [""] && ParseEntry("").None?;
  }

  /** Printing undoes parsing, up to white space at the very end. */
  lemma PrintParse(source: string)
    requires Parse(source).Ok?
    ensures AreEntries(Parse(source).value) && Print(Parse(source).value) == TrimEnd(source) + "\n"
  {
    hide ParseEntry, PrintEntry, IsName, IsDigest;
    var text := TrimEnd(source);
    JoinSplit(text);
    hide Split, Join, TrimEnd;
    EntriesPrintBack([], Split(text));
    var entries := Parse(source).value;
    assert entries[0..] == entries;
  }

  // ---------------------------------------------------------------- the loop

  method ParseChecksums(source: string) returns (r: Result<seq<Entry>, ChecksumError>)
    ensures r == Parse(source)
  {
    hide ParseEntry, Split, TrimEnd;
    if source == [] || source[|source| - 1] != '\n' {
      return Err(NoFinalNewline);
    }
    var result: seq<Entry> := [];
    var lines := Split(TrimEnd(source));
    assert lines[0..] == lines;
    for i := 0 to |lines|
      invariant Parse(source) == ParseEntries(result, lines[i..])
    {
      assert lines[i..][1..] == lines[i + 1..];
      var entry := ParseEntry(lines[i]);
      if entry.None? {
        return Err(InvalidEntry);
      }
      if exists f | f in result :: f.0 == entry.value.0 {
        return Err(DuplicateEntry);
      }
      result := result + [entry.value];
    }
    return Ok(result);
  }
}
