/**
  The indentation parser for the design tokens' front matter. Nested objects are cells of a store,
  written through the references on the stack, as the original writes into shared objects.
 */
module Frontmatter {
  import opened Results
  import opened Text

  datatype Scalar = Words(text: string) | Number(digits: string)

  datatype Value = Leaf(scalar: Scalar) | Tree(entries: map<string, Value>)

  /** What an object holds under a key: a scalar, or a reference to another object. */
  datatype Entry = Plain(scalar: Scalar) | Ref(cell: nat)

  type Store = seq<map<string, Entry>>

  datatype State = State(store: Store, stack: seq<(int, nat)>)

  // ---------------------------------------------------------------- one line

  predicate IsKeyChar(c: char)
  {
    'A' <= c <= 'Z' || 'a' <= c <= 'z' || IsDigit(c) || c == '-'
  }

  function KeyRun(s: string): (n: nat)
    ensures n <= |s| && (forall i | 0 <= i < n :: IsKeyChar(s[i])) && (n < |s| ==> !IsKeyChar(s[n]))
  {
    if s != [] && IsKeyChar(s[0]) then 1 + KeyRun(s[1..]) else 0
  }

  predicate OneLine(s: string)
  {
    forall i | 0 <= i < |s| :: !IsLineTerminator(s[i])
  }

  datatype Line = Line(indent: nat, key: string, raw: Option<string>)

  /** Indentation, key, and the text after the colon if there is any. */
  function ParseLine(line: string): Option<Line>
  {
    TrimStartLength(line);
    var t := TrimStart(line);
    var run := KeyRun(t);
    if run == 0 || run == |t| || t[run] != ':' then None
    else
      var rest := t[run + 1..];
      if rest == "" then Some(Line(|line| - |t|, t[..run], None))
      else
        var raw := TrimStart(rest);
        if raw == rest || !OneLine(raw) then None
        else Some(Line(|line| - |t|, t[..run], Some(raw)))
  }

  lemma TrimStartLength(s: string)
    ensures |TrimStart(s)| <= |s|
  {
  }

  function Unquote(raw: string): string
  {
    if |raw| >= 2 && (raw[0] == '"' || raw[0] == '\'') && raw[|raw| - 1] == raw[0] then raw[1..|raw| - 1] else raw
  }

  /** An optional sign, digits, and optionally a point and more digits. */
  predicate IsNumeric(s: string)
  {
    var digits := if s != [] && s[0] == '-' then s[1..] else s;
    Matches(digits, [Num]) || Matches(digits, [Num, Lit("."), Num])
  }

  function ScalarOf(text: string): Scalar
  {
    if IsNumeric(text) then Number(text) else Words(text)
  }

  // ---------------------------------------------------------------- the parser

  function Pop(stack: seq<(int, nat)>, indent: int): (r: seq<(int, nat)>)
    ensures r <= stack
  {
    if stack != [] && stack[|stack| - 1].0 >= indent then Pop(stack[..|stack| - 1], indent) else stack
  }

  /** The root is at the bottom, indents strictly increase, and references stay in the store. */
  ghost predicate IsStack(stack: seq<(int, nat)>, store: Store)
  {
    && |stack| > 0 && stack[0] == (-1, 0)
    && (forall i, j | 0 <= i < j < |stack| :: stack[i].0 < stack[j].0)
    && (forall i | 0 <= i < |stack| :: stack[i].1 < |store|)
  }

  lemma {:induction false} PopKeepsStack(stack: seq<(int, nat)>, store: Store, indent: nat)
    requires IsStack(stack, store)
    ensures var r := Pop(stack, indent); IsStack(r, store) && r[|r| - 1].0 < indent
    decreases |stack|
  {
    if stack[|stack| - 1].0 >= indent {
      assert |stack| > 1;
      PopKeepsStack(stack[..|stack| - 1], store, indent);
    }
  }

  function Step(st: State, line: string): (r: State)
    requires IsStack(st.stack, st.store)
    ensures IsStack(r.stack, r.store)
  {
    match ParseLine(line)
    case None => st
    case Some(Line(indent, key, raw)) =>
      PopKeepsStack(st.stack, st.store, indent);
      var stack := Pop(st.stack, indent);
      var parent := stack[|stack| - 1].1;
      match raw
      case None =>
        var cell := |st.store|;
        State(st.store[parent := st.store[parent][key := Ref(cell)]] + [map[]], stack + [(indent, cell)])
      case Some(text) =>
        State(st.store[parent := st.store[parent][key := Plain(ScalarOf(Unquote(text)))]], stack)
  }

  function Run(st: State, lines: seq<string>): (r: State)
    requires IsStack(st.stack, st.store)
    ensures IsStack(r.stack, r.store)
    decreases |lines|
  {
    if lines == [] then st else Run(Step(st, lines[0]), lines[1..])
  }

  const INITIAL := State([map[]], [(-1, 0)])

  /** The store's cells in the range show the value under the entry. */
  ghost predicate Shows(store: Store, entry: Entry, v: Value, lo: nat, hi: nat)
    decreases v
  {
    match v
    case Leaf(scalar) => entry == Plain(scalar)
    case Tree(entries) =>
      && entry.Ref? && lo <= entry.cell < hi <= |store|
      && store[entry.cell].Keys == entries.Keys
      && forall key | key in entries :: Shows(store, store[entry.cell][key], entries[key], lo, hi)
  }

  // ---------------------------------------------------------------- printed token trees

  /** A token as written: the blanks, quotes and inner indentation are the writer's choice. */
  datatype Token =
    | Single(key: string, gap: string, quote: Option<char>, text: string)
    | Group(key: string, blank: string, children: seq<Token>)
    | Other(line: string)

  predicate IsIndent(blank: string)
  {
    forall i | 0 <= i < |blank| :: IsWhite(blank[i]) && blank[i] != '\n'
  }

  predicate IsKey(key: string)
  {
    key != [] && forall i | 0 <= i < |key| :: IsKeyChar(key[i])
  }

  function Raw(quote: Option<char>, text: string): string
  {
    match quote
    case None => text
    case Some(q) => [q] + text + [q]
  }

  /** Unquoted text must not begin with white space or look quoted; quoted text may be any one line. */
  predicate IsText(quote: Option<char>, text: string)
  {
    && OneLine(text)
    && match quote
       case None => (text == [] || !IsWhite(text[0])) && Unquote(text) == text
       case Some(q) => q == '"' || q == '\''
  }

  /** Every group's children are indented deeper than the group; lines that are no tokens may stand anywhere. */
  predicate IsToken(t: Token, blank: string)
  {
    match t
    case Single(key, gap, quote, text) => IsKey(key) && gap != [] && IsIndent(gap) && IsText(quote, text)
    case Group(key, inner, children) =>
      IsKey(key) && IsIndent(inner) && |inner| > |blank| && forall i | 0 <= i < |children| :: IsToken(children[i], inner)
    case Other(line) => ParseLine(line).None? && '\n' !in line
  }

  function PrintToken(t: Token, blank: string): seq<string>
    decreases t, 0
  {
    match t
    case Single(key, gap, quote, text) => [blank + key + ":" + gap + Raw(quote, text)]
    case Group(key, inner, children) => [blank + key + ":"] + PrintTokens(children, inner)
    case Other(line) => [line]
  }

  function PrintTokens(tokens: seq<Token>, blank: string): seq<string>
    decreases tokens
  {
    if tokens == [] then [] else PrintToken(tokens[0], blank) + PrintTokens(tokens[1..], blank)
  }

  /** The tree the tokens stand for; of equal keys the last counts. */
  function Meaning(m: map<string, Value>, tokens: seq<Token>): map<string, Value>
    decreases tokens
  {
    if tokens == [] then m
    else
      var next :=
        match tokens[0]
        case Single(key, _, _, text) => m[key := Leaf(ScalarOf(text))]
        case Group(key, _, children) => m[key := Tree(Meaning(map[], children))]
        case Other(_) => m;
      Meaning(next, tokens[1..])
  }

  // ---------------------------------------------------------------- printed lines parse

  lemma {:induction false} TrimStartBlank(blank: string, rest: string)
    requires IsIndent(blank) && (rest == [] || !IsWhite(rest[0]))
    ensures TrimStart(blank + rest) == rest
    decreases |blank|
  {
    if blank == [] {
      assert blank + rest == rest;
    } else {
      TrimStartBlank(blank[1..], rest);
      assert (blank + rest)[1..] == blank[1..] + rest;
    }
  }

  lemma KeyRunKey(key: string, rest: string)
    requires IsKey(key)
    ensures KeyRun(key + ":" + rest) == |key| && !IsWhite((key + ":" + rest)[0])
  {
    var s := key + ":" + rest;
    assert forall i | 0 <= i < |key| :: s[i] == key[i];
    assert s[|key|] == ':' && !IsKeyChar(':') && IsKeyChar(key[0]);
  }

  lemma GroupLine(blank: string, key: string)
    requires IsIndent(blank) && IsKey(key)
    ensures ParseLine(blank + key + ":") == Some(Line(|blank|, key, None))
  {
    var t := key + ":" + "";
    KeyRunKey(key, "");
    TrimStartBlank(blank, t);
    assert blank + t == blank + key + ":";
    hide TrimStart, KeyRun;
    assert t[..|key|] == key && t[|key| + 1..] == "";
  }

  lemma SingleParts(blank: string, key: string, gap: string, raw: string)
    ensures var t := key + ":" + (gap + raw);
            && blank + t == blank + key + ":" + gap + raw
            && t[|key|] == ':' && t[..|key|] == key && t[|key| + 1..] == gap + raw
  {
    Regroup(blank, key, ":", gap, raw);
  }

  lemma Regroup(a: string, b: string, c: string, d: string, e: string)
    ensures a + (b + c + (d + e)) == a + b + c + d + e
  {
  }

  lemma LineParts(line: string, t: string, run: nat, rest: string, raw: string)
    requires TrimStart(line) == t && KeyRun(t) == run && 0 < run < |t| && t[run] == ':' && t[run + 1..] == rest
    requires |rest| > |raw| && TrimStart(rest) == raw && OneLine(raw) && |t| <= |line|
    ensures ParseLine(line) == Some(Line(|line| - |t|, t[..run], Some(raw)))
  {
    hide TrimStart, KeyRun, OneLine;
  }

  lemma SingleLine(blank: string, key: string, gap: string, raw: string)
    requires IsIndent(blank) && IsKey(key) && IsIndent(gap) && gap != []
    requires (raw == [] || !IsWhite(raw[0])) && OneLine(raw)
    ensures ParseLine(blank + key + ":" + gap + raw) == Some(Line(|blank|, key, Some(raw)))
  {
    assert key != [];
    hide TrimStart, KeyRun, OneLine, IsIndent, IsKey, IsWhite, ParseLine;
    var t := key + ":" + (gap + raw);
    KeyRunKey(key, gap + raw);
    TrimStartBlank(blank, t);
    TrimStartBlank(gap, raw);
    SingleParts(blank, key, gap, raw);
    LineParts(blank + t, t, |key|, gap + raw, raw);
  }

  lemma RawText(quote: Option<char>, text: string)
    requires IsText(quote, text)
    ensures var raw := Raw(quote, text); Unquote(raw) == text && OneLine(raw) && (raw == [] || !IsWhite(raw[0]))
  {
    if quote.Some? {
      var raw := Raw(quote, text);
      assert raw[1..|raw| - 1] == text;
    }
  }

  // ---------------------------------------------------------------- trees in the store

  /** The cell holds the tree; everything below it lies in later cells. */
  ghost predicate CellShows(store: Store, cell: nat, m: map<string, Value>)
  {
    && cell < |store| && store[cell].Keys == m.Keys
    && forall key | key in m :: Shows(store, store[cell][key], m[key], cell + 1, |store|)
  }

  lemma {:induction false} ShowsFrame(store: Store, store': Store, entry: Entry, v: Value, lo: nat, hi: nat, lo': nat, hi': nat)
    requires Shows(store, entry, v, lo, hi) && lo' <= lo && hi <= |store| && hi <= hi' <= |store'|
    requires forall i | lo <= i < hi :: store[i] == store'[i]
    ensures Shows(store', entry, v, lo', hi')
    decreases v
  {
    if v.Tree? {
      forall key | key in v.entries ensures Shows(store', store'[entry.cell][key], v.entries[key], lo', hi') {
        ShowsFrame(store, store', store[entry.cell][key], v.entries[key], lo, hi, lo', hi');
      }
    }
  }

  /** The later store keeps every old cell but one. */
  ghost predicate KeepsOthers(store: Store, store': Store, cell: nat)
  {
    |store| <= |store'| && forall i | 0 <= i < |store| && i != cell :: store'[i] == store[i]
  }

  /** Putting an entry under a key, when the new store shows the new value. */
  lemma CellPut(store: Store, store': Store, cell: nat, m: map<string, Value>, key: string, entry: Entry, v: Value)
    requires CellShows(store, cell, m) && KeepsOthers(store, store', cell)
    requires store'[cell] == store[cell][key := entry] && Shows(store', entry, v, cell + 1, |store'|)
    ensures CellShows(store', cell, m[key := v])
  {
    hide Shows;
    forall k | k in m[key := v] ensures Shows(store', store'[cell][k], m[key := v][k], cell + 1, |store'|) {
      if k != key {
        ShowsFrame(store, store', store[cell][k], m[k], cell + 1, |store|, cell + 1, |store'|);
      }
    }
  }

  /** A whole cell seen from an earlier one. */
  lemma CellAsEntry(store: Store, cell: nat, m: map<string, Value>, lo: nat)
    requires CellShows(store, cell, m) && lo <= cell
    ensures Shows(store, Ref(cell), Tree(m), lo, |store|)
  {
    forall key | key in m ensures Shows(store, store[cell][key], m[key], lo, |store|) {
      ShowsFrame(store, store, store[cell][key], m[key], cell + 1, |store|, lo, |store|);
    }
  }

  // ---------------------------------------------------------------- the stack

  /** The stack is the base with only entries of at least the given indent on top. */
  ghost predicate StackOver(stack: seq<(int, nat)>, base: seq<(int, nat)>, indent: int)
  {
    base <= stack && forall i | |base| <= i < |stack| :: stack[i].0 >= indent
  }

  lemma {:induction false} PopToBase(stack: seq<(int, nat)>, base: seq<(int, nat)>, indent: int)
    requires StackOver(stack, base, indent) && base != [] && base[|base| - 1].0 < indent
    ensures Pop(stack, indent) == base
    decreases |stack|
  {
    if |stack| > |base| {
      PopToBase(stack[..|stack| - 1], base, indent);
    } else {
      assert stack == base;
    }
  }

  lemma {:induction false} RunConcat(st: State, a: seq<string>, b: seq<string>)
    requires IsStack(st.stack, st.store)
    ensures Run(st, a + b) == Run(Run(st, a), b)
    decreases |a|
  {
    hide Step, IsStack;
    if a == [] {
      assert a + b == b;
    } else {
      RunConcat(Step(st, a[0]), a[1..], b);
      assert (a + b)[1..] == a[1..] + b;
    }
  }

  lemma RunOne(st: State, line: string)
    requires IsStack(st.stack, st.store)
    ensures Run(st, [line]) == Step(st, line)
  {
    hide Step, IsStack;
    assert [line][1..] == [];
  }

  // ---------------------------------------------------------------- round trip

  /** Where the tokens of one level are being written. */
  ghost predicate IsLevel(st: State, base: seq<(int, nat)>, m: map<string, Value>, blank: string)
  {
    && IsStack(st.stack, st.store) && StackOver(st.stack, base, |blank|)
    && base != [] && base[|base| - 1].0 < |blank| && IsIndent(blank)
    && CellShows(st.store, base[|base| - 1].1, m)
  }

  /** The level after some tokens: the tree has grown and only its cell and new ones were written. */
  ghost predicate HasGrown(st: State, r: State, base: seq<(int, nat)>, m: map<string, Value>, blank: string)
    requires base != []
  {
    IsLevel(r, base, m, blank) && KeepsOthers(st.store, r.store, base[|base| - 1].1)
  }

  lemma SingleParsed(st: State, base: seq<(int, nat)>, m: map<string, Value>, blank: string, t: Token)
    requires IsLevel(st, base, m, blank) && t.Single? && IsToken(t, blank)
    ensures HasGrown(st, Run(st, PrintToken(t, blank)), base, m[t.key := Leaf(ScalarOf(t.text))], blank)
  {
    var line, cell := PrintToken(t, blank)[0], base[|base| - 1].1;
    RawText(t.quote, t.text);
    SingleLine(blank, t.key, t.gap, Raw(t.quote, t.text));
    PopToBase(st.stack, base, |blank|);
    RunOne(st, line);
    hide ParseLine, Raw, Unquote, IsText, IsIndent, IsKey, ScalarOf, Run, StackOver, CellShows, Pop;
    var r := Step(st, line);
    var entry, v := Plain(ScalarOf(t.text)), Leaf(ScalarOf(t.text));
    assert r == State(st.store[cell := st.store[cell][t.key := entry]], base);
    CellPut(st.store, r.store, cell, m, t.key, entry, v);
    OverItself(base, |blank|);
  }

  lemma OverItself(base: seq<(int, nat)>, indent: int)
    ensures StackOver(base, base, indent)
  {
  }

  /** Opening a group: a new empty cell, referenced from the parent and on top of the stack. */
  lemma GroupOpened(st: State, base: seq<(int, nat)>, m: map<string, Value>, blank: string, key: string, inner: string)
    requires IsLevel(st, base, m, blank) && IsKey(key) && IsIndent(inner) && |inner| > |blank|
    ensures var r := Run(st, [blank + key + ":"]);
            var cell, made := base[|base| - 1].1, |st.store|;
            && r.store == st.store[cell := st.store[cell][key := Ref(made)]] + [map[]]
            && IsLevel(r, base + [(|blank|, made)], map[], inner)
  {
    var line := blank + key + ":";
    GroupLine(blank, key);
    PopToBase(st.stack, base, |blank|);
    RunOne(st, line);
    hide ParseLine, IsIndent, IsKey, Run, Pop;
    OverItself(base + [(|blank|, |st.store|)], |inner|);
    hide StackOver;
  }

  /** Closing a group: its cell is part of the parent's tree. */
  lemma GroupClosed(st: State, within: State, r: State, base: seq<(int, nat)>, m: map<string, Value>, blank: string,
                    key: string, inner: string, children: map<string, Value>)
    requires IsLevel(st, base, m, blank) && |inner| > |blank|
    requires var cell, made := base[|base| - 1].1, |st.store|;
             && within.store == st.store[cell := st.store[cell][key := Ref(made)]] + [map[]]
             && HasGrown(within, r, base + [(|blank|, made)], children, inner)
    ensures HasGrown(st, r, base, m[key := Tree(children)], blank)
  {
    hide Shows, IsIndent, IsStack;
    var cell, made := base[|base| - 1].1, |st.store|;
    CellAsEntry(r.store, made, children, cell + 1);
    assert KeepsOthers(st.store, r.store, cell);
    assert r.store[cell] == within.store[cell];
    CellPut(st.store, r.store, cell, m, key, Ref(made), Tree(children));
    hide CellShows, KeepsOthers;
    assert StackOver(r.stack, base, |blank|) by {
      assert (base + [(|blank|, made)])[|base|] == (|blank|, made);
    }
  }

  lemma GrownTwice(a: State, b: State, c: State, base: seq<(int, nat)>, m: map<string, Value>, m': map<string, Value>, blank: string)
    requires base != [] && HasGrown(a, b, base, m, blank) && HasGrown(b, c, base, m', blank)
    ensures HasGrown(a, c, base, m', blank)
  {
    hide IsLevel;
  }

  lemma OtherParsed(st: State, base: seq<(int, nat)>, m: map<string, Value>, blank: string, line: string)
    requires IsLevel(st, base, m, blank) && ParseLine(line).None?
    ensures HasGrown(st, Run(st, [line]), base, m, blank)
  {
    RunOne(st, line);
    hide ParseLine, IsLevel, Run;
  }

  /** One level of tokens, by induction over the tree. */
  lemma {:induction false} TokensParsed(st: State, base: seq<(int, nat)>, m: map<string, Value>, tokens: seq<Token>, blank: string)
    requires IsLevel(st, base, m, blank) && forall i | 0 <= i < |tokens| :: IsToken(tokens[i], blank)
    ensures IsStack(st.stack, st.store)
    ensures HasGrown(st, Run(st, PrintTokens(tokens, blank)), base, Meaning(m, tokens), blank)
    decreases tokens
  {
    hide IsStack, StackOver, CellShows, IsIndent, IsKey, ParseLine, ScalarOf, Step, IsText;
    if tokens == [] {
      assert Run(st, []) == st;
    } else {
      var t, rest := tokens[0], tokens[1..];
      var mid := Run(st, PrintToken(t, blank));
      var next := Meaning(m, [t]);
      MeaningOne(m, t);
      RunConcat(st, PrintToken(t, blank), PrintTokens(rest, blank));
      hide Run;
      match t {
        case Single(_, _, _, _) => SingleParsed(st, base, m, blank, t);
        case Other(line) => OtherParsed(st, base, m, blank, line);
        case Group(key, inner, children) =>
          GroupOpened(st, base, m, blank, key, inner);
          var within := Run(st, [blank + key + ":"]);
          TokensParsed(within, base + [(|blank|, |st.store|)], map[], children, inner);
          RunConcat(st, [blank + key + ":"], PrintTokens(children, inner));
          GroupClosed(st, within, mid, base, m, blank, key, inner, Meaning(map[], children));
      }
      TokensParsed(mid, base, next, rest, blank);
      GrownTwice(st, mid, Run(mid, PrintTokens(rest, blank)), base, next, Meaning(next, rest), blank);
    }
  }

  function AddToken(m: map<string, Value>, t: Token): map<string, Value>
  {
    match t
    case Single(key, _, _, text) => m[key := Leaf(ScalarOf(text))]
    case Group(key, _, children) => m[key := Tree(Meaning(map[], children))]
    case Other(_) => m
  }

  lemma MeaningOne(m: map<string, Value>, t: Token)
    ensures Meaning(m, [t]) == AddToken(m, t)
  {
    hide ScalarOf;
    assert [t][1..] == [];
  }

  lemma {:induction false} PrintedNoFeeds(tokens: seq<Token>, blank: string)
    requires IsIndent(blank) && forall i | 0 <= i < |tokens| :: IsToken(tokens[i], blank)
    ensures forall line | line in PrintTokens(tokens, blank) :: '\n' !in line
    decreases tokens
  {
    hide ParseLine;
    if tokens != [] {
      var t := tokens[0];
      match t {
        case Single(key, gap, quote, text) =>
          RawText(quote, text);
          assert forall i | 0 <= i < |key| :: IsKeyChar(key[i]);
          assert '\n' !in Raw(quote, text);
        case Group(key, inner, children) =>
          assert forall i | 0 <= i < |key| :: IsKeyChar(key[i]);
          PrintedNoFeeds(children, inner);
        case Other(_) =>
      }
      PrintedNoFeeds(tokens[1..], blank);
    }
  }

  /**
    Parsing a printed token tree rebuilds it: for any choice of indentation that is strictly deeper
    inside groups, of blanks, of quoting, and of lines that are no tokens in between.
   */
  lemma RoundTrip(tokens: seq<Token>, blank: string)
    requires IsIndent(blank) && forall i | 0 <= i < |tokens| :: IsToken(tokens[i], blank)
    ensures IsStack(INITIAL.stack, INITIAL.store)
    ensures CellShows(Run(INITIAL, Split(Written(PrintTokens(tokens, blank)))).store, 0, Meaning(map[], tokens))
  {
    var lines := PrintTokens(tokens, blank);
    assert IsLevel(INITIAL, INITIAL.stack, map[], blank);
    TokensParsed(INITIAL, INITIAL.stack, map[], tokens, blank);
    if tokens == [] {
      RunOne(INITIAL, "");
      assert Split("") == [""] && ParseLine("").None?;
    } else {
      PrintedNoFeeds(tokens, blank);
      hide Run, Meaning, IsToken, Step, IsStack, CellShows;
      assert PrintToken(tokens[0], blank) != [];
      SplitJoin(lines);
    }
  }

  /** Lines as one text. */
  function Written(lines: seq<string>): string
  {
    if lines == [] then "" else Join(lines)
  }

  function ValueOf(t: Token): Value
    requires !t.Other?
  {
    match t
    case Single(_, _, _, text) => Leaf(ScalarOf(text))
    case Group(_, _, children) => Tree(Meaning(map[], children))
  }

  /**
    With unique keys no token is lost: each is found under its key. A text is read back as a string
    exactly when it does not look like a number, quoted or not.
   */
  lemma {:induction false} UniqueKeysKept(m: map<string, Value>, tokens: seq<Token>, i: nat)
    requires i < |tokens| && !tokens[i].Other?
    requires forall j | i < j < |tokens| && !tokens[j].Other? :: tokens[j].key != tokens[i].key
    ensures tokens[i].key in Meaning(m, tokens) && Meaning(m, tokens)[tokens[i].key] == ValueOf(tokens[i])
    ensures tokens[i].Single? ==> (ValueOf(tokens[i]) == Leaf(Words(tokens[i].text)) <==> !IsNumeric(tokens[i].text))
    decreases |tokens|
  {
    hide IsNumeric;
    var next := AddToken(m, tokens[0]);
    if i > 0 {
      UniqueKeysKept(next, tokens[1..], i - 1);
    } else {
      KeyKept(next, tokens[1..], tokens[0].key);
    }
  }

  lemma NumberExample()
    ensures IsNumeric("12") && OneLine("12") && IsKey("a") && IsIndent(" ") && IsIndent("")
  {
    assert "12"[1..] == "2" && DigitRun("2") == 1 && DigitRun("12") == 2;
    assert "12"[2..] == [] && [Num][1..] == [];
  }

  /** A quoted number comes back as a number, not as the text that was quoted. */
  lemma QuotedNumberExample()
    ensures IsStack(INITIAL.stack, INITIAL.store)
    ensures CellShows(Run(INITIAL, Split("a: \"12\"")).store, 0, map["a" := Leaf(Number("12"))])
  {
    NumberExample();
    var token := Single("a", " ", Some('"'), "12");
    assert IsToken(token, "") && ScalarOf("12") == Number("12");
    hide IsNumeric, OneLine, IsIndent, IsKey;
    RoundTrip([token], "");
    assert [token][1..] == [];
    assert PrintTokens([token], "") == ["" + "a" + ":" + " " + (['"'] + "12" + ['"'])] + [];
    assert "" + "a" + ":" + " " + (['"'] + "12" + ['"']) == "a: \"12\"";
    assert Meaning(map[], [token]) == map["a" := Leaf(Number("12"))];
    hide Run, CellShows, IsToken;
  }

  lemma {:induction false} KeyKept(m: map<string, Value>, tokens: seq<Token>, key: string)
    requires key in m && forall j | 0 <= j < |tokens| && !tokens[j].Other? :: tokens[j].key != key
    ensures key in Meaning(m, tokens) && Meaning(m, tokens)[key] == m[key]
    decreases |tokens|
  {
    hide ScalarOf;
    if tokens != [] {
      KeyKept(AddToken(m, tokens[0]), tokens[1..], key);
    }
  }

  // ---------------------------------------------------------------- the loop

  method PopDeeper(stack: seq<(int, nat)>, indent: nat, ghost store: Store) returns (r: seq<(int, nat)>)
    requires IsStack(stack, store)
    ensures r == Pop(stack, indent) && IsStack(r, store) && r[|r| - 1].0 < indent
  {
    PopKeepsStack(stack, store, indent);
    hide IsStack;
    r := stack;
    while r[|r| - 1].0 >= indent
      invariant Pop(r, indent) == Pop(stack, indent) && |r| > 0
      decreases |r|
    {
      StackNotEmpty(stack, store, indent);
      r := r[..|r| - 1];
    }
  }

  lemma StackNotEmpty(stack: seq<(int, nat)>, store: Store, indent: nat)
    requires IsStack(stack, store)
    ensures Pop(stack, indent) != []
  {
    PopKeepsStack(stack, store, indent);
  }

  /** The store after all lines; cell 0 is the result. */
  method ParseFrontmatter(source: string) returns (store: Store)
    ensures IsStack(INITIAL.stack, INITIAL.store) && store == Run(INITIAL, Split(source)).store
  {
    hide Split, ParseLine, Pop, ScalarOf, Unquote;
    var stack: seq<(int, nat)> := [(-1, 0)];
    store := [map[]];
    var lines := Split(source);
    assert lines[0..] == lines;
    for i := 0 to |lines|
      invariant IsStack(stack, store) && Run(State(store, stack), lines[i..]) == Run(INITIAL, lines)
    {
      var line := lines[i];
      ghost var before := State(store, stack);
      assert lines[i..][1..] == lines[i + 1..];
      assert Run(before, lines[i..]) == Run(Step(before, line), lines[i + 1..]);
      BlankLine(line);
      if Trim(line) == [] {
        continue;
      }
      var parsed := ParseLine(line);
      if parsed.None? {
        continue;
      }
      var Line(indent, key, raw) := parsed.value;
      stack := PopDeeper(stack, indent, store);
      var parent := stack[|stack| - 1].1;
      if raw.None? {
        var cell := |store|;
        store := store[parent := store[parent][key := Ref(cell)]] + [map[]];
        stack := stack + [(indent, cell)];
      } else {
        store := store[parent := store[parent][key := Plain(ScalarOf(Unquote(raw.value)))]];
      }
      assert State(store, stack) == Step(before, line);
    }
    assert lines[|lines|..] == [];
  }

  lemma BlankLine(line: string)
    ensures Trim(line) == [] ==> ParseLine(line).None?
  {
    TrimStartShape(line);
    TrimEndEmpty(TrimStart(line));
  }

  lemma {:induction false} TrimStartShape(s: string)
    ensures TrimStart(s) != [] ==> !IsWhite(TrimStart(s)[0])
    decreases |s|
  {
    if s != [] && IsWhite(s[0]) {
      TrimStartShape(s[1..]);
    }
  }

  lemma {:induction false} TrimEndEmpty(s: string)
    ensures s != [] && !IsWhite(s[0]) ==> TrimEnd(s) != []
    decreases |s|
  {
    if s != [] {
      TrimEndEmpty(s[..|s| - 1]);
    }
  }
}
