/**
  Splitting a stream of concatenated JSON objects by counting braces outside strings, as done for
  the module listing of the mobile core build.
 */
module JsonStream {
  import opened Results

  // ---------------------------------------------------------------- the splitter

  /** The scanner's variables; `slices` holds the ranges handed to the JSON parser. */
  datatype State = State(depth: int, start: int, quoted: bool, escaped: bool, slices: seq<(int, int)>)

  const INITIAL := State(0, -1, false, false, [])

  function Step(st: State, c: char, index: nat): State
  {
    if st.quoted then
      if st.escaped then st.(escaped := false)
      else if c == '\\' then st.(escaped := true)
      else if c == '"' then st.(quoted := false)
      else st
    else if c == '"' then st.(quoted := true)
    else if c == '{' then st.(depth := st.depth + 1, start := if st.depth == 0 then index else st.start)
    else if c == '}' then
      st.(depth := st.depth - 1,
          slices := if st.depth == 1 && st.start != -1 then st.slices + [(st.start, index + 1)] else st.slices)
    else st
  }

  /** Scanning a text that starts at the given offset. */
  function Scan(st: State, text: string, offset: nat): State
  {
    if text == [] then st
    else
      var n := |text| - 1;
      Step(Scan(st, text[..n], offset), text[n], offset + n)
  }

  lemma {:induction false} ScanConcat(st: State, a: string, b: string, offset: nat)
    ensures Scan(st, a + b, offset) == Scan(Scan(st, a, offset), b, offset + |a|)
    decreases |b|
  {
    hide Step;
    if b == [] {
      assert a + b == a;
    } else {
      var n := |b| - 1;
      ScanConcat(st, a, b[..n], offset);
      assert (a + b)[..|a| + n] == a + b[..n];
    }
  }

  lemma ScanOne(st: State, c: char, offset: nat)
    ensures Scan(st, [c], offset) == Step(st, c, offset)
  {
    assert [c][..0] == [];
  }

  // ---------------------------------------------------------------- JSON texts

  /** A character of a string: itself, or a backslash and the character it escapes. */
  datatype StringChar = Plain(c: char) | Escaped(c: char)

  /**
    Concrete syntax of sections 2 to 7 of RFC 8259: every node carries the white space around it.
    Literals cover numbers and the literal names.
   */
  datatype Value =
    | Literal(text: string)
    | Text(chars: seq<StringChar>)
    | Array(blank: string, items: seq<Item>)
    | Object(blank: string, members: seq<Member>)

  datatype Item = Item(before: string, value: Value, after: string)

  datatype Member = Member(before: string, key: seq<StringChar>, afterKey: string, item: Item)

  predicate IsBlank(s: string)
  {
    forall i | 0 <= i < |s| :: s[i] in {' ', '\t', '\n', '\r'}
  }

  predicate IsLiteral(s: string)
  {
    forall i | 0 <= i < |s| :: 'a' <= s[i] <= 'z' || 'A' <= s[i] <= 'Z' || '0' <= s[i] <= '9' || s[i] in {'-', '+', '.'}
  }

  predicate IsStringText(chars: seq<StringChar>)
  {
    forall i | 0 <= i < |chars| :: chars[i].Plain? ==> chars[i].c != '"' && chars[i].c != '\\'
  }

  predicate IsJson(v: Value)
  {
    match v
    case Literal(text) => IsLiteral(text)
    case Text(chars) => IsStringText(chars)
    case Array(blank, items) => IsBlank(blank) && forall i | 0 <= i < |items| :: IsItem(items[i])
    case Object(blank, members) => IsBlank(blank) && forall i | 0 <= i < |members| :: IsMember(members[i])
  }

  predicate IsItem(item: Item)
  {
    IsBlank(item.before) && IsJson(item.value) && IsBlank(item.after)
  }

  predicate IsMember(m: Member)
  {
    IsBlank(m.before) && IsStringText(m.key) && IsBlank(m.afterKey) && IsItem(m.item)
  }

  function PrintChars(chars: seq<StringChar>): string
  {
    if chars == [] then []
    else (match chars[0] case Plain(c) => [c] case Escaped(c) => ['\\', c]) + PrintChars(chars[1..])
  }

  function PrintString(chars: seq<StringChar>): string
  {
    ['"'] + PrintChars(chars) + ['"']
  }

  function Print(v: Value): string
    decreases v, 0
  {
    match v
    case Literal(text) => text
    case Text(chars) => PrintString(chars)
    case Array(blank, items) => ['['] + blank + PrintItems(items) + [']']
    case Object(blank, members) => ['{'] + blank + PrintMembers(members) + ['}']
  }

  function PrintItem(item: Item): string
  {
    item.before + Print(item.value) + item.after
  }

  function PrintItems(items: seq<Item>): string
  {
    if items == [] then []
    else if |items| == 1 then PrintItem(items[0])
    else PrintItem(items[0]) + [','] + PrintItems(items[1..])
  }

  function PrintMember(m: Member): string
  {
    m.before + PrintString(m.key) + m.afterKey + [':'] + PrintItem(m.item)
  }

  function PrintMembers(members: seq<Member>): string
  {
    if members == [] then []
    else if |members| == 1 then PrintMember(members[0])
    else PrintMember(members[0]) + [','] + PrintMembers(members[1..])
  }

  // ---------------------------------------------------------------- values leave the scanner where it was

  predicate IsPlain(c: char)
  {
    c != '"' && c != '{' && c != '}'
  }

  lemma {:induction false} PlainText(st: State, text: string, offset: nat)
    requires !st.quoted && forall i | 0 <= i < |text| :: IsPlain(text[i])
    ensures Scan(st, text, offset) == st
    decreases |text|
  {
    if text != [] {
      PlainText(st, text[..|text| - 1], offset);
    }
  }

  lemma {:induction false} CharsStayQuoted(st: State, chars: seq<StringChar>, offset: nat)
    requires st.quoted && !st.escaped && IsStringText(chars)
    ensures Scan(st, PrintChars(chars), offset) == st
    decreases |chars|
  {
    if chars != [] {
      var head := match chars[0] case Plain(c) => [c] case Escaped(c) => ['\\', c];
      ScanConcat(st, head, PrintChars(chars[1..]), offset);
      match chars[0] {
        case Plain(c) => ScanOne(st, c, offset);
        case Escaped(c) =>
          ScanConcat(st, ['\\'], [c], offset);
          assert ['\\'] + [c] == ['\\', c];
          ScanOne(st, '\\', offset);
          ScanOne(st.(escaped := true), c, offset + 1);
      }
      CharsStayQuoted(st, chars[1..], offset + |head|);
    }
  }

  lemma StringSkipped(st: State, chars: seq<StringChar>, offset: nat)
    requires !st.quoted && !st.escaped && IsStringText(chars)
    ensures Scan(st, PrintString(chars), offset) == st
  {
    var inside := st.(quoted := true);
    ScanConcat(st, ['"'] + PrintChars(chars), ['"'], offset);
    ScanConcat(st, ['"'], PrintChars(chars), offset);
    ScanOne(st, '"', offset);
    CharsStayQuoted(inside, chars, offset + 1);
    ScanOne(inside, '"', offset + 1 + |PrintChars(chars)|);
  }

  /** Outside strings and inside some object. */
  predicate IsInside(st: State)
  {
    !st.quoted && !st.escaped && st.depth >= 1
  }

  /** Two texts that are skipped are skipped one after the other. */
  lemma SkipBoth(st: State, a: string, b: string, offset: nat)
    requires Scan(st, a, offset) == st && Scan(st, b, offset + |a|) == st
    ensures Scan(st, a + b, offset) == st
  {
    ScanConcat(st, a, b, offset);
  }

  lemma {:induction false} ValueSkipped(st: State, v: Value, offset: nat)
    requires IsInside(st) && IsJson(v)
    ensures Scan(st, Print(v), offset) == st
    decreases v, 0
  {
    hide Scan;
    match v
    case Literal(text) => PlainText(st, text, offset);
    case Text(chars) => StringSkipped(st, chars, offset);
    case Array(blank, items) =>
      PlainText(st, ['['] + blank, offset);
      ItemsSkipped(st, items, offset + 1 + |blank|);
      SkipBoth(st, ['['] + blank, PrintItems(items), offset);
      PlainText(st, [']'], offset + 1 + |blank| + |PrintItems(items)|);
      SkipBoth(st, ['['] + blank + PrintItems(items), [']'], offset);
    case Object(blank, members) =>
      ObjectBody(st.(depth := st.depth + 1), blank, members, offset + 1);
      ObjectScanned(st, blank, members, offset);
  }

  lemma {:induction false} ItemSkipped(st: State, item: Item, offset: nat)
    requires IsInside(st) && IsItem(item)
    ensures Scan(st, PrintItem(item), offset) == st
    decreases item
  {
    hide Scan;
    PlainText(st, item.before, offset);
    ValueSkipped(st, item.value, offset + |item.before|);
    SkipBoth(st, item.before, Print(item.value), offset);
    PlainText(st, item.after, offset + |item.before| + |Print(item.value)|);
    SkipBoth(st, item.before + Print(item.value), item.after, offset);
  }

  lemma ItemsPrinted(items: seq<Item>)
    requires |items| > 1
    ensures PrintItems(items) == PrintItem(items[0]) + [','] + PrintItems(items[1..])
  {
    hide PrintItem;
  }

  lemma MembersPrinted(members: seq<Member>)
    requires |members| > 1
    ensures PrintMembers(members) == PrintMember(members[0]) + [','] + PrintMembers(members[1..])
  {
    hide PrintMember;
  }

  lemma {:induction false} ItemsSkipped(st: State, items: seq<Item>, offset: nat)
    requires IsInside(st) && forall i | 0 <= i < |items| :: IsItem(items[i])
    ensures Scan(st, PrintItems(items), offset) == st
    decreases items, 0
  {
    if items != [] {
      ItemSkipped(st, items[0], offset);
      if |items| > 1 {
        ItemsPrinted(items);
        hide Scan, PrintItem, PrintItems, IsItem;
        var head := PrintItem(items[0]);
        PlainText(st, [','], offset + |head|);
        SkipBoth(st, head, [','], offset);
        ItemsSkipped(st, items[1..], offset + |head| + 1);
        SkipBoth(st, head + [','], PrintItems(items[1..]), offset);
      }
    }
  }

  lemma {:induction false} MemberSkipped(st: State, m: Member, offset: nat)
    requires IsInside(st) && IsMember(m)
    ensures Scan(st, PrintMember(m), offset) == st
    decreases m
  {
    hide Scan;
    var key := m.before + PrintString(m.key);
    PlainText(st, m.before, offset);
    StringSkipped(st, m.key, offset + |m.before|);
    SkipBoth(st, m.before, PrintString(m.key), offset);
    PlainText(st, m.afterKey + [':'], offset + |key|);
    SkipBoth(st, key, m.afterKey + [':'], offset);
    assert key + (m.afterKey + [':']) == key + m.afterKey + [':'];
    ItemSkipped(st, m.item, offset + |key| + |m.afterKey| + 1);
    SkipBoth(st, key + m.afterKey + [':'], PrintItem(m.item), offset);
  }

  lemma {:induction false} MembersSkipped(st: State, members: seq<Member>, offset: nat)
    requires IsInside(st) && forall i | 0 <= i < |members| :: IsMember(members[i])
    ensures Scan(st, PrintMembers(members), offset) == st
    decreases members, 0
  {
    if members != [] {
      MemberSkipped(st, members[0], offset);
      if |members| > 1 {
        MembersPrinted(members);
        hide Scan, PrintMember, PrintMembers, IsMember;
        var head := PrintMember(members[0]);
        PlainText(st, [','], offset + |head|);
        SkipBoth(st, head, [','], offset);
        MembersSkipped(st, members[1..], offset + |head| + 1);
        SkipBoth(st, head + [','], PrintMembers(members[1..]), offset);
      }
    }
  }

  lemma {:induction false} ObjectBody(st: State, blank: string, members: seq<Member>, offset: nat)
    requires IsInside(st) && IsBlank(blank) && forall i | 0 <= i < |members| :: IsMember(members[i])
    ensures Scan(st, blank + PrintMembers(members), offset) == st
    decreases members, 1
  {
    hide Scan;
    PlainText(st, blank, offset);
    MembersSkipped(st, members, offset + |blank|);
    SkipBoth(st, blank, PrintMembers(members), offset);
  }

  lemma ObjectPrinted(blank: string, members: seq<Member>)
    ensures Print(Object(blank, members)) == ['{'] + (blank + PrintMembers(members)) + ['}']
  {
    hide PrintMembers;
    assert ['{'] + blank + PrintMembers(members) + ['}'] == ['{'] + (blank + PrintMembers(members)) + ['}'];
  }

  /** An object opens, its body is skipped, and it closes. */
  lemma ObjectScanned(st: State, blank: string, members: seq<Member>, offset: nat)
    requires !st.quoted
    requires var open := Step(st, '{', offset); Scan(open, blank + PrintMembers(members), offset + 1) == open
    ensures Scan(st, Print(Object(blank, members)), offset)
            == Step(Step(st, '{', offset), '}', offset + 1 + |blank| + |PrintMembers(members)|)
  {
    hide Scan, PrintMembers, Print, Step;
    var body := blank + PrintMembers(members);
    ObjectPrinted(blank, members);
    ScanConcat(st, ['{'] + body, ['}'], offset);
    ScanConcat(st, ['{'], body, offset);
    ScanOne(st, '{', offset);
    ScanOne(Step(st, '{', offset), '}', offset + 1 + |body|);
  }

  // ---------------------------------------------------------------- round trip

  function Stream(objects: seq<Value>, gaps: seq<string>): string
    requires |gaps| == |objects| + 1
  {
    if objects == [] then gaps[0] else gaps[0] + Print(objects[0]) + Stream(objects[1..], gaps[1..])
  }

  predicate AreBounded(output: string, slices: seq<(int, int)>)
  {
    forall s | s in slices :: 0 <= s.0 <= s.1 <= |output|
  }

  /** The texts of the slices. */
  function Texts(output: string, slices: seq<(int, int)>): (r: seq<string>)
    requires AreBounded(output, slices)
    ensures |r| == |slices|
  {
    seq(|slices|, i requires 0 <= i < |slices| => assert slices[i] in slices; output[slices[i].0..slices[i].1])
  }

  /** Where each object of the stream lies. */
  function Places(objects: seq<Value>, gaps: seq<string>, offset: nat): seq<(int, int)>
    requires |gaps| == |objects| + 1
  {
    if objects == [] then []
    else
      var at := offset + |gaps[0]|;
      var end := at + |Print(objects[0])|;
      [(at, end)] + Places(objects[1..], gaps[1..], end)
  }

  ghost predicate IsStream(objects: seq<Value>, gaps: seq<string>)
  {
    && |gaps| == |objects| + 1
    && (forall i | 0 <= i < |objects| :: objects[i].Object? && IsJson(objects[i]))
    && (forall i | 0 <= i < |gaps| :: IsBlank(gaps[i]))
  }

  lemma TopObject(st: State, v: Value, offset: nat)
    requires !st.quoted && !st.escaped && st.depth == 0 && v.Object? && IsJson(v)
    ensures Scan(st, Print(v), offset) == st.(start := offset, slices := st.slices + [(offset, offset + |Print(v)|)])
  {
    hide Scan;
    ObjectBody(Step(st, '{', offset), v.blank, v.members, offset + 1);
    ObjectScanned(st, v.blank, v.members, offset);
  }

  lemma StreamHead(objects: seq<Value>, gaps: seq<string>)
    requires IsStream(objects, gaps)
    ensures |gaps| == |objects| + 1 && IsBlank(gaps[0])
    ensures objects != [] ==> objects[0].Object? && IsJson(objects[0]) && IsStream(objects[1..], gaps[1..])
  {
    hide IsBlank, IsJson;
  }

  lemma BlankSkipped(st: State, blank: string, offset: nat)
    requires !st.quoted && IsBlank(blank)
    ensures Scan(st, blank, offset) == st
  {
    PlainText(st, blank, offset);
  }

  lemma {:induction false} StreamScanned(st: State, objects: seq<Value>, gaps: seq<string>, offset: nat)
    requires !st.quoted && !st.escaped && st.depth == 0 && IsStream(objects, gaps)
    ensures Scan(st, Stream(objects, gaps), offset).slices == st.slices + Places(objects, gaps, offset)
    decreases |objects|
  {
    hide Scan, Print, IsStream, IsJson, IsBlank;
    StreamHead(objects, gaps);
    BlankSkipped(st, gaps[0], offset);
    if objects != [] {
      var at, text := offset + |gaps[0]|, Print(objects[0]);
      var rest := Stream(objects[1..], gaps[1..]);
      ScanConcat(st, gaps[0] + text, rest, offset);
      ScanConcat(st, gaps[0], text, offset);
      TopObject(st, objects[0], at);
      var next := st.(start := at, slices := st.slices + [(at, at + |text|)]);
      StreamScanned(next, objects[1..], gaps[1..], at + |text|);
      var places := Places(objects[1..], gaps[1..], at + |text|);
      hide Stream;
      assert st.slices + ([(at, at + |text|)] + places) == next.slices + places;
    }
  }

  lemma {:induction false} PlacesHold(prefix: string, objects: seq<Value>, gaps: seq<string>, i: nat)
    requires |gaps| == |objects| + 1
    ensures |Places(objects, gaps, |prefix|)| == |objects|
    ensures i < |objects| ==>
              var output, place := prefix + Stream(objects, gaps), Places(objects, gaps, |prefix|)[i];
              0 <= place.0 <= place.1 <= |output| && output[place.0..place.1] == Print(objects[i])
    decreases |objects|
  {
    if objects != [] {
      var next := prefix + gaps[0] + Print(objects[0]);
      PlacesHold(next, objects[1..], gaps[1..], if i == 0 then 0 else i - 1);
      assert prefix + Stream(objects, gaps) == next + Stream(objects[1..], gaps[1..]);
    }
  }

  lemma PlacesBounded(objects: seq<Value>, gaps: seq<string>)
    requires |gaps| == |objects| + 1
    ensures var output, places := Stream(objects, gaps), Places(objects, gaps, 0);
            && AreBounded(output, places) && |places| == |objects|
            && forall i | 0 <= i < |objects| :: Texts(output, places)[i] == Print(objects[i])
  {
    var output, places := Stream(objects, gaps), Places(objects, gaps, 0);
    hide Stream, Places, Print;
    PlacesHold("", objects, gaps, 0);
    assert "" + output == output;
    forall i | 0 <= i < |objects|
      ensures 0 <= places[i].0 <= places[i].1 <= |output| && output[places[i].0..places[i].1] == Print(objects[i])
    {
      PlacesHold("", objects, gaps, i);
    }
  }

  /** Any concatenation of JSON objects with white space around them is split into exactly those texts. */
  lemma StreamRoundTrip(objects: seq<Value>, gaps: seq<string>)
    requires IsStream(objects, gaps)
    ensures var output := Stream(objects, gaps);
            var slices := Scan(INITIAL, output, 0).slices;
            && AreBounded(output, slices)
            && Texts(output, slices) == seq(|objects|, i requires 0 <= i < |objects| => Print(objects[i]))
  {
    StreamScanned(INITIAL, objects, gaps, 0);
    PlacesBounded(objects, gaps);
    hide Scan, Print, Stream, Places, AreBounded, Texts;
    assert [] + Places(objects, gaps, 0) == Places(objects, gaps, 0);
  }

  // ---------------------------------------------------------------- arbitrary input

  /** The scanner just before the given index. */
  function At(output: string, i: nat): State
    requires i <= |output|
  {
    Scan(INITIAL, output[..i], 0)
  }

  lemma AtNext(output: string, i: nat)
    requires i < |output|
    ensures At(output, i + 1) == Step(At(output, i), output[i], i)
  {
    assert output[..i + 1][..i] == output[..i];
  }

  /** An unquoted opening brace at depth 0. */
  predicate Opens(output: string, a: nat)
    requires a < |output|
  {
    !At(output, a).quoted && At(output, a).depth == 0 && output[a] == '{'
  }

  /** From a step from depth 0 to 1 up to and including the first return to depth 0. */
  ghost predicate IsBlock(output: string, a: int, b: int)
  {
    && 0 <= a < b <= |output| && Opens(output, a)
    && (forall k | a < k < b :: At(output, k).depth >= 1)
    && At(output, b).depth == 0
  }

  /** The variables after `i` characters, whatever the characters are. */
  ghost predicate IsScanned(output: string, i: nat)
    requires i <= |output|
  {
    var st := At(output, i);
    && (st.depth >= 1 ==>
          && 0 <= st.start < i && Opens(output, st.start)
          && (forall k | st.start < k <= i :: At(output, k).depth >= 1))
    && (forall s | s in st.slices :: s.1 <= i && (st.depth >= 1 ==> s.1 <= st.start))
    && (forall a, b | b <= i :: (a, b) in st.slices <==> IsBlock(output, a, b))
    && (forall j, k | 0 <= j < k < |st.slices| :: st.slices[j].1 <= st.slices[k].0)
  }

  lemma {:induction false} AlwaysScanned(output: string, i: nat)
    requires i <= |output|
    ensures IsScanned(output, i)
    decreases i
  {
    if i == 0 {
      assert output[..0] == [];
    } else {
      AlwaysScanned(output, i - 1);
      AtNext(output, i - 1);
      hide At;
      ScannedNext(output, i - 1);
    }
  }

  lemma ScannedNext(output: string, i: nat)
    requires i < |output| && IsScanned(output, i) && At(output, i + 1) == Step(At(output, i), output[i], i)
    ensures IsScanned(output, i + 1)
  {
    hide At;
    var was, now := At(output, i), At(output, i + 1);
    forall a, b | b <= i + 1 ensures (a, b) in now.slices <==> IsBlock(output, a, b) {
    }
  }

  /**
    On any input, the slices are exactly the blocks: each runs from a step from depth 0 to 1 to its
    matching close, none is missed, and they are disjoint and in order. So a recorded start is always
    a real one, and the check for a missing start decides nothing.
   */
  lemma SlicesAreBlocks(output: string)
    ensures var slices := Scan(INITIAL, output, 0).slices;
            && (forall a, b :: (a, b) in slices <==> IsBlock(output, a, b))
            && (forall j, k | 0 <= j < k < |slices| :: slices[j].1 <= slices[k].0)
            && (forall s | s in slices :: 0 <= s.0 < s.1 <= |output|)
  {
    hide IsBlock;
    AlwaysScanned(output, |output|);
    assert output[..|output|] == output;
    hide Scan;
    forall a, b ensures (a, b) in Scan(INITIAL, output, 0).slices <==> IsBlock(output, a, b) {
      BlockEnds(output, a, b);
    }
    forall s | s in Scan(INITIAL, output, 0).slices ensures 0 <= s.0 < s.1 <= |output| {
      assert IsBlock(output, s.0, s.1);
      BlockEnds(output, s.0, s.1);
    }
  }

  lemma BlockEnds(output: string, a: int, b: int)
    ensures IsBlock(output, a, b) ==> 0 <= a < b <= |output|
  {
  }

  // ---------------------------------------------------------------- the loop

  /** The parsed objects, or nothing if the parser rejects one of the texts. */
  function ParseAll<T>(parse: string -> Option<T>, texts: seq<string>): Option<seq<T>>
  {
    if texts == [] then Some([])
    else
      var n := |texts| - 1;
      match ParseAll(parse, texts[..n])
      case None => None
      case Some(values) =>
        match parse(texts[n])
        case None => None
        case Some(value) => Some(values + [value])
  }

  lemma {:induction false} ParseAllPrefix<T>(parse: string -> Option<T>, texts: seq<string>, n: nat)
    requires n <= |texts| && ParseAll(parse, texts[..n]).None?
    ensures ParseAll(parse, texts).None?
    decreases |texts|
  {
    if n < |texts| {
      assert texts[..|texts| - 1][..n] == texts[..n];
      ParseAllPrefix(parse, texts[..|texts| - 1], n);
    } else {
      assert texts[..n] == texts;
    }
  }

  lemma BoundedAt(output: string, i: nat)
    requires i <= |output|
    ensures AreBounded(output, At(output, i).slices)
  {
    AlwaysScanned(output, i);
    hide IsBlock, At;
    forall s | s in At(output, i).slices ensures 0 <= s.0 <= s.1 <= |output| {
      assert IsBlock(output, s.0, s.1);
      BlockEnds(output, s.0, s.1);
    }
  }

  /** Slices are only ever added. */
  lemma {:induction false} SlicesGrow(output: string, i: nat)
    requires i <= |output|
    ensures At(output, i).slices <= Scan(INITIAL, output, 0).slices
    decreases |output| - i
  {
    hide Scan;
    if i < |output| {
      AtNext(output, i);
      SlicesGrow(output, i + 1);
    } else {
      assert output[..i] == output;
    }
  }

  /** Parses every object of the stream, failing as the parser does. */
  method ParseJsonStream<T>(output: string, parse: string -> Option<T>) returns (r: Option<seq<T>>)
    ensures AreBounded(output, Scan(INITIAL, output, 0).slices)
    ensures r == ParseAll(parse, Texts(output, Scan(INITIAL, output, 0).slices))
  {
    hide Scan, ParseAll, AreBounded, Texts;
    BoundedAt(output, |output|);
    assert output[..|output|] == output;
    var modules: seq<T> := [];
    var depth, start, quoted, escaped := 0, -1, false, false;
    ghost var slices: seq<(int, int)> := [];
    StartScan(output);
    NothingParsed(output, parse);
    for index := 0 to |output|
      invariant At(output, index) == State(depth, start, quoted, escaped, slices)
      invariant AreBounded(output, slices) && ParseAll(parse, Texts(output, slices)) == Some(modules)
    {
      var character := output[index];
      AtNext(output, index);
      BoundedAt(output, index + 1);
      SlicesGrow(output, index + 1);
      hide At;
      if quoted {
        if escaped {
          escaped := false;
        } else if character == '\\' {
          escaped := true;
        } else if character == '"' {
          quoted := false;
        }
      } else if character == '"' {
        quoted := true;
      } else if character == '{' {
        if depth == 0 {
          start := index;
        }
        depth := depth + 1;
      } else if character == '}' {
        depth := depth - 1;
        if depth == 0 && start != -1 {
          slices := slices + [(start, index + 1)];
          NextText(output, slices, parse);
          var parsed := parse(output[start..index + 1]);
          if parsed.None? {
            RejectedText(output, slices, Scan(INITIAL, output, 0).slices, parse);
            return None;
          }
          modules := modules + [parsed.value];
        }
      }
    }
    return Some(modules);
  }

  lemma StartScan(output: string)
    ensures At(output, 0) == INITIAL
  {
    assert output[..0] == [];
  }

  lemma NothingParsed<T>(output: string, parse: string -> Option<T>)
    ensures AreBounded(output, []) && ParseAll(parse, Texts(output, [])) == Some([])
  {
  }

  lemma RejectedText<T>(output: string, slices: seq<(int, int)>, all: seq<(int, int)>, parse: string -> Option<T>)
    requires AreBounded(output, slices) && AreBounded(output, all) && slices <= all
    requires ParseAll(parse, Texts(output, slices)).None?
    ensures ParseAll(parse, Texts(output, all)).None?
  {
    hide ParseAll, AreBounded;
    assert Texts(output, all)[..|slices|] == Texts(output, slices);
    ParseAllPrefix(parse, Texts(output, all), |slices|);
  }

  lemma NextSliceBounded(output: string, slices: seq<(int, int)>)
    requires slices != [] && AreBounded(output, slices)
    ensures var n := |slices| - 1; 0 <= slices[n].0 <= slices[n].1 <= |output| && AreBounded(output, slices[..n])
  {
    assert slices[|slices| - 1] in slices;
  }

  lemma NextText<T>(output: string, slices: seq<(int, int)>, parse: string -> Option<T>)
    requires slices != [] && AreBounded(output, slices)
    ensures var n := |slices| - 1;
            && 0 <= slices[n].0 <= slices[n].1 <= |output| && AreBounded(output, slices[..n])
            && var values, value := ParseAll(parse, Texts(output, slices[..n])), parse(output[slices[n].0..slices[n].1]);
            ParseAll(parse, Texts(output, slices))
              == if values.None? || value.None? then None else Some(values.value + [value.value])
  {
    var n := |slices| - 1;
    NextSliceBounded(output, slices);
    assert Texts(output, slices)[..n] == Texts(output, slices[..n]);
  }
}
