/** JSON as `JSON.stringify` prints it with an indentation of two, and how long the text is. */
module JsonText {
  import opened Text

  datatype Json = Null | Number(n: nat) | Str(text: string) | List(items: seq<Json>) | Object(members: seq<Member>)

  datatype Member = Member(key: string, value: Json)

  function HexDigit(d: nat): char
    requires d < 16
  {
    if d < 10 then '0' + d as char else 'a' + (d - 10) as char
  }

  function EscapeChar(c: char): string
  {
    if c == '"' then "\\\""
    else if c == '\\' then "\\\\"
    else if c == '\n' then "\\n"
    else if c == '\r' then "\\r"
    else if c == '\t' then "\\t"
    else if c == '\U{8}' then "\\b"
    else if c == '\U{C}' then "\\f"
    else if c < ' ' then "\\u00" + [HexDigit(c as int / 16), HexDigit(c as int % 16)]
    else [c]
  }

  function Escape(s: string): string
  {
    if s == [] then [] else EscapeChar(s[0]) + Escape(s[1..])
  }

  function Quote(s: string): string
  {
    ['"'] + Escape(s) + ['"']
  }

  function Indent(depth: nat): (s: string)
    ensures |s| == 2 * depth
  {
    seq(2 * depth, _ => ' ')
  }

  function Print(j: Json, depth: nat): string
    decreases j
  {
    match j
    case Null => "null"
    case Number(n) => Decimal(n)
    case Str(text) => Quote(text)
    case List(items) => if items == [] then "[]" else "[\n" + PrintItems(items, depth + 1) + "\n" + Indent(depth) + "]"
    case Object(members) =>
      if members == [] then "{}" else "{\n" + PrintMembers(members, depth + 1) + "\n" + Indent(depth) + "}"
  }

  function PrintItems(items: seq<Json>, depth: nat): string
    decreases items
  {
    if items == [] then []
    else Indent(depth) + Print(items[0], depth) + (if |items| == 1 then [] else ",\n" + PrintItems(items[1..], depth))
  }

  function PrintMember(m: Member, depth: nat): string
    decreases m
  {
    Indent(depth) + Quote(m.key) + ": " + Print(m.value, depth)
  }

  function PrintMembers(members: seq<Member>, depth: nat): string
    decreases members
  {
    if members == [] then []
    else PrintMember(members[0], depth) + (if |members| == 1 then [] else ",\n" + PrintMembers(members[1..], depth))
  }

  /** The script's `normalizedJson`. */
  function Document(j: Json): string
  {
    Print(j, 0) + "\n"
  }

  // ---------------------------------------------------------------- lengths add up

  /** The length of all items, each counted with the two characters that separate it from the next. */
  function ItemsSize(items: seq<Json>, depth: nat): nat
  {
    if items == [] then 0 else 2 * depth + |Print(items[0], depth)| + 2 + ItemsSize(items[1..], depth)
  }

  function MembersSize(members: seq<Member>, depth: nat): nat
  {
    if members == [] then 0 else |PrintMember(members[0], depth)| + 2 + MembersSize(members[1..], depth)
  }

  lemma {:induction false} ItemsLength(items: seq<Json>, depth: nat)
    requires items != []
    ensures |PrintItems(items, depth)| + 2 == ItemsSize(items, depth)
    decreases |items|
  {
    hide Print;
    if |items| > 1 {
      ItemsLength(items[1..], depth);
    } else {
      assert items[1..] == [];
    }
  }

  lemma {:induction false} MembersLength(members: seq<Member>, depth: nat)
    requires members != []
    ensures |PrintMembers(members, depth)| + 2 == MembersSize(members, depth)
    decreases |members|
  {
    hide PrintMember;
    if |members| > 1 {
      MembersLength(members[1..], depth);
    } else {
      assert members[1..] == [];
    }
  }

  lemma ListLength(items: seq<Json>, depth: nat)
    requires items != []
    ensures |Print(List(items), depth)| == ItemsSize(items, depth + 1) + 2 + 2 * depth
  {
    hide PrintItems, ItemsSize;
    ItemsLength(items, depth + 1);
  }

  lemma ObjectLength(members: seq<Member>, depth: nat)
    requires members != []
    ensures |Print(Object(members), depth)| == MembersSize(members, depth + 1) + 2 + 2 * depth
  {
    hide PrintMembers, MembersSize;
    MembersLength(members, depth + 1);
  }

  lemma {:induction false} ItemsSizeConcat(a: seq<Json>, b: seq<Json>, depth: nat)
    ensures ItemsSize(a + b, depth) == ItemsSize(a, depth) + ItemsSize(b, depth)
    decreases |a|
  {
    hide Print;
    if a == [] {
      assert a + b == b;
    } else {
      ItemsSizeConcat(a[1..], b, depth);
      assert (a + b)[1..] == a[1..] + b;
    }
  }

  lemma {:induction false} MembersSizeConcat(a: seq<Member>, b: seq<Member>, depth: nat)
    ensures MembersSize(a + b, depth) == MembersSize(a, depth) + MembersSize(b, depth)
    decreases |a|
  {
    hide PrintMember;
    if a == [] {
      assert a + b == b;
    } else {
      MembersSizeConcat(a[1..], b, depth);
      assert (a + b)[1..] == a[1..] + b;
    }
  }

  lemma MembersSizeAround(a: seq<Member>, m: Member, b: seq<Member>, depth: nat)
    ensures MembersSize(a + [m] + b, depth) == MembersSize(a, depth) + |PrintMember(m, depth)| + 2 + MembersSize(b, depth)
  {
    OneMember(m, depth);
    hide MembersSize, PrintMember;
    MembersSizeConcat(a + [m], b, depth);
    MembersSizeConcat(a, [m], depth);
  }

  lemma ItemsSizeAround(a: seq<Json>, item: Json, b: seq<Json>, depth: nat)
    ensures ItemsSize(a + [item] + b, depth) == ItemsSize(a, depth) + 2 * depth + |Print(item, depth)| + 2 + ItemsSize(b, depth)
  {
    OneItem(item, depth);
    hide ItemsSize, Print;
    ItemsSizeConcat(a + [item], b, depth);
    ItemsSizeConcat(a, [item], depth);
  }

  lemma OneMember(m: Member, depth: nat)
    ensures MembersSize([m], depth) == |PrintMember(m, depth)| + 2
  {
    assert [m][1..] == [];
  }

  lemma OneItem(item: Json, depth: nat)
    ensures ItemsSize([item], depth) == 2 * depth + |Print(item, depth)| + 2
  {
    assert [item][1..] == [];
  }

  lemma OneMore(n: nat, unit: nat)
    ensures n * unit + unit == (n + 1) * unit
  {
  }

  lemma {:induction false} ItemsBound(items: seq<Json>, depth: nat, bound: nat)
    requires forall item | item in items :: |Print(item, depth)| <= bound
    ensures ItemsSize(items, depth) <= |items| * (bound + 2 * depth + 2)
    decreases |items|
  {
    hide Print;
    if items != [] {
      assert items[0] in items;
      ItemsBound(items[1..], depth, bound);
      OneMore(|items| - 1, bound + 2 * depth + 2);
    }
  }

  // ---------------------------------------------------------------- plain text

  predicate IsPlainChar(c: char)
  {
    c == '\n' || ' ' <= c <= '~'
  }

  /** Printable ASCII and line feeds. */
  predicate IsPlain(s: string)
  {
    forall i | 0 <= i < |s| :: IsPlainChar(s[i])
  }

  lemma PlainConcat(a: string, b: string)
    requires IsPlain(a) && IsPlain(b)
    ensures IsPlain(a + b)
  {
  }

  lemma PlainEscape(c: char)
    requires IsPlainChar(c)
    ensures IsPlain(EscapeChar(c)) && 1 <= |EscapeChar(c)| <= 2
  {
  }

  /** Plain text escapes to plain text of at most twice its length. */
  lemma {:induction false} EscapePlain(s: string)
    requires IsPlain(s)
    ensures IsPlain(Escape(s)) && |s| <= |Escape(s)| <= 2 * |s|
    decreases |s|
  {
    if s != [] {
      hide EscapeChar;
      PlainEscape(s[0]);
      EscapePlain(s[1..]);
      hide IsPlain;
      PlainConcat(EscapeChar(s[0]), Escape(s[1..]));
    }
  }

  lemma QuotePlain(s: string)
    requires IsPlain(s)
    ensures IsPlain(Quote(s)) && |s| + 2 <= |Quote(s)| <= 2 * |s| + 2
  {
    hide Escape;
    EscapePlain(s);
  }

  /** Text without quotes, backslashes and control characters is printed as it is. */
  lemma {:induction false} EscapeVerbatim(s: string)
    requires forall i | 0 <= i < |s| :: ' ' <= s[i] && s[i] != '"' && s[i] != '\\'
    ensures Escape(s) == s
    decreases |s|
  {
    if s != [] {
      EscapeVerbatim(s[1..]);
    }
  }

  /** All keys and texts are plain. */
  predicate IsPlainJson(j: Json)
    decreases j
  {
    match j
    case Null => true
    case Number(_) => true
    case Str(text) => IsPlain(text)
    case List(items) => forall i | 0 <= i < |items| :: IsPlainJson(items[i])
    case Object(members) => forall i | 0 <= i < |members| :: IsPlainMember(members[i])
  }

  predicate IsPlainMember(m: Member)
    decreases m
  {
    IsPlain(m.key) && IsPlainJson(m.value)
  }

  /** Plain JSON prints as plain text. */
  lemma {:induction false} PrintPlain(j: Json, depth: nat)
    requires IsPlainJson(j)
    ensures IsPlain(Print(j, depth))
    decreases j
  {
    match j
    case Null =>
    case Number(n) => DecimalPlain(n);
    case Str(text) => QuotePlain(text);
    case List(items) =>
      if items != [] {
        ItemsPlain(items, depth + 1);
        Enclosed("[\n", PrintItems(items, depth + 1), depth, "]");
      }
    case Object(members) =>
      if members != [] {
        MembersPlain(members, depth + 1);
        Enclosed("{\n", PrintMembers(members, depth + 1), depth, "}");
      }
  }

  lemma DecimalPlain(n: nat)
    ensures IsPlain(Decimal(n))
  {
    hide Decimal;
    assert forall i | 0 <= i < |Decimal(n)| :: IsDigit(Decimal(n)[i]);
  }

  lemma Enclosed(open: string, body: string, depth: nat, close: string)
    requires IsPlain(open) && IsPlain(body) && IsPlain(close)
    ensures IsPlain(open + body + "\n" + Indent(depth) + close)
  {
    assert IsPlain("\n") && IsPlain(Indent(depth));
    hide IsPlain;
    PlainConcat(open, body);
    PlainConcat(open + body, "\n");
    PlainConcat(open + body + "\n", Indent(depth));
    PlainConcat(open + body + "\n" + Indent(depth), close);
  }

  lemma {:induction false} ItemsPlain(items: seq<Json>, depth: nat)
    requires forall i | 0 <= i < |items| :: IsPlainJson(items[i])
    ensures IsPlain(PrintItems(items, depth))
    decreases items
  {
    if items != [] {
      PrintPlain(items[0], depth);
      assert IsPlain(Indent(depth)) && IsPlain(",\n");
      ItemsPlain(items[1..], depth);
      hide IsPlain, Print, IsPlainJson;
      PlainConcat(Indent(depth), Print(items[0], depth));
      PlainConcat(",\n", PrintItems(items[1..], depth));
      if |items| > 1 {
        PlainConcat(Indent(depth) + Print(items[0], depth), ",\n" + PrintItems(items[1..], depth));
      } else {
        assert Indent(depth) + Print(items[0], depth) + [] == Indent(depth) + Print(items[0], depth);
      }
    }
  }

  lemma {:induction false} MembersPlain(members: seq<Member>, depth: nat)
    requires forall i | 0 <= i < |members| :: IsPlainMember(members[i])
    ensures IsPlain(PrintMembers(members, depth))
    decreases members
  {
    if members != [] {
      MemberPlain(members[0], depth);
      assert IsPlain(",\n");
      MembersPlain(members[1..], depth);
      hide IsPlain, PrintMember, IsPlainMember;
      PlainConcat(",\n", PrintMembers(members[1..], depth));
      if |members| > 1 {
        PlainConcat(PrintMember(members[0], depth), ",\n" + PrintMembers(members[1..], depth));
      } else {
        assert PrintMember(members[0], depth) + [] == PrintMember(members[0], depth);
      }
    }
  }

  lemma {:induction false} MemberPlain(m: Member, depth: nat)
    requires IsPlainMember(m)
    ensures IsPlain(PrintMember(m, depth))
    decreases m
  {
    QuotePlain(m.key);
    PrintPlain(m.value, depth);
    assert IsPlain(Indent(depth)) && IsPlain(": ");
    hide IsPlain, Print, Quote;
    PlainConcat(Indent(depth), Quote(m.key));
    PlainConcat(Indent(depth) + Quote(m.key), ": ");
    PlainConcat(Indent(depth) + Quote(m.key) + ": ", Print(m.value, depth));
  }
}
