/**
 JSON values and their two spellings: the text PostgreSQL gives for a jsonb column, with a blank after each
 comma and colon, and the text Go marshals, without blanks but with a few more characters escaped. Members
 are spelled in one order here; the two really differ in it too, which matters only where blanks do.
 */
module JsonText {
  import SqlText

  datatype Json =
    | JNull
    | Bool(b: bool)
    | Number(n: nat)
    | Str(s: string)
    | Arr(items: Items)
    | Obj(members: Members)

  datatype Items = NoItem | Item(head: Json, tail: Items)

  datatype Members = NoMember | Member(key: string, value: Json, rest: Members)

  datatype Style = Jsonb | Marshalled

  // ---- Strings ---------------------------------------------------------------------------------

  /** The characters json.Marshal escapes and PostgreSQL does not. */
  predicate Marked(c: char) {
    c in {'<', '>', '&', '\U{2028}', '\U{2029}'}
  }

  predicate AnyMarked(s: string) {
    exists i :: 0 <= i < |s| && Marked(s[i])
  }

  function HexDigit(d: nat): (c: char)
    requires d < 16
    ensures !Marked(c) && c != ','
  {
    "0123456789abcdef"[d]
  }

  function UnicodeEscape(c: char): (r: string)
    ensures |r| == 6 && !AnyMarked(r) && ',' !in r
  {
    var n := c as int % 0x1_0000;
    ['\\', 'u', HexDigit(n / 4096), HexDigit(n / 256 % 16), HexDigit(n / 16 % 16), HexDigit(n % 16)]
  }

  lemma SingleMark(c: char)
    ensures AnyMarked([c]) <==> Marked(c)
  {
    if Marked(c) {
      assert Marked([c][0]);
    }
  }

  function EscapeChar(c: char, style: Style): (r: string)
    ensures r != "" && (',' in r <==> c == ',')
    ensures AnyMarked(r) <==> style.Jsonb? && Marked(c)
  {
    if c in {'"', '\\'} then ['\\', c]
    else if c == '\n' then "\\n"
    else if c == '\r' then "\\r"
    else if c == '\t' then "\\t"
    else if c == 8 as char then "\\b"
    else if c == 12 as char then "\\f"
    else if c < ' ' || (style.Marshalled? && Marked(c)) then UnicodeEscape(c)
    else
      SingleMark(c);
      [c]
  }

  function EscapeText(s: string, style: Style): string {
    if s == "" then "" else EscapeChar(s[0], style) + EscapeText(s[1..], style)
  }

  function Quote(s: string, style: Style): (r: string)
    ensures |r| >= 2 && r[0] == r[|r| - 1] == '"'
  {
    "\"" + EscapeText(s, style) + "\""
  }

  lemma AnyMarkedConcat(a: string, b: string)
    ensures AnyMarked(a + b) <==> AnyMarked(a) || AnyMarked(b)
  {
    if AnyMarked(a) {
      var i :| 0 <= i < |a| && Marked(a[i]);
      assert Marked((a + b)[i]);
    }
    if AnyMarked(b) {
      var i :| 0 <= i < |b| && Marked(b[i]);
      assert Marked((a + b)[|a| + i]);
    }
  }

  lemma {:induction false} EscapedMarks(s: string, style: Style)
    ensures AnyMarked(EscapeText(s, style)) <==> style == Jsonb && AnyMarked(s)
    ensures !AnyMarked(s) ==> EscapeText(s, style) == EscapeText(s, Jsonb)
  {
    if s != "" {
      assert s == [s[0]] + s[1..];
      AnyMarkedConcat([s[0]], s[1..]);
      EscapedMarks(s[1..], style);
      AnyMarkedConcat(EscapeChar(s[0], style), EscapeText(s[1..], style));
      SingleMark(s[0]);
    }
  }

  lemma QuotedMarks(s: string, style: Style)
    ensures AnyMarked(Quote(s, style)) <==> style == Jsonb && AnyMarked(s)
    ensures !AnyMarked(s) ==> Quote(s, style) == Quote(s, Jsonb)
  {
    EscapedMarks(s, style);
    AnyMarkedConcat("\"", EscapeText(s, style));
    AnyMarkedConcat("\"" + EscapeText(s, style), "\"");
  }

  lemma {:induction false} EscapedCommas(s: string, style: Style)
    ensures ',' in EscapeText(s, style) <==> ',' in s
  {
    if s != "" {
      assert s == [s[0]] + s[1..];
      EscapedCommas(s[1..], style);
    }
  }

  // ---- Values ----------------------------------------------------------------------------------

  function Gap(style: Style): string {
    if style == Jsonb then " " else ""
  }

  function Spell(j: Json, style: Style): string {
    match j
    case JNull => "null"
    case Bool(b) => if b then "true" else "false"
    case Number(n) => SqlText.Itoa(n)
    case Str(s) => Quote(s, style)
    case Arr(items) => "[" + SpellItems(items, style) + "]"
    case Obj(members) => "{" + SpellMembers(members, style) + "}"
  }

  function SpellItems(items: Items, style: Style): string {
    match items
    case NoItem => ""
    case Item(head, tail) =>
      Spell(head, style) + if tail.NoItem? then "" else "," + Gap(style) + SpellItems(tail, style)
  }

  function SpellMembers(members: Members, style: Style): string {
    match members
    case NoMember => ""
    case Member(key, value, rest) =>
      Quote(key, style) + ":" + Gap(style) + Spell(value, style)
      + if rest.NoMember? then "" else "," + Gap(style) + SpellMembers(rest, style)
  }

  /** The places where PostgreSQL puts a blank. */
  function Gaps(j: Json): nat {
    match j
    case Arr(items) => ItemGaps(items)
    case Obj(members) => MemberGaps(members)
    case _ => 0
  }

  function ItemGaps(items: Items): nat {
    match items
    case NoItem => 0
    case Item(head, tail) => Gaps(head) + (if tail.NoItem? then 0 else 1) + ItemGaps(tail)
  }

  function MemberGaps(members: Members): nat {
    match members
    case NoMember => 0
    case Member(_, value, rest) => 1 + Gaps(value) + (if rest.NoMember? then 0 else 1) + MemberGaps(rest)
  }

  /** Some string of the value, key or not, holds a character that only json.Marshal escapes. */
  predicate HasMarked(j: Json) {
    match j
    case Str(s) => AnyMarked(s)
    case Arr(items) => ItemsMarked(items)
    case Obj(members) => MembersMarked(members)
    case _ => false
  }

  predicate ItemsMarked(items: Items) {
    match items
    case NoItem => false
    case Item(head, tail) => HasMarked(head) || ItemsMarked(tail)
  }

  predicate MembersMarked(members: Members) {
    match members
    case NoMember => false
    case Member(key, value, rest) => AnyMarked(key) || HasMarked(value) || MembersMarked(rest)
  }

  // ---- The two spellings compared --------------------------------------------------------------

  lemma NumberUnmarked(n: nat)
    ensures !AnyMarked(SqlText.Itoa(n))
  {}

  /** Marked characters stand in the text of jsonb exactly where the value has them, and never in the marshalled one. */
  lemma {:induction false} SpelledMarks(j: Json, style: Style)
    ensures AnyMarked(Spell(j, style)) <==> style == Jsonb && HasMarked(j)
  {
    match j
    case JNull =>
    case Bool(_) =>
    case Number(n) => NumberUnmarked(n);
    case Str(s) => QuotedMarks(s, style);
    case Arr(items) =>
      ItemsSpelledMarks(items, style);
      Enclosed("[", SpellItems(items, style), "]");
    case Obj(members) =>
      MembersSpelledMarks(members, style);
      Enclosed("{", SpellMembers(members, style), "}");
  }

  lemma Enclosed(a: string, s: string, b: string)
    requires !AnyMarked(a) && !AnyMarked(b)
    ensures AnyMarked(a + s + b) <==> AnyMarked(s)
  {
    AnyMarkedConcat(a, s);
    AnyMarkedConcat(a + s, b);
  }

  lemma {:induction false} ItemsSpelledMarks(items: Items, style: Style)
    ensures AnyMarked(SpellItems(items, style)) <==> style == Jsonb && ItemsMarked(items)
  {
    if items.Item? {
      SpelledMarks(items.head, style);
      ItemsSpelledMarks(items.tail, style);
      Enclosed("," + Gap(style), SpellItems(items.tail, style), "");
      var more := if items.tail.NoItem? then "" else "," + Gap(style) + SpellItems(items.tail, style);
      assert "," + Gap(style) + SpellItems(items.tail, style) + "" == "," + Gap(style) + SpellItems(items.tail, style);
      AnyMarkedConcat(Spell(items.head, style), more);
    }
  }

  lemma {:induction false} MembersSpelledMarks(members: Members, style: Style)
    ensures AnyMarked(SpellMembers(members, style)) <==> style == Jsonb && MembersMarked(members)
  {
    if members.Member? {
      var key, value, rest := Quote(members.key, style), Spell(members.value, style), SpellMembers(members.rest, style);
      QuotedMarks(members.key, style);
      SpelledMarks(members.value, style);
      MembersSpelledMarks(members.rest, style);
      AnyMarkedConcat(key, ":");
      AnyMarkedConcat(key + ":", Gap(style));
      AnyMarkedConcat(key + ":" + Gap(style), value);
      AnyMarkedConcat("," + Gap(style), rest);
      var more := if members.rest.NoMember? then "" else "," + Gap(style) + rest;
      AnyMarkedConcat(key + ":" + Gap(style) + value, more);
    }
  }

  /** Without marked characters the texts differ in the blanks alone. */
  lemma {:induction false} SpelledLengths(j: Json)
    requires !HasMarked(j)
    ensures |Spell(j, Jsonb)| == |Spell(j, Marshalled)| + Gaps(j)
    ensures Gaps(j) == 0 ==> Spell(j, Jsonb) == Spell(j, Marshalled)
  {
    match j
    case Str(s) => QuotedMarks(s, Marshalled);
    case Arr(items) => ItemsSpelledLengths(items);
    case Obj(members) => MembersSpelledLengths(members);
    case _ =>
  }

  lemma {:induction false} ItemsSpelledLengths(items: Items)
    requires !ItemsMarked(items)
    ensures |SpellItems(items, Jsonb)| == |SpellItems(items, Marshalled)| + ItemGaps(items)
    ensures ItemGaps(items) == 0 ==> SpellItems(items, Jsonb) == SpellItems(items, Marshalled)
  {
    if items.Item? {
      SpelledLengths(items.head);
      ItemsSpelledLengths(items.tail);
    }
  }

  lemma {:induction false} MembersSpelledLengths(members: Members)
    requires !MembersMarked(members)
    ensures |SpellMembers(members, Jsonb)| == |SpellMembers(members, Marshalled)| + MemberGaps(members)
    ensures MemberGaps(members) == 0 ==> SpellMembers(members, Jsonb) == SpellMembers(members, Marshalled)
  {
    if members.Member? {
      QuotedMarks(members.key, Marshalled);
      SpelledLengths(members.value);
      MembersSpelledLengths(members.rest);
    }
  }

  /**
   The two spellings coincide exactly for values without object members, without arrays of two or more
   items, and without characters that only json.Marshal escapes.
   */
  lemma SpellingsAgreeIff(j: Json)
    ensures Spell(j, Jsonb) == Spell(j, Marshalled) <==> Gaps(j) == 0 && !HasMarked(j)
  {
    SpelledMarks(j, Jsonb);
    SpelledMarks(j, Marshalled);
    if !HasMarked(j) {
      SpelledLengths(j);
    }
  }

  function Strings(elems: seq<string>): Items {
    if elems == [] then NoItem else Item(Str(elems[0]), Strings(elems[1..]))
  }
}
