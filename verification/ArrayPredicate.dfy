/**
 Membership in an array column. The master holds a real array and asks `value = ANY(column)`; the
 cache holds text and asks whether `,value,` occurs in it once outer braces are trimmed and a comma is
 put at both ends. Which text depends on what wrote the row last: a full copy stores PostgreSQL's array
 literal, a replayed event the array marshalled as JSON. What the cache answers is settled for every
 array and every value in either form, and compared with the master's answer.
 */
module ArrayPredicate {
  import opened JsonText


  // ---- PostgreSQL's text form of an array ------------------------------------------------------

  predicate Special(c: char) {
    c in {'{', '}', ',', '"', '\\', ' ', '\t', '\n', '\r', 11 as char, 12 as char}
  }

  predicate IsNullWord(e: string) {
    && |e| == 4
    && e[0] in {'N', 'n'} && e[1] in {'U', 'u'} && e[2] in {'L', 'l'} && e[3] in {'L', 'l'}
  }

  predicate NeedsQuotes(e: string) {
    e == "" || IsNullWord(e) || exists i :: 0 <= i < |e| && Special(e[i])
  }

  function Escape(e: string): (r: string)
    ensures ',' !in e ==> ',' !in r
  {
    if e == "" then ""
    else (if e[0] in {'"', '\\'} then ['\\', e[0]] else [e[0]]) + Escape(e[1..])
  }

  function Render(e: string): string {
    if NeedsQuotes(e) then "\"" + Escape(e) + "\"" else e
  }

  function RenderAll(elems: seq<string>): (r: seq<string>)
    ensures |r| == |elems| && forall i :: 0 <= i < |r| ==> r[i] == Render(elems[i])
  {
    if elems == [] then [] else [Render(elems[0])] + RenderAll(elems[1..])
  }

  function Join(parts: seq<string>): string {
    if parts == [] then "" else if |parts| == 1 then parts[0] else parts[0] + "," + Join(parts[1..])
  }

  function ArrayLiteral(elems: seq<string>): string {
    "{" + Join(RenderAll(elems)) + "}"
  }

  // ---- The two predicates ----------------------------------------------------------------------

  predicate Brace(c: char) { c == '{' || c == '}' }

  /** SQLite's trim(s, '{}'). */
  function TrimBraces(s: string): string {
    if s != "" && Brace(s[0]) then TrimBraces(s[1..])
    else if s != "" && Brace(s[|s| - 1]) then TrimBraces(s[..|s| - 1])
    else s
  }

  predicate OccursAt(hay: string, needle: string, k: int) {
    0 <= k && k + |needle| <= |hay| && hay[k..k + |needle|] == needle
  }

  /** SQLite's instr(hay, needle) > 0. */
  predicate Occurs(hay: string, needle: string) {
    exists k :: 0 <= k <= |hay| && OccursAt(hay, needle, k)
  }

  /** What wrote the row last: a full copy or a replayed event. */
  datatype Form = Copied | Replayed

  function MarshalledList(elems: seq<string>): string {
    Spell(Arr(Strings(elems)), Marshalled)
  }

  function StoredText(elems: seq<string>, form: Form): string {
    match form
    case Copied => ArrayLiteral(elems)
    case Replayed => MarshalledList(elems)
  }

  datatype Dialect = Postgres | Sqlite(form: Form)

  predicate ArrayContains(dialect: Dialect, elems: seq<string>, value: string) {
    match dialect
    case Postgres => value in elems
    case Sqlite(form) => Occurs("," + TrimBraces(StoredText(elems, form)) + ",", "," + value + ",")
  }

  // ---- Occurrences in a comma-separated list ---------------------------------------------------

  /** Free of commas: what stands between two of them. */
  predicate Part(p: string) { ',' !in p }

  predicate Parts(parts: seq<string>) {
    forall i :: 0 <= i < |parts| ==> Part(parts[i])
  }

  /** `v` is a run of consecutive elements, commas included. */
  ghost predicate IsRun(parts: seq<string>, v: string) {
    exists i, j :: 0 <= i < j <= |parts| && v == Join(parts[i..j])
  }

  function Wrap(parts: seq<string>): (r: string)
    ensures r != "" && r[0] == ','
  {
    if parts == [] then "," else "," + parts[0] + Wrap(parts[1..])
  }

  lemma {:induction false} WrapIsJoin(parts: seq<string>)
    requires parts != []
    ensures Wrap(parts) == "," + Join(parts) + ","
  {
    if |parts| == 1 {
      assert parts[1..] == [];
    } else {
      WrapIsJoin(parts[1..]);
      var p, rest := parts[0], Join(parts[1..]);
      assert "," + p + ("," + rest + ",") == "," + (p + "," + rest) + ",";
    }
  }

  lemma SliceShift(parts: seq<string>, i: nat, j: nat)
    requires i <= j < |parts|
    ensures parts[1..][i..j] == parts[i + 1..j + 1]
  {}

  /** Text between two commas, read against a list that starts with `p`, is `p` or starts with `p,`. */
  lemma FirstElement(p: string, rest: string, v: string)
    requires Part(p) && rest != "" && rest[0] == ','
    requires OccursAt("," + p + rest, "," + v + ",", 0)
    ensures |v| >= |p| && (|v| == |p| ==> v == p)
    ensures |v| > |p| ==> var u := v[|p| + 1..]; v == p + "," + u && OccursAt(rest, "," + u + ",", 0)
  {
    var w, needle := "," + p + rest, "," + v + ",";
    assert w[..|needle|] == needle;
    assert forall i :: 0 <= i < |p| ==> w[i + 1] == p[i] != ',';
    assert w[|v| + 1] == needle[|v| + 1] == ',';
    assert forall i :: 0 <= i < |p| ==> v[i] == needle[i + 1] == w[i + 1] == p[i];
    if |v| > |p| {
      assert v[|p|] == needle[|p| + 1] == w[|p| + 1] == rest[0] == ',';
      var u := v[|p| + 1..];
      assert forall i :: 0 <= i < |u| + 2 ==> ("," + u + ",")[i] == needle[i + |p| + 1] == w[i + |p| + 1] == rest[i];
    }
  }

  /** What follows a comma and is itself followed by one starts with whole elements. */
  lemma {:induction false} PrefixIsRun(parts: seq<string>, v: string) returns (j: nat)
    requires Parts(parts) && OccursAt(Wrap(parts), "," + v + ",", 0)
    ensures 0 < j <= |parts| && v == Join(parts[..j])
  {
    var p, rest := parts[0], Wrap(parts[1..]);
    FirstElement(p, rest, v);
    if |v| == |p| {
      j := 1;
    } else {
      var i := PrefixIsRun(parts[1..], v[|p| + 1..]);
      j := i + 1;
      assert parts[..j][1..] == parts[1..][..i];
    }
  }

  lemma {:induction false} OccurrenceIsRun(parts: seq<string>, v: string, k: nat)
    requires Parts(parts) && OccursAt(Wrap(parts), "," + v + ",", k)
    ensures IsRun(parts, v)
  {
    var w, needle := Wrap(parts), "," + v + ",";
    if k == 0 {
      var j := PrefixIsRun(parts, v);
      assert parts[0..j] == parts[..j];
    } else {
      var p, rest := parts[0], Wrap(parts[1..]);
      assert w == "," + p + rest;
      assert w[k] == needle[0] == ',';
      assert forall i :: 0 <= i < |p| ==> w[i + 1] == p[i] != ',';
      assert k > |p|;
      var k1 := k - |p| - 1;
      assert rest[k1..k1 + |needle|] == w[k..k + |needle|];
      OccurrenceIsRun(parts[1..], v, k1);
      var i, j :| 0 <= i < j <= |parts[1..]| && v == Join(parts[1..][i..j]);
      SliceShift(parts, i, j);
    }
  }

  lemma {:induction false} RunIsPrefix(parts: seq<string>, j: nat)
    requires 0 < j <= |parts|
    ensures OccursAt(Wrap(parts), "," + Join(parts[..j]) + ",", 0)
  {
    if j == 1 {
      assert Wrap(parts)[..|parts[0]| + 2] == "," + parts[0] + ",";
    } else {
      RunIsPrefix(parts[1..], j - 1);
      assert parts[..j][1..] == parts[1..][..j - 1];
      var u := Join(parts[1..][..j - 1]);
      var needle := "," + u + ",";
      assert Wrap(parts[1..]) == needle + Wrap(parts[1..])[|needle|..];
      assert Wrap(parts) == "," + parts[0] + needle + Wrap(parts[1..])[|needle|..];
      assert "," + Join(parts[..j]) + "," == "," + parts[0] + needle;
    }
  }

  lemma {:induction false} RunOccurs(parts: seq<string>, i: nat, j: nat)
    requires i < j <= |parts|
    ensures Occurs(Wrap(parts), "," + Join(parts[i..j]) + ",")
  {
    var needle := "," + Join(parts[i..j]) + ",";
    if i == 0 {
      assert parts[0..j] == parts[..j];
      RunIsPrefix(parts, j);
      assert OccursAt(Wrap(parts), needle, 0);
    } else {
      RunOccurs(parts[1..], i - 1, j - 1);
      assert parts[1..][i - 1..j - 1] == parts[i..j];
      var rest := Wrap(parts[1..]);
      var k :| 0 <= k <= |rest| && OccursAt(rest, needle, k);
      var k1 := k + 1 + |parts[0]|;
      assert Wrap(parts)[k1..k1 + |needle|] == rest[k..k + |needle|];
      assert OccursAt(Wrap(parts), needle, k1);
    }
  }

  /** The text cut at its commas. */
  function Split(s: string): (r: seq<string>)
    ensures r != [] && Parts(r)
  {
    if s == "" then [""]
    else
      var rest := Split(s[1..]);
      if s[0] == ',' then [""] + rest else [[s[0]] + rest[0]] + rest[1..]
  }

  lemma {:induction false} JoinSplit(s: string)
    ensures Join(Split(s)) == s
  {
    if s != "" {
      JoinSplit(s[1..]);
      var rest := Split(s[1..]);
      assert s == [s[0]] + s[1..];
      if s[0] == ',' {
        assert ([""] + rest)[1..] == rest;
      } else {
        assert ([[s[0]] + rest[0]] + rest[1..])[1..] == rest[1..];
      }
    }
  }

  /** A list is cut into the pieces of its first part, then the pieces of the others. */
  lemma {:induction false} SplitFirst(p: string, rest: string)
    ensures Split(p + "," + rest) == Split(p) + Split(rest)
  {
    var s := p + "," + rest;
    if p == "" {
      assert s[1..] == rest;
    } else {
      assert s[1..] == p[1..] + "," + rest;
      SplitFirst(p[1..], rest);
    }
  }

  lemma {:induction false} PartIsOnePiece(p: string)
    requires Part(p)
    ensures Split(p) == [p]
  {
    if p != "" {
      assert p == [p[0]] + p[1..];
      PartIsOnePiece(p[1..]);
    }
  }

  // ---- Trimming gives back the joined elements -------------------------------------------------

  lemma {:induction false} JoinEnds(parts: seq<string>)
    requires (forall i :: 0 <= i < |parts| ==> parts[i] != "") && parts != []
    ensures Join(parts) != ""
    ensures Join(parts)[0] == parts[0][0]
    ensures var p := parts[|parts| - 1]; Join(parts)[|Join(parts)| - 1] == p[|p| - 1]
  {
    if |parts| > 1 {
      JoinEnds(parts[1..]);
    }
  }

  lemma RenderedEnds(e: string)
    ensures Render(e) != "" && !Brace(Render(e)[0]) && !Brace(Render(e)[|Render(e)| - 1])
  {
    if !NeedsQuotes(e) {
      assert !Special(e[0]) && !Special(e[|e| - 1]);
    }
  }

  lemma TrimmedBody(body: string)
    requires body != "" ==> !Brace(body[0]) && !Brace(body[|body| - 1])
    ensures TrimBraces("{" + body + "}") == body
  {
    assert ("{" + body + "}")[1..] == body + "}";
    assert (body + "}")[..|body|] == body;
    if body == "" {
      assert TrimBraces("}") == TrimBraces("}"[1..]) == TrimBraces("");
    } else {
      assert TrimBraces(body + "}") == TrimBraces(body);
    }
  }

  lemma TrimmedLiteral(elems: seq<string>)
    ensures TrimBraces(ArrayLiteral(elems)) == Join(RenderAll(elems))
  {
    var parts := RenderAll(elems);
    forall i | 0 <= i < |parts|
      ensures parts[i] != "" && !Brace(parts[i][0]) && !Brace(parts[i][|parts[i]| - 1])
    {
      RenderedEnds(elems[i]);
    }
    if elems != [] {
      JoinEnds(parts);
    }
    TrimmedBody(Join(parts));
  }

  /** A marshalled list has brackets at its ends, and trimming braces leaves it as it is. */
  lemma TrimmedList(elems: seq<string>)
    ensures TrimBraces(MarshalledList(elems)) == MarshalledList(elems)
  {
    var s := MarshalledList(elems);
    assert s[0] == '[' && s[|s| - 1] == ']';
  }

  // ---- What the cache answers ------------------------------------------------------------------

  function Body(elems: seq<string>, form: Form): string {
    match form
    case Copied => Join(RenderAll(elems))
    case Replayed => MarshalledList(elems)
  }

  /** The pieces the commas of the stored text cut it into. */
  function Pieces(elems: seq<string>, form: Form): seq<string> {
    Split(Body(elems, form))
  }

  /** For every array in either form and every value: the cache says yes exactly to runs of consecutive pieces. */
  lemma CacheMatchesRuns(elems: seq<string>, form: Form, value: string)
    ensures ArrayContains(Sqlite(form), elems, value) <==> IsRun(Pieces(elems, form), value)
  {
    TrimmedLiteral(elems);
    TrimmedList(elems);
    var body, parts := Body(elems, form), Pieces(elems, form);
    JoinSplit(body);
    WrapIsJoin(parts);
    var hay, needle := "," + body + ",", "," + value + ",";
    assert Wrap(parts) == hay;
    if Occurs(hay, needle) {
      var k :| 0 <= k <= |hay| && OccursAt(hay, needle, k);
      OccurrenceIsRun(parts, value, k);
    }
    if IsRun(parts, value) {
      var i, j :| 0 <= i < j <= |parts| && value == Join(parts[i..j]);
      RunOccurs(parts, i, j);
    }
  }

  lemma LongRunHasComma(parts: seq<string>)
    ensures |parts| > 1 ==> ',' in Join(parts)
  {
    if |parts| > 1 {
      assert Join(parts)[|parts[0]|] == ',';
    }
  }

  lemma RunIsElement(parts: seq<string>, v: string)
    requires ',' !in v && IsRun(parts, v)
    ensures v in parts
  {
    var i, j :| 0 <= i < j <= |parts| && v == Join(parts[i..j]);
    var run := parts[i..j];
    LongRunHasComma(run);
    assert v == run[0] == parts[i];
  }

  lemma ElementIsRun(parts: seq<string>, i: nat)
    requires i < |parts|
    ensures IsRun(parts, parts[i])
  {
    assert parts[i..i + 1] == [parts[i]];
    assert Join(parts[i..i + 1]) == parts[i];
  }

  /** A comma-free run is one element. */
  lemma SingleRun(parts: seq<string>, v: string)
    requires ',' !in v
    ensures IsRun(parts, v) <==> v in parts
  {
    if IsRun(parts, v) {
      RunIsElement(parts, v);
    } else if v in parts {
      var i :| 0 <= i < |parts| && parts[i] == v;
      ElementIsRun(parts, i);
    }
  }

  lemma QuotedHasQuote(e: string)
    ensures NeedsQuotes(e) ==> '"' in Render(e)
  {
    if NeedsQuotes(e) {
      assert Render(e)[0] == '"';
    }
  }

  lemma PlainText(v: string)
    requires !NeedsQuotes(v)
    ensures ',' !in v && '"' !in v
  {
    forall i | 0 <= i < |v| ensures v[i] != ',' && v[i] != '"' {
      assert !Special(v[i]);
    }
  }

  lemma QuotedIsNotPlain(e: string, v: string)
    requires !NeedsQuotes(v)
    ensures Render(e) == v <==> e == v
  {
    QuotedHasQuote(e);
    PlainText(v);
  }

  /** An element that holds a comma has the value as one of the pieces the commas cut it into. */
  predicate Buried(e: string, v: string) {
    ',' in e && v in Split(Render(e))
  }

  lemma {:induction false} EscapeKeepsCommas(e: string)
    ensures ',' in Escape(e) <==> ',' in e
  {
    if e != "" {
      EscapeKeepsCommas(e[1..]);
      assert e == [e[0]] + e[1..];
    }
  }

  /** An element has a plain value among its pieces iff it is that value or buries it. */
  lemma PieceOfElement(e: string, v: string)
    requires !NeedsQuotes(v)
    ensures v in Split(Render(e)) <==> e == v || Buried(e, v)
  {
    PlainText(v);
    EscapeKeepsCommas(e);
    if ',' !in e {
      PartIsOnePiece(Render(e));
      QuotedIsNotPlain(e, v);
    }
  }

  /** A list has a piece iff one of its parts has it. */
  lemma {:induction false} PieceOfList(parts: seq<string>, v: string)
    requires parts != []
    ensures v in Split(Join(parts)) <==> exists i :: 0 <= i < |parts| && v in Split(parts[i])
  {
    if |parts| > 1 {
      var rest := parts[1..];
      PieceOfList(rest, v);
      SplitFirst(parts[0], Join(rest));
      if v in Split(Join(rest)) {
        var i :| 0 <= i < |rest| && v in Split(rest[i]);
        assert v in Split(parts[i + 1]);
      }
    }
  }

  lemma PieceOfArray(elems: seq<string>, v: string)
    requires !NeedsQuotes(v) && elems != []
    ensures v in Pieces(elems, Copied) <==> exists i :: 0 <= i < |elems| && (elems[i] == v || Buried(elems[i], v))
  {
    PieceOfList(RenderAll(elems), v);
    forall i | 0 <= i < |elems|
      ensures v in Split(RenderAll(elems)[i]) <==> elems[i] == v || Buried(elems[i], v)
    {
      PieceOfElement(elems[i], v);
    }
  }

  /**
   For every copied array and every value PostgreSQL renders unquoted: the cache finds the value when it is an
   element, and besides only when an element holding commas has it between two of them.
   */
  lemma CopiedRowFindsPlainValues(elems: seq<string>, value: string)
    requires !NeedsQuotes(value)
    ensures ArrayContains(Sqlite(Copied), elems, value) <==>
              ArrayContains(Postgres, elems, value) || exists i :: 0 <= i < |elems| && Buried(elems[i], value)
  {
    PlainText(value);
    CacheMatchesRuns(elems, Copied, value);
    SingleRun(Pieces(elems, Copied), value);
    if elems == [] {
      assert Pieces([], Copied) == [""];
    } else {
      PieceOfArray(elems, value);
      if value in elems {
        var i :| 0 <= i < |elems| && elems[i] == value;
      }
    }
  }

  /** A name of small letters, digits and dashes, as namespaces have. */
  predicate IsNamespaceName(e: string) {
    e != "" && forall i :: 0 <= i < |e| ==> 'a' <= e[i] <= 'z' || '0' <= e[i] <= '9' || e[i] == '-'
  }

  /** A namespace is rendered as it is named, but for one. */
  lemma NamespaceIsPlain(e: string)
    requires IsNamespaceName(e)
    ensures Render(e) == e <==> e != "null"
  {
    assert forall i :: 0 <= i < |e| ==> !Special(e[i]);
    assert IsNullWord(e) <==> e == "null";
    if NeedsQuotes(e) {
      assert |Render(e)| > 0 && Render(e)[0] == '"' && e[0] != '"';
    }
  }

  /** On a copied row of namespaces the replica finds a namespace exactly when the master does. */
  lemma CopiedNamespacesAgree(elems: seq<string>, value: string)
    requires IsNamespaceName(value) && value != "null"
    requires forall i :: 0 <= i < |elems| ==> IsNamespaceName(elems[i])
    ensures ArrayContains(Sqlite(Copied), elems, value) <==> value in elems
  {
    NamespaceIsPlain(value);
    assert forall i :: 0 <= i < |value| ==> !Special(value[i]);
    CopiedRowAgreesWithMaster(elems, value);
  }

  /** Over comma-free elements of a copied row the cache answers for a plain value what the master answers. */
  lemma CopiedRowAgreesWithMaster(elems: seq<string>, value: string)
    requires forall e :: e in elems ==> ',' !in e
    requires !NeedsQuotes(value)
    ensures ArrayContains(Sqlite(Copied), elems, value) == ArrayContains(Postgres, elems, value)
  {
    CopiedRowFindsPlainValues(elems, value);
    assert forall i :: 0 <= i < |elems| ==> elems[i] in elems;
  }

  lemma {:induction false} CommaFreePieces(elems: seq<string>)
    requires elems != [] && forall i :: 0 <= i < |elems| ==> ',' !in elems[i]
    ensures Pieces(elems, Copied) == RenderAll(elems)
  {
    EscapeKeepsCommas(elems[0]);
    PartIsOnePiece(Render(elems[0]));
    if |elems| > 1 {
      CommaFreePieces(elems[1..]);
      var parts := RenderAll(elems);
      SplitFirst(parts[0], Join(parts[1..]));
    }
  }

  /** A value free of commas and quotes is among the rendered elements iff it is an element needing no quotes. */
  lemma RenderedMember(elems: seq<string>, v: string)
    requires '"' !in v
    ensures v in RenderAll(elems) <==> v in elems && !NeedsQuotes(v)
  {
    var parts := RenderAll(elems);
    if v in parts {
      var i :| 0 <= i < |parts| && parts[i] == v;
      QuotedHasQuote(elems[i]);
      assert elems[i] == v;
    }
    if v in elems && !NeedsQuotes(v) {
      var i :| 0 <= i < |elems| && elems[i] == v;
      assert parts[i] == v;
    }
  }

  /** Exactly when the two agree over comma-free elements of a copied row, for any value without a comma or a quote. */
  lemma CopiedRowAgreementIff(elems: seq<string>, value: string)
    requires forall e :: e in elems ==> ',' !in e
    requires ',' !in value && '"' !in value
    ensures ArrayContains(Sqlite(Copied), elems, value) == ArrayContains(Postgres, elems, value)
       <==> !NeedsQuotes(value) || (value !in elems && (value == "" ==> elems != []))
  {
    CacheMatchesRuns(elems, Copied, value);
    SingleRun(Pieces(elems, Copied), value);
    if elems == [] {
      assert Pieces([], Copied) == [""];
    } else {
      CommaFreePieces(elems);
      RenderedMember(elems, value);
    }
  }

  /** A value holding a comma can match across elements, so the cache may say yes where the master says no. */
  lemma CommaValueCrossesElements()
    ensures ArrayContains(Sqlite(Copied), ["a", "b"], "a,b") && !ArrayContains(Postgres, ["a", "b"], "a,b")
  {
    CacheMatchesRuns(["a", "b"], Copied, "a,b");
    CommaFreePieces(["a", "b"]);
    var parts := RenderAll(["a", "b"]);
    assert Render("a") == "a" && Render("b") == "b";
    assert parts == ["a", "b"];
    assert parts[0..2][1..] == ["b"];
    assert "a,b" == Join(parts[0..2]);
  }

  lemma PieceBetween(a: string, b: string, c: string)
    requires Part(b)
    ensures b in Split(a + "," + (b + "," + c))
  {
    SplitFirst(a, b + "," + c);
    SplitFirst(b, c);
    PartIsOnePiece(b);
  }

  lemma EscapeStep(c: char, rest: string)
    requires c !in {'"', '\\'}
    ensures Escape([c] + rest) == [c] + Escape(rest)
  {
    assert ([c] + rest)[1..] == rest;
  }

  /** An element holding commas makes the cache find what stands between two of them. */
  lemma CommaElementBuriesPiece(v: char)
    requires !Special(v)
    ensures ArrayContains(Sqlite(Copied), [[',', v, ',']], [v]) && !ArrayContains(Postgres, [[',', v, ',']], [v])
  {
    var e := [',', v, ','];
    EscapeStep(',', [v, ',']);
    EscapeStep(v, [',']);
    EscapeStep(',', []);
    assert e == [','] + [v, ','] && [v, ','] == [v] + [','] && [','] == [','] + [];
    assert Escape(e) == e;
    assert Special(e[0]);
    assert Render(e) == "\"" + "," + ([v] + "," + "\"");
    PieceBetween("\"", [v], "\"");
    assert Buried([e][0], [v]);
    assert !NeedsQuotes([v]);
    CopiedRowFindsPlainValues([e], [v]);
    assert |e| != |[v]|;
  }

  // ---- Rows written by an event ----------------------------------------------------------------

  function QuoteAll(elems: seq<string>): (r: seq<string>)
    ensures |r| == |elems| && forall i :: 0 <= i < |r| ==> r[i] == Quote(elems[i], Marshalled)
  {
    if elems == [] then [] else [Quote(elems[0], Marshalled)] + QuoteAll(elems[1..])
  }

  lemma {:induction false} ListIsJoin(elems: seq<string>)
    ensures SpellItems(Strings(elems), Marshalled) == Join(QuoteAll(elems))
  {
    if elems != [] {
      ListIsJoin(elems[1..]);
      var first, rest := Quote(elems[0], Marshalled), Join(QuoteAll(elems[1..]));
      assert first + ("," + "" + rest) == first + "," + rest;
    }
  }

  /** Text put before or after a list changes its first or its last piece. */
  lemma {:induction false} SplitEnds(s: string, c: char)
    requires c != ','
    ensures Split([c] + s) == [[c] + Split(s)[0]] + Split(s)[1..]
    ensures |Split(s + [c])| == |Split(s)|
    ensures forall i :: 0 <= i < |Split(s)| - 1 ==> Split(s + [c])[i] == Split(s)[i]
    ensures Split(s + [c])[|Split(s)| - 1] == Split(s)[|Split(s)| - 1] + [c]
  {
    assert ([c] + s)[1..] == s;
    if s == "" {
      assert s + [c] == [c] + "";
      assert ([c] + "")[1..] == "";
    } else {
      SplitEnds(s[1..], c);
      assert (s + [c])[1..] == s[1..] + [c];
      assert s == [s[0]] + s[1..];
    }
  }

  /** A quoted text begins and ends with a quote, and so do its first and its last piece. */
  lemma {:induction false} SplitQuoted(s: string)
    requires s != ""
    ensures s[0] != ',' ==> Split(s)[0] != "" && Split(s)[0][0] == s[0]
    ensures s[|s| - 1] != ',' ==>
              var last := Split(s)[|Split(s)| - 1]; last != "" && last[|last| - 1] == s[|s| - 1]
  {
    if |s| > 1 {
      SplitQuoted(s[1..]);
    } else {
      assert s == [s[0]];
      assert s[1..] == "";
    }
  }

  /** Putting a character before a text that begins with a quote changes no piece that holds no quote. */
  lemma OpeningHidesNothing(s: string, c: char, v: string)
    requires s != "" && s[0] == '"' && c != ',' && '"' !in v
    ensures v in Split([c] + s) <==> v in Split(s)
  {
    SplitQuoted(s);
    SplitEnds(s, c);
    var first := Split(s)[0];
    assert Split(s) == [first] + Split(s)[1..];
    assert first[0] == '"' && ([c] + first)[1] == '"';
  }

  lemma ClosingHidesNothing(s: string, c: char, v: string)
    requires s != "" && s[|s| - 1] == '"' && c != ',' && '"' !in v
    ensures v in Split(s + [c]) <==> v in Split(s)
  {
    SplitQuoted(s);
    SplitEnds(s, c);
    var a, b := Split(s), Split(s + [c]);
    var last := a[|a| - 1];
    assert last[|last| - 1] == '"';
    LastPieceChanged(a, b, c, v);
  }

  lemma LastPieceChanged(a: seq<string>, b: seq<string>, c: char, v: string)
    requires |a| == |b| > 0 && forall i :: 0 <= i < |a| - 1 ==> b[i] == a[i]
    requires b[|a| - 1] == a[|a| - 1] + [c] && '"' in a[|a| - 1] && '"' !in v
    ensures v in b <==> v in a
  {
    var n := |a| - 1;
    assert a[n] != v && '"' in b[n];
    if v in a {
      var i :| 0 <= i < |a| && a[i] == v;
      assert b[i] == v;
    }
    if v in b {
      var i :| 0 <= i < |b| && b[i] == v;
      assert a[i] == v;
    }
  }

  /** Brackets around a quoted list hide no piece that holds no quote, and add none. */
  lemma BracketsHideNothing(s: string, v: string)
    requires s != "" && s[0] == s[|s| - 1] == '"' && '"' !in v
    ensures v in Split("[" + s + "]") <==> v in Split(s)
  {
    OpeningHidesNothing(s, '[', v);
    ClosingHidesNothing(['['] + s, ']', v);
    assert ['['] + s + [']'] == "[" + s + "]";
  }

  /** An element that holds a comma has the value as one of the pieces of its marshalled text. */
  predicate BuriedInJson(e: string, v: string) {
    ',' in e && v in Split(Quote(e, Marshalled))
  }

  lemma PieceOfQuoted(e: string, v: string)
    requires '"' !in v
    ensures v in Split(Quote(e, Marshalled)) <==> BuriedInJson(e, v)
  {
    var q := Quote(e, Marshalled);
    EscapedCommas(e, Marshalled);
    if ',' !in e {
      PartIsOnePiece(q);
      assert q[0] == '"';
    }
  }

  lemma PieceOfQuotedList(elems: seq<string>, v: string)
    requires '"' !in v && elems != []
    ensures v in Split(Join(QuoteAll(elems))) <==> exists i :: 0 <= i < |elems| && BuriedInJson(elems[i], v)
  {
    PieceOfList(QuoteAll(elems), v);
    forall i | 0 <= i < |elems| ensures v in Split(QuoteAll(elems)[i]) <==> BuriedInJson(elems[i], v) {
      PieceOfQuoted(elems[i], v);
    }
  }

  /**
   For every array of a row an event wrote, and every value without comma or quote: the cache finds it only
   where an element holding commas has it between two of them, or as the empty list itself, never as an
   element.
   */
  lemma ReplayedRowFinds(elems: seq<string>, value: string)
    requires ',' !in value && '"' !in value
    ensures ArrayContains(Sqlite(Replayed), elems, value) <==>
              (elems == [] && value == "[]") || exists i :: 0 <= i < |elems| && BuriedInJson(elems[i], value)
  {
    CacheMatchesRuns(elems, Replayed, value);
    SingleRun(Pieces(elems, Replayed), value);
    ListIsJoin(elems);
    if elems == [] {
      PartIsOnePiece("[]");
    } else {
      JoinEnds(QuoteAll(elems));
      BracketsHideNothing(Join(QuoteAll(elems)), value);
      PieceOfQuotedList(elems, value);
    }
  }

  /** Exactly when the two agree over comma-free elements of such a row: when the value is no element. */
  lemma ReplayedRowAgreementIff(elems: seq<string>, value: string)
    requires forall e :: e in elems ==> ',' !in e
    requires ',' !in value && '"' !in value
    ensures ArrayContains(Sqlite(Replayed), elems, value) == ArrayContains(Postgres, elems, value)
       <==> value !in elems && (value == "[]" ==> elems != [])
  {
    ReplayedRowFinds(elems, value);
    assert forall i :: 0 <= i < |elems| ==> elems[i] in elems;
  }

  /**
   What is left of the promise that the cache answers what the master answers, over comma-free elements and
   for a value rendered unquoted: it does for a row the last full copy wrote, and for a row an event wrote
   since exactly when the value is no element.
   */
  lemma CacheAgreesWithMaster(elems: seq<string>, form: Form, value: string)
    requires forall e :: e in elems ==> ',' !in e
    requires !NeedsQuotes(value) && value != "[]"
    ensures ArrayContains(Sqlite(form), elems, value) == ArrayContains(Postgres, elems, value)
       <==> form == Copied || value !in elems
  {
    PlainText(value);
    if form == Copied {
      CopiedRowAgreesWithMaster(elems, value);
    } else {
      ReplayedRowAgreementIff(elems, value);
    }
  }

  /** The input: the domain of a template that was changed since the last full copy. */
  lemma ReplayedRowLosesElements(a: string, b: string)
    requires ',' !in a && '"' !in a && ',' !in b && '"' !in b
    ensures forall v :: v in [a, b] ==>
              ArrayContains(Postgres, [a, b], v) && !ArrayContains(Sqlite(Replayed), [a, b], v)
  {
    ReplayedRowAgreementIff([a, b], a);
    ReplayedRowAgreementIff([a, b], b);
    assert a in [a, b] && b in [a, b];
  }
}
