/**
 Rows of the master and how their values are spelled as cells of the replica. A full copy stores what the
 database driver hands over, PostgreSQL's own text for arrays and JSON; an event handler stores what it
 decoded from the reported row and, for lists and objects, marshalled again. The replica's statements
 compare cells, so it matters where the two differ.
 */
module RowSpelling {
  import S = SqlText
  import J = JsonText
  import A = ArrayPredicate

  /** A cell of the replica. */
  datatype Value = Null | Data(text: string)

  type Row = map<S.Name, Value>

  /**
   A value of the master: absent, of a type with one spelling such as text, numbers and booleans, a text
   array, a jsonb document, or of another type with a text for each way, such as a timestamp.
   */
  datatype Datum =
    | Absent
    | Scalar(text: string)
    | List(elems: seq<string>)
    | Document(json: J.Json)
    | Other(copied: string, reported: string)

  type Record = map<S.Name, Datum>

  /** The cell a full copy writes. */
  function CopyCell(d: Datum): Value {
    match d
    case Absent => Null
    case Scalar(text) => Data(text)
    case List(elems) => Data(A.StoredText(elems, A.Copied))
    case Document(json) => Data(J.Spell(json, J.Jsonb))
    case Other(copied, _) => Data(copied)
  }

  /** The cell an event writes, and compares with; flattenValue marshals lists and objects only. */
  function EventCell(d: Datum): Value {
    match d
    case Absent => Null
    case Scalar(text) => Data(text)
    case List(elems) => Data(A.StoredText(elems, A.Replayed))
    case Document(json) =>
      (match json
       case JNull => Null
       case Bool(b) => Data(if b then "1" else "0")
       case Number(n) => Data(S.Itoa(n))
       case Str(s) => Data(s)
       case Arr(_) => Data(J.Spell(json, J.Marshalled))
       case Obj(_) => Data(J.Spell(json, J.Marshalled)))
    case Other(_, reported) => Data(reported)
  }

  function CopyRow(r: Record): (row: Row)
    ensures row.Keys == r.Keys
  {
    map c | c in r :: CopyCell(r[c])
  }

  function EventRow(r: Record): (row: Row)
    ensures row.Keys == r.Keys
  {
    map c | c in r :: EventCell(r[c])
  }

  /** The record is spelled alike both ways. */
  predicate Alike(r: Record) {
    CopyRow(r) == EventRow(r)
  }

  /** The value alone decides: no array is spelled alike, a document only without blanks and escapes. */
  predicate OneSpelling(d: Datum) {
    match d
    case Absent => true
    case Scalar(_) => true
    case List(_) => false
    case Document(json) =>
      json.Number? || ((json.Arr? || json.Obj?) && J.Gaps(json) == 0 && !J.HasMarked(json))
    case Other(copied, reported) => copied == reported
  }

  lemma {:induction false} EscapedIsNoShorter(s: string, style: J.Style)
    ensures |J.EscapeText(s, style)| >= |s|
  {
    if s != "" {
      EscapedIsNoShorter(s[1..], style);
    }
  }

  lemma CellsAgreeIff(d: Datum)
    ensures CopyCell(d) == EventCell(d) <==> OneSpelling(d)
  {
    match d
    case List(elems) =>
      assert A.ArrayLiteral(elems)[0] == '{' && A.MarshalledList(elems)[0] == '[';
    case Document(json) =>
      J.SpellingsAgreeIff(json);
      if json.Str? {
        EscapedIsNoShorter(json.s, J.Jsonb);
      }
    case _ =>
  }

  /** An array begins with a brace where it was copied and with a bracket where an event wrote it. */
  lemma ArraysBegin(elems: seq<string>)
    ensures CopyCell(List(elems)).Data? && CopyCell(List(elems)).text[..1] == "{"
    ensures EventCell(List(elems)).Data? && EventCell(List(elems)).text[..1] == "["
  {}

  /** A document with one number: PostgreSQL puts a blank after the colon, an event does not. */
  lemma DocumentsAreSpelled(key: string, n: nat)
    ensures var d := Document(J.Obj(J.Member(key, J.Number(n), J.NoMember)));
            && CopyCell(d) == Data("{" + (J.Quote(key, J.Jsonb) + ":" + " " + S.Itoa(n)) + "}")
            && EventCell(d) == Data("{" + (J.Quote(key, J.Marshalled) + ":" + S.Itoa(n)) + "}")
  {
    OneMember(key, n, J.Jsonb);
    OneMember(key, n, J.Marshalled);
    var text := J.Quote(key, J.Marshalled) + ":";
    assert text + "" == text;
  }

  lemma OneMember(key: string, n: nat, style: J.Style)
    ensures J.SpellMembers(J.Member(key, J.Number(n), J.NoMember), style)
         == J.Quote(key, style) + ":" + J.Gap(style) + S.Itoa(n)
  {
    assert J.Spell(J.Number(n), style) == S.Itoa(n);
    var text := J.Quote(key, style) + ":" + J.Gap(style) + S.Itoa(n);
    assert text + "" == text;
  }

  /** Exactly which records are spelled alike. */
  lemma AlikeIff(r: Record)
    ensures Alike(r) <==> forall c :: c in r ==> OneSpelling(r[c])
  {
    forall c | c in r ensures CopyRow(r)[c] == EventRow(r)[c] <==> OneSpelling(r[c]) {
      CellsAgreeIff(r[c]);
    }
  }

  /** The input: a document with one member, such as every topic classifier begins with. */
  lemma ClassifierIsNotAlike(key: string, text: string, rest: J.Members)
    ensures !OneSpelling(Document(J.Obj(J.Member(key, J.Str(text), rest))))
  {
    assert J.MemberGaps(J.Member(key, J.Str(text), rest)) >= 1;
  }
}
