/**
 The SQL the replicator sends to the cache: text with positional placeholders. A statement is read
 back from its text, so that what a text does is what the statement it spells does.
 */
module SqlText {
  import opened Wrappers

  type Name = string

  datatype Statement =
    | Insert(table: Name, columns: seq<Name>, params: seq<nat>)
    | Update(table: Name, sets: seq<(Name, nat)>, conds: seq<(Name, nat)>)
    | Delete(table: Name, conds: seq<(Name, nat)>)

  // ---- Printing --------------------------------------------------------------------------------

  function Digit(d: nat): char
    requires d < 10
  {
    "0123456789"[d]
  }

  /** strconv.Itoa on a non-negative number. */
  function Itoa(n: nat): (r: string)
    ensures r != "" && forall i :: 0 <= i < |r| ==> '0' <= r[i] <= '9'
  {
    if n < 10 then [Digit(n)] else Itoa(n / 10) + [Digit(n % 10)]
  }

  function Param(k: nat): string { "$" + Itoa(k) }

  function Equation(e: (Name, nat)): string { e.0 + "=" + Param(e.1) }

  function Texts<T>(f: T -> string, xs: seq<T>): (r: seq<string>)
    ensures |r| == |xs| && forall i :: 0 <= i < |r| ==> r[i] == f(xs[i])
  {
    seq(|xs|, i requires 0 <= i < |xs| => f(xs[i]))
  }

  function List(items: seq<string>, sep: string): string {
    if items == [] then "" else if |items| == 1 then items[0] else items[0] + sep + List(items[1..], sep)
  }

  function Print(st: Statement): string {
    match st
    case Insert(table, columns, params) =>
      "insert into " + table + "(" + List(columns, ", ") + ") values (" + List(Texts(Param, params), ", ") + ")"
    case Update(table, sets, conds) =>
      "update " + table + " set " + List(Texts(Equation, sets), ", ")
      + " where " + List(Texts(Equation, conds), " and ")
    case Delete(table, conds) =>
      "delete from " + table + " where " + List(Texts(Equation, conds), " and ")
  }

  // ---- Reading back ----------------------------------------------------------------------------

  predicate IsWordChar(c: char) {
    'a' <= c <= 'z' || 'A' <= c <= 'Z' || '0' <= c <= '9' || c == '_'
  }

  predicate IsWord(w: string) {
    w != "" && forall i :: 0 <= i < |w| ==> IsWordChar(w[i])
  }

  predicate Delimiter(c: char) { c in {',', ' ', '(', ')'} }

  predicate IsItem(w: string) {
    w != "" && forall i :: 0 <= i < |w| ==> !Delimiter(w[i])
  }

  predicate WellFormed(st: Statement) {
    && IsWord(st.table)
    && match st
       case Insert(_, columns, _) => forall c :: c in columns ==> IsWord(c)
       case Update(_, sets, conds) =>
         && (forall i :: 0 <= i < |sets| ==> IsWord(sets[i].0))
         && (forall i :: 0 <= i < |conds| ==> IsWord(conds[i].0))
       case Delete(_, conds) => forall i :: 0 <= i < |conds| ==> IsWord(conds[i].0)
  }

  function ParseNat(s: string): nat
    requires forall i :: 0 <= i < |s| ==> '0' <= s[i] <= '9'
  {
    if s == "" then 0 else 10 * ParseNat(s[..|s| - 1]) + (s[|s| - 1] as int - '0' as int)
  }

  lemma {:induction false} ItoaParses(n: nat)
    ensures ParseNat(Itoa(n)) == n
  {
    if n >= 10 {
      ItoaParses(n / 10);
      assert Itoa(n)[..|Itoa(n)| - 1] == Itoa(n / 10);
    }
  }

  predicate Digits(s: string) {
    s != "" && forall i :: 0 <= i < |s| ==> '0' <= s[i] <= '9'
  }

  /** A dollar sign and the decimal digits of k: the text that stands for the k-th bound value. */
  predicate IsPlaceholder(p: string, k: nat) {
    p != "" && p[0] == '$' && Digits(p[1..]) && ParseNat(p[1..]) == k
  }

  lemma ParamIsPlaceholder(k: nat)
    ensures IsPlaceholder(Param(k), k)
  {
    assert Param(k)[1..] == Itoa(k);
    ItoaParses(k);
  }

  /** Text up to the first stop character is determined, and so is what follows. */
  lemma SplitAtStop(stop: char -> bool, x: string, r: string, y: string, q: string)
    requires (forall i :: 0 <= i < |x| ==> !stop(x[i])) && (r != "" ==> stop(r[0]))
    requires (forall i :: 0 <= i < |y| ==> !stop(y[i])) && (q != "" ==> stop(q[0]))
    requires x + r == y + q
    ensures x == y && r == q
  {
    NotShorter(stop, x, r, y, q);
    NotShorter(stop, y, q, x, r);
    assert x == (x + r)[..|x|] == (y + q)[..|y|] == y;
    assert r == (x + r)[|x|..] == (y + q)[|y|..] == q;
  }

  lemma NotShorter(stop: char -> bool, x: string, r: string, y: string, q: string)
    requires r != "" ==> stop(r[0])
    requires forall i :: 0 <= i < |y| ==> !stop(y[i])
    requires x + r == y + q
    ensures |x| >= |y|
  {
    if y != "" {
      var at := if |x| < |y| then |x| else |y| - 1;
      assert (x + r)[at] == (y + q)[at] == y[at];
      assert !stop(y[at]);
    }
  }

  lemma SplitItem(x: string, r: string, y: string, q: string)
    requires (forall i :: 0 <= i < |x| ==> !Delimiter(x[i])) && (r != "" ==> Delimiter(r[0]))
    requires (forall i :: 0 <= i < |y| ==> !Delimiter(y[i])) && (q != "" ==> Delimiter(q[0]))
    requires x + r == y + q
    ensures x == y && r == q
  {
    SplitAtStop(c => Delimiter(c), x, r, y, q);
  }

  ghost predicate Items(items: seq<string>) {
    forall i :: 0 <= i < |items| ==> IsItem(items[i])
  }

  /** A separated list and what follows it are determined by the text. */
  lemma {:induction false} ListIsDetermined(a: seq<string>, r: string, b: seq<string>, q: string, sep: string)
    requires Items(a) && Items(b) && sep != "" && Delimiter(sep[0])
    requires r != "" ==> Delimiter(r[0]) && r[0] != sep[0]
    requires q != "" ==> Delimiter(q[0]) && q[0] != sep[0]
    requires List(a, sep) + r == List(b, sep) + q
    ensures a == b && r == q
    decreases |a|
  {
    var (x, r1) := Front(a, r, sep);
    var (y, q1) := Front(b, q, sep);
    SplitItem(x, r1, y, q1);
    if |a| > 1 && |b| > 1 {
      var ra, rb := List(a[1..], sep) + r, List(b[1..], sep) + q;
      assert ra == r1[|sep|..] && rb == q1[|sep|..];
      ListIsDetermined(a[1..], r, b[1..], q, sep);
      assert a == [a[0]] + a[1..] && b == [b[0]] + b[1..];
    }
  }

  /** The first item of a list with a tail, and all that follows. */
  function Front(a: seq<string>, r: string, sep: string): (p: (string, string))
    requires Items(a) && sep != "" && Delimiter(sep[0])
    requires r != "" ==> Delimiter(r[0]) && r[0] != sep[0]
    ensures p.0 + p.1 == List(a, sep) + r
    ensures (forall i :: 0 <= i < |p.0| ==> !Delimiter(p.0[i])) && (p.1 != "" ==> Delimiter(p.1[0]))
    ensures p.0 == "" <==> a == []
    ensures a != [] ==> p.0 == a[0]
    ensures |a| > 1 ==> p.1 == sep + (List(a[1..], sep) + r)
    ensures |a| <= 1 ==> p.1 == r
  {
    if a == [] then ("", r) else if |a| == 1 then (a[0], r) else
      assert a[0] + sep + List(a[1..], sep) + r == a[0] + (sep + (List(a[1..], sep) + r));
      (a[0], sep + (List(a[1..], sep) + r))
  }

  lemma WordsAreItems(ws: seq<Name>)
    requires forall w :: w in ws ==> IsWord(w)
    ensures Items(ws)
  {
    forall i | 0 <= i < |ws| ensures IsItem(ws[i]) {
      assert IsWord(ws[i]);
    }
  }

  lemma EquationIsItem(e: (Name, nat))
    requires IsWord(e.0)
    ensures IsItem(Equation(e))
  {}

  lemma ParamIsDetermined(k: nat, l: nat)
    requires Param(k) == Param(l)
    ensures k == l
  {
    assert Itoa(k) == Param(k)[1..] == Param(l)[1..] == Itoa(l);
    ItoaParses(k);
    ItoaParses(l);
  }

  lemma EquationIsDetermined(e: (Name, nat), f: (Name, nat))
    requires IsWord(e.0) && IsWord(f.0) && Equation(e) == Equation(f)
    ensures e == f
  {
    var r, q := "=" + Param(e.1), "=" + Param(f.1);
    assert Equation(e) == e.0 + r && Equation(f) == f.0 + q;
    SplitAtStop(c => c == '=', e.0, r, f.0, q);
    Chop("=", Param(e.1), Param(f.1));
    ParamIsDetermined(e.1, f.1);
  }

  lemma EquationsAreDetermined(a: seq<(Name, nat)>, b: seq<(Name, nat)>)
    requires forall i :: 0 <= i < |a| ==> IsWord(a[i].0)
    requires forall i :: 0 <= i < |b| ==> IsWord(b[i].0)
    requires Texts(Equation, a) == Texts(Equation, b)
    ensures a == b
  {
    assert |a| == |Texts(Equation, a)| == |b|;
    forall i | 0 <= i < |a| ensures a[i] == b[i] {
      assert Equation(a[i]) == Texts(Equation, a)[i] == Texts(Equation, b)[i] == Equation(b[i]);
      EquationIsDetermined(a[i], b[i]);
    }
  }

  lemma EquationsAreItems(a: seq<(Name, nat)>)
    requires forall i :: 0 <= i < |a| ==> IsWord(a[i].0)
    ensures Items(Texts(Equation, a))
  {
    forall i | 0 <= i < |a| ensures IsItem(Texts(Equation, a)[i]) {
      EquationIsItem(a[i]);
    }
  }

  lemma ConditionsAreDetermined(a: seq<(Name, nat)>, b: seq<(Name, nat)>)
    requires forall i :: 0 <= i < |a| ==> IsWord(a[i].0)
    requires forall i :: 0 <= i < |b| ==> IsWord(b[i].0)
    requires List(Texts(Equation, a), " and ") == List(Texts(Equation, b), " and ")
    ensures a == b
  {
    EquationsAreItems(a);
    EquationsAreItems(b);
    var x, y := Texts(Equation, a), Texts(Equation, b);
    assert List(x, " and ") + "" == List(y, " and ") + "";
    ListIsDetermined(x, "", y, "", " and ");
    EquationsAreDetermined(a, b);
  }

  lemma Chop(p: string, x: string, y: string)
    requires p + x == p + y
    ensures x == y
  {
    assert x == (p + x)[|p|..] && y == (p + y)[|p|..];
  }

  /** Different statements have different texts. */
  lemma TextDeterminesStatement(s: Statement, t: Statement)
    requires WellFormed(s) && WellFormed(t) && Print(s) == Print(t)
    ensures s == t
  {
    assert Print(s)[0] == Print(t)[0];
    match s
    case Insert(_, _, _) => InsertIsDetermined(s, t);
    case Update(_, _, _) => UpdateIsDetermined(s, t);
    case Delete(_, _) => DeleteIsDetermined(s, t);
  }

  lemma DeleteText(s: Statement)
    requires s.Delete?
    ensures Print(s) == "delete from " + (s.table + (" where " + List(Texts(Equation, s.conds), " and ")))
  {}

  lemma DeleteIsDetermined(s: Statement, t: Statement)
    requires WellFormed(s) && WellFormed(t) && s.Delete? && t.Delete? && Print(s) == Print(t)
    ensures s == t
  {
    var x, y := List(Texts(Equation, s.conds), " and "), List(Texts(Equation, t.conds), " and ");
    var r, q := " where " + x, " where " + y;
    DeleteText(s);
    DeleteText(t);
    Chop("delete from ", s.table + r, t.table + q);
    SplitItem(s.table, r, t.table, q);
    Chop(" where ", x, y);
    ConditionsAreDetermined(s.conds, t.conds);
  }

  lemma Reassociate(a: string, b: string, c: string, d: string, e: string)
    ensures a + b + c + d + e == a + (b + (c + (d + e)))
  {}

  lemma UpdateText(s: Statement)
    requires s.Update?
    ensures Print(s) ==
              "update " + (s.table + (" set " + (List(Texts(Equation, s.sets), ", ")
              + (" where " + List(Texts(Equation, s.conds), " and ")))))
  {
    var k, la, w := "update ", List(Texts(Equation, s.sets), ", "), " where ";
    var x := List(Texts(Equation, s.conds), " and ");
    var h := k + s.table + " set " + la;
    assert Print(s) == h + w + x == h + (w + x);
    Reassociate(k, s.table, " set ", la, w + x);
  }

  lemma UpdateIsDetermined(s: Statement, t: Statement)
    requires WellFormed(s) && WellFormed(t) && s.Update? && t.Update? && Print(s) == Print(t)
    ensures s == t
  {
    var a, b := Texts(Equation, s.sets), Texts(Equation, t.sets);
    var x, y := List(Texts(Equation, s.conds), " and "), List(Texts(Equation, t.conds), " and ");
    var r, q := " where " + x, " where " + y;
    var la, lb := List(a, ", ") + r, List(b, ", ") + q;
    UpdateText(s);
    UpdateText(t);
    Chop("update ", s.table + (" set " + la), t.table + (" set " + lb));
    SplitItem(s.table, " set " + la, t.table, " set " + lb);
    Chop(" set ", la, lb);
    EquationsAreItems(s.sets);
    EquationsAreItems(t.sets);
    ListIsDetermined(a, r, b, q, ", ");
    EquationsAreDetermined(s.sets, t.sets);
    Chop(" where ", x, y);
    ConditionsAreDetermined(s.conds, t.conds);
  }

  lemma InsertText(s: Statement)
    requires s.Insert?
    ensures Print(s) ==
              "insert into " + (s.table + ("(" + (List(s.columns, ", ")
              + (") values (" + (List(Texts(Param, s.params), ", ") + ")")))))
  {
    var k, t, cs, v := "insert into ", s.table, List(s.columns, ", "), ") values (";
    var ps := List(Texts(Param, s.params), ", ");
    Reassociate(k, t, "(", cs, v);
    var h := k + t + "(" + cs + v;
    assert Print(s) == h + ps + ")";
    assert h + ps + ")" == h + (ps + ")");
    var tail := ps + ")";
    assert k + (t + ("(" + (cs + v))) + tail == k + (t + ("(" + (cs + (v + tail))));
  }

  lemma InsertIsDetermined(s: Statement, t: Statement)
    requires WellFormed(s) && WellFormed(t) && s.Insert? && t.Insert? && Print(s) == Print(t)
    ensures s == t
  {
    var k, v := "insert into ", ") values (";
    var a, b := s.columns, t.columns;
    var c, d := Texts(Param, s.params), Texts(Param, t.params);
    var r, q := List(c, ", ") + ")", List(d, ", ") + ")";
    var la, lb := List(a, ", ") + (v + r), List(b, ", ") + (v + q);
    InsertText(s);
    InsertText(t);
    Chop(k, s.table + ("(" + la), t.table + ("(" + lb));
    SplitItem(s.table, "(" + la, t.table, "(" + lb);
    Chop("(", la, lb);
    WordsAreItems(a);
    WordsAreItems(b);
    ListIsDetermined(a, v + r, b, v + q, ", ");
    Chop(v, r, q);
    ListIsDetermined(c, ")", d, ")", ", ");
    assert |s.params| == |c| == |t.params|;
    forall i | 0 <= i < |s.params| ensures s.params[i] == t.params[i] {
      assert Param(s.params[i]) == c[i] == d[i] == Param(t.params[i]);
      ParamIsDetermined(s.params[i], t.params[i]);
    }
  }

  /** The statement a text spells, if it spells one. */
  ghost function Parse(sql: string): (r: Option<Statement>)
    ensures r.Some? ==> WellFormed(r.value) && Print(r.value) == sql
  {
    if st :| WellFormed(st) && Print(st) == sql then Some(st) else None
  }

  /** Reading a printed statement back gives that statement. */
  lemma ParsePrinted(st: Statement)
    requires WellFormed(st)
    ensures Parse(Print(st)) == Some(st)
  {
    assert Parse(Print(st)).Some?;
    TextDeterminesStatement(Parse(Print(st)).value, st);
  }

  // ---- The formatting loops --------------------------------------------------------------------

  lemma {:induction false} ListSnoc(items: seq<string>, x: string, sep: string)
    ensures List(items + [x], sep) == (if items == [] then x else List(items, sep) + sep + x)
  {
    if |items| > 0 {
      assert (items + [x])[1..] == items[1..] + [x];
      ListSnoc(items[1..], x, sep);
      if |items| > 1 {
        assert items[0] + sep + (List(items[1..], sep) + sep + x) == items[0] + sep + List(items[1..], sep) + sep + x;
      }
    }
  }

  /** Column i is paired with placeholder number i + first. */
  function Numbered(columns: seq<Name>, first: nat): (r: seq<(Name, nat)>)
    ensures |r| == |columns| && forall i :: 0 <= i < |r| ==> r[i] == (columns[i], i + first)
  {
    seq(|columns|, i requires 0 <= i < |columns| => (columns[i], i + first))
  }

  function Upto(n: nat): (r: seq<nat>)
    ensures |r| == n && forall i :: 0 <= i < n ==> r[i] == i + 1
  {
    seq(n, i => i + 1)
  }

  function InsertAll(table: Name, columns: seq<Name>): Statement {
    Insert(table, columns, Upto(|columns|))
  }

  function UpdateAll(table: Name, columns: seq<Name>): Statement {
    Update(table, Numbered(columns, 1), Numbered(columns, 1 + |columns|))
  }

  function DeleteAll(table: Name, columns: seq<Name>): Statement {
    Delete(table, Numbered(columns, 1))
  }

  /** One more item at the end of the first i, the way the loops write it. */
  lemma ListGrows(prefix: string, all: seq<string>, i: nat, sep: string)
    requires i < |all|
    ensures prefix + List(all[..i + 1], sep) == (if i == 0 then prefix else prefix + List(all[..i], sep) + sep) + all[i]
  {
    assert all[..i + 1] == all[..i] + [all[i]];
    ListSnoc(all[..i], all[i], sep);
    var before := List(all[..i], sep);
    if i > 0 {
      assert prefix + (before + sep + all[i]) == prefix + before + sep + all[i];
    }
  }

  /** The placeholders of n values that are bound from number `first` on. */
  function Placeholders(n: nat, first: nat): (r: seq<string>)
    ensures |r| == n && forall i :: 0 <= i < n ==> IsPlaceholder(r[i], first + i)
  {
    forall k: nat ensures IsPlaceholder(Param(k), k) { ParamIsPlaceholder(k); }
    seq(n, i requires 0 <= i < n => Param(first + i))
  }

  function Equations(columns: seq<Name>, values: seq<string>): (r: seq<string>)
    requires |columns| == |values|
    ensures |r| == |columns| && forall i :: 0 <= i < |r| ==> r[i] == columns[i] + "=" + values[i]
  {
    seq(|columns|, i requires 0 <= i < |columns| => columns[i] + "=" + values[i])
  }

  lemma NumberedTexts(columns: seq<Name>, first: nat)
    ensures Texts(Equation, Numbered(columns, first)) == Equations(columns, Placeholders(|columns|, first))
  {
    var a, b := Texts(Equation, Numbered(columns, first)), Equations(columns, Placeholders(|columns|, first));
    forall i | 0 <= i < |columns| ensures a[i] == b[i] {
      assert Placeholders(|columns|, first)[i] == Param(first + i);
    }
  }

  method FormatInsertSql(table: Name, columns: seq<Name>) returns (sql: string)
    ensures sql == Print(InsertAll(table, columns))
    ensures sql == "insert into " + table + "(" + List(columns, ", ") + ") values ("
                   + List(Placeholders(|columns|, 1), ", ") + ")"
  {
    var start, values := "insert into " + table + "(", ") values (";
    ghost var head, open, params := start, values, Texts(Param, Upto(|columns|));
    for i := 0 to |columns|
      invariant start == head + List(columns[..i], ", ")
      invariant values == open + List(params[..i], ", ")
    {
      ListGrows(head, columns, i, ", ");
      ListGrows(open, params, i, ", ");
      if i > 0 {
        start := start + ", ";
        values := values + ", ";
      }
      start := start + columns[i];
      values := values + ("$" + Itoa(i + 1));
    }
    assert columns[..|columns|] == columns && params[..|columns|] == params;
    sql := start + values + ")";
    assert start + values == start + ") values (" + List(params, ", ");
    assert params == Placeholders(|columns|, 1);
  }

  method AppendEquations(prefix: string, columns: seq<Name>, first: nat, sep: string) returns (sql: string)
    ensures sql == prefix + List(Texts(Equation, Numbered(columns, first)), sep)
    ensures sql == prefix + List(Equations(columns, Placeholders(|columns|, first)), sep)
  {
    sql := prefix;
    ghost var all := Texts(Equation, Numbered(columns, first));
    for i := 0 to |columns|
      invariant sql == prefix + List(all[..i], sep)
    {
      ListGrows(prefix, all, i, sep);
      if i > 0 {
        sql := sql + sep;
      }
      sql := sql + (columns[i] + "=" + ("$" + Itoa(i + first)));
    }
    assert all[..|columns|] == all;
    NumberedTexts(columns, first);
  }

  method FormatUpdateSql(table: Name, columns: seq<Name>) returns (sql: string)
    ensures sql == Print(UpdateAll(table, columns))
    ensures sql == "update " + table + " set " + List(Equations(columns, Placeholders(|columns|, 1)), ", ")
                   + " where " + List(Equations(columns, Placeholders(|columns|, 1 + |columns|)), " and ")
  {
    sql := AppendEquations("update " + table + " set ", columns, 1, ", ");
    sql := AppendEquations(sql + " where ", columns, 1 + |columns|, " and ");
  }

  method FormatDeleteSql(table: Name, columns: seq<Name>) returns (sql: string)
    ensures sql == Print(DeleteAll(table, columns))
    ensures sql == "delete from " + table + " where "
                   + List(Equations(columns, Placeholders(|columns|, 1)), " and ")
  {
    sql := AppendEquations("delete from " + table + " where ", columns, 1, " and ");
  }
}
