/**
 The cache replica: a full copy of the master's tables, kept up to date by replaying row events. A
 table is a sequence of rows and only its contents as a multiset matter. The replica's effects are
 those of the SQL text it is sent, placeholders bound by position. Its rows are cells; which record of
 the master a row stands for, and whether a copy or an event wrote it, is said by an image of the table.
 */
module Replicator {
  import opened Wrappers
  import opened RowSpelling
  import opened SqlText

  type Table = seq<Row>

  // ---- What a statement does to a table --------------------------------------------------------

  /** The value bound to placeholder $k; none is bound outside 1..|values|. */
  function Bound(values: seq<Value>, k: nat): Value {
    if 1 <= k <= |values| then values[k - 1] else Null
  }

  /** SQL equality is never true of NULL. */
  predicate Holds(e: (Name, nat), values: seq<Value>, row: Row) {
    e.0 in row && row[e.0].Data? && row[e.0] == Bound(values, e.1)
  }

  predicate AllHold(conds: seq<(Name, nat)>, values: seq<Value>, row: Row) {
    forall i :: 0 <= i < |conds| ==> Holds(conds[i], values, row)
  }

  function Assigned(sets: seq<(Name, nat)>, values: seq<Value>, row: Row): Row {
    if sets == [] then row
    else Assigned(sets[1..], values, row)[sets[0].0 := Bound(values, sets[0].1)]
  }

  function UpdateRows(t: Table, st: Statement, values: seq<Value>): Table
    requires st.Update?
  {
    if t == [] then []
    else [UpdateRow(st, values, t[0])] + UpdateRows(t[1..], st, values)
  }

  function DeleteRows(t: Table, conds: seq<(Name, nat)>, values: seq<Value>): Table {
    if t == [] then []
    else (if AllHold(conds, values, t[0]) then [] else [t[0]]) + DeleteRows(t[1..], conds, values)
  }

  function Paired(columns: seq<Name>, params: seq<nat>): seq<(Name, nat)> {
    seq(if |columns| <= |params| then |columns| else |params|,
        i requires 0 <= i < |columns| && i < |params| => (columns[i], params[i]))
  }

  function Apply(st: Statement, values: seq<Value>, t: Table): Table {
    match st
    case Insert(_, columns, params) => t + [Assigned(Paired(columns, params), values, map[])]
    case Update(_, _, _) => UpdateRows(t, st, values)
    case Delete(_, conds) => DeleteRows(t, conds, values)
  }

  // ---- Events ----------------------------------------------------------------------------------

  datatype Action = INSERT | UPDATE | DELETE

  /** A row change of the master. */
  datatype Change = Change(table: Name, action: Action, before: Record, after: Record)

  /** The change as the handler decodes it from the trigger's report and spells it for the replica. */
  datatype Event = Event(table: Name, action: Action, before: Row, after: Row)

  function Reported(c: Change): Event {
    Event(c.table, c.action, EventRow(c.before), EventRow(c.after))
  }

  function Field(row: Row, column: Name): Value {
    if column in row then row[column] else Null
  }

  function Fields(row: Row, columns: seq<Name>): (r: seq<Value>)
    ensures |r| == |columns| && forall i :: 0 <= i < |r| ==> r[i] == Field(row, columns[i])
  {
    seq(|columns|, i requires 0 <= i < |columns| => Field(row, columns[i]))
  }

  function EventStatement(e: Event, columns: seq<Name>): Statement {
    match e.action
    case INSERT => InsertAll(e.table, columns)
    case UPDATE => UpdateAll(e.table, columns)
    case DELETE => DeleteAll(e.table, columns)
  }

  function EventValues(e: Event, columns: seq<Name>): seq<Value> {
    match e.action
    case INSERT => Fields(e.after, columns)
    case UPDATE => Fields(e.after, columns) + Fields(e.before, columns)
    case DELETE => Fields(e.before, columns)
  }

  function Replay(e: Event, columns: seq<Name>, t: Table): Table {
    Apply(EventStatement(e, columns), EventValues(e, columns), t)
  }

  // ---- What the master did ---------------------------------------------------------------------

  predicate Columns(columns: seq<Name>) {
    && columns != []
    && (forall c :: c in columns ==> IsWord(c))
    && forall i, j :: 0 <= i < j < |columns| ==> columns[i] != columns[j]
  }

  predicate HasColumns<T>(row: map<Name, T>, columns: seq<Name>) {
    row.Keys == set c | c in columns
  }

  predicate NullFree(row: Row) {
    forall c :: c in row ==> row[c].Data?
  }

  ghost predicate Conforms(t: Table, columns: seq<Name>) {
    forall r :: r in multiset(t) ==> HasColumns(r, columns)
  }

  /** The change is one of exactly one row of a table holding `rows`. */
  ghost predicate Describes(c: Change, rows: multiset<Record>, columns: seq<Name>) {
    && (c.action != DELETE ==> HasColumns(c.after, columns))
    && (c.action != INSERT ==> HasColumns(c.before, columns) && c.before in rows)
  }

  ghost function MasterStep(c: Change, rows: multiset<Record>): multiset<Record> {
    match c.action
    case INSERT => rows + multiset{c.after}
    case UPDATE => rows - multiset{c.before} + multiset{c.after}
    case DELETE => rows - multiset{c.before}
  }

  // ---- Positional values line up with the printed placeholders ---------------------------------

  /** From placeholder $first on, the values are those of `row`, column by column. */
  ghost predicate Carries(values: seq<Value>, first: nat, row: Row, columns: seq<Name>) {
    forall i :: 0 <= i < |columns| ==> columns[i] in row && Bound(values, i + first) == row[columns[i]]
  }

  /** A full-column WHERE finds exactly the copies of the old row, and none if that row holds a NULL. */
  lemma ConditionsFindRow(columns: seq<Name>, row: Row, before: Row, values: seq<Value>, first: nat)
    requires HasColumns(row, columns) && HasColumns(before, columns) && Carries(values, first, before, columns)
    ensures AllHold(Numbered(columns, first), values, row) <==> row == before && NullFree(before)
  {
    var conds := Numbered(columns, first);
    if AllHold(conds, values, row) {
      forall c | c in row.Keys ensures c in before && row[c] == before[c] && before[c].Data? {
        var i :| 0 <= i < |columns| && columns[i] == c;
        assert Holds(conds[i], values, row);
      }
      assert row.Keys == before.Keys;
    }
    if row == before && NullFree(before) {
      forall i | 0 <= i < |conds| ensures Holds(conds[i], values, row) {
        assert columns[i] in row;
      }
    }
  }

  lemma {:induction false} AssignedKeys(columns: seq<Name>, first: nat, values: seq<Value>, row: Row)
    ensures Assigned(Numbered(columns, first), values, row).Keys == row.Keys + (set c | c in columns)
  {
    if columns != [] {
      var rest := columns[1..];
      assert Numbered(columns, first)[1..] == Numbered(rest, first + 1);
      AssignedKeys(rest, first + 1, values, row);
      assert columns == [columns[0]] + rest;
    }
  }

  lemma {:induction false} AssignedValue(columns: seq<Name>, first: nat, values: seq<Value>, row: Row, i: nat)
    requires forall j, k :: 0 <= j < k < |columns| ==> columns[j] != columns[k]
    requires i < |columns|
    ensures columns[i] in Assigned(Numbered(columns, first), values, row)
    ensures Assigned(Numbered(columns, first), values, row)[columns[i]] == Bound(values, i + first)
  {
    var rest := columns[1..];
    assert Numbered(columns, first)[1..] == Numbered(rest, first + 1);
    if i > 0 {
      AssignedValue(rest, first + 1, values, row, i - 1);
      assert columns[i] == rest[i - 1] && columns[0] != columns[i];
    }
  }

  lemma AssignedField(columns: seq<Name>, row: Row, after: Row, values: seq<Value>, c: Name)
    requires Columns(columns) && HasColumns(after, columns) && c in after && Carries(values, 1, after, columns)
    ensures var r := Assigned(Numbered(columns, 1), values, row); c in r && r[c] == after[c]
  {
    var i :| 0 <= i < |columns| && columns[i] == c;
    AssignedValue(columns, 1, values, row, i);
    assert Bound(values, i + 1) == after[columns[i]];
  }

  /** Assigning all columns from the leading values yields the new row. */
  lemma AssignmentsBuildRow(columns: seq<Name>, row: Row, after: Row, values: seq<Value>)
    requires Columns(columns) && HasColumns(after, columns) && row.Keys <= after.Keys
    requires Carries(values, 1, after, columns)
    ensures Assigned(Numbered(columns, 1), values, row) == after
  {
    AssignedKeys(columns, 1, values, row);
    var r := Assigned(Numbered(columns, 1), values, row);
    assert r.Keys == after.Keys;
    forall c | c in after ensures r[c] == after[c] {
      AssignedField(columns, row, after, values, c);
    }
  }

  lemma FieldsAreCarried(row: Row, columns: seq<Name>, head: seq<Value>, tail: seq<Value>)
    requires HasColumns(row, columns)
    ensures Carries(head + Fields(row, columns) + tail, 1 + |head|, row, columns)
  {
    forall i | 0 <= i < |columns|
      ensures columns[i] in row && Bound(head + Fields(row, columns) + tail, i + 1 + |head|) == row[columns[i]]
    {
      assert columns[i] in row;
    }
  }

  /** Every copy of `a` replaced by `b`. */
  function Swap<T(==)>(t: seq<T>, a: T, b: T): seq<T> {
    if t == [] then [] else [if t[0] == a then b else t[0]] + Swap(t[1..], a, b)
  }

  /** Every copy of `a` removed. */
  function Without<T(==)>(t: seq<T>, a: T): seq<T> {
    if t == [] then [] else (if t[0] == a then [] else [t[0]]) + Without(t[1..], a)
  }

  lemma UpdateCarries(e: Event, columns: seq<Name>)
    requires e.action == UPDATE && HasColumns(e.before, columns) && HasColumns(e.after, columns)
    ensures Carries(EventValues(e, columns), 1, e.after, columns)
    ensures Carries(EventValues(e, columns), 1 + |columns|, e.before, columns)
  {
    var after, before := Fields(e.after, columns), Fields(e.before, columns);
    var values := EventValues(e, columns);
    assert values == [] + after + before == after + before + [];
    FieldsAreCarried(e.after, columns, [], before);
    FieldsAreCarried(e.before, columns, after, []);
  }

  lemma DeleteCarries(e: Event, columns: seq<Name>)
    requires e.action == DELETE && HasColumns(e.before, columns)
    ensures Carries(EventValues(e, columns), 1, e.before, columns)
  {
    var values := EventValues(e, columns);
    assert values == [] + values + [];
    FieldsAreCarried(e.before, columns, [], []);
  }

  function UpdateRow(st: Statement, values: seq<Value>, row: Row): Row
    requires st.Update?
  {
    if AllHold(st.conds, values, row) then Assigned(st.sets, values, row) else row
  }

  lemma UpdatedRow(e: Event, columns: seq<Name>, row: Row)
    requires Columns(columns) && HasColumns(row, columns) && e.action == UPDATE
    requires HasColumns(e.before, columns) && HasColumns(e.after, columns)
    ensures UpdateRow(UpdateAll(e.table, columns), EventValues(e, columns), row)
            == if NullFree(e.before) && row == e.before then e.after else row
  {
    var values := EventValues(e, columns);
    UpdateCarries(e, columns);
    ConditionsFindRow(columns, row, e.before, values, 1 + |columns|);
    if row == e.before {
      AssignmentsBuildRow(columns, row, e.after, values);
    }
  }

  /** Replaying an update turns all copies of the old row into the new one. */
  lemma {:induction false} ReplayedUpdate(e: Event, columns: seq<Name>, t: Table)
    requires Columns(columns) && Conforms(t, columns) && e.action == UPDATE
    requires HasColumns(e.before, columns) && HasColumns(e.after, columns)
    ensures Replay(e, columns, t) == if NullFree(e.before) then Swap(t, e.before, e.after) else t
  {
    if t != [] {
      ConformsCons(t, columns);
      ReplayedUpdate(e, columns, t[1..]);
      UpdatedRow(e, columns, t[0]);
    }
  }

  lemma ConformsCons(t: Table, columns: seq<Name>)
    requires t != [] && Conforms(t, columns)
    ensures HasColumns(t[0], columns) && Conforms(t[1..], columns) && t == [t[0]] + t[1..]
  {
    assert t == [t[0]] + t[1..];
    assert t[0] in multiset(t);
    assert forall r :: r in multiset(t[1..]) ==> r in multiset(t);
  }

  lemma {:induction false} ReplayedDelete(e: Event, columns: seq<Name>, t: Table)
    requires Columns(columns) && Conforms(t, columns) && e.action == DELETE && HasColumns(e.before, columns)
    ensures Replay(e, columns, t) == if NullFree(e.before) then Without(t, e.before) else t
  {
    if t != [] {
      ConformsCons(t, columns);
      ReplayedDelete(e, columns, t[1..]);
      DeleteCarries(e, columns);
      ConditionsFindRow(columns, t[0], e.before, EventValues(e, columns), 1);
    }
  }

  lemma ReplayedInsert(e: Event, columns: seq<Name>, t: Table)
    requires Columns(columns) && e.action == INSERT && HasColumns(e.after, columns)
    ensures Replay(e, columns, t) == t + [e.after]
  {
    assert Paired(columns, Upto(|columns|)) == Numbered(columns, 1);
    var values := EventValues(e, columns);
    assert values == [] + values + [];
    FieldsAreCarried(e.after, columns, [], []);
    AssignmentsBuildRow(columns, map[], e.after, values);
  }

  // ---- Images of a table -----------------------------------------------------------------------

  /** A row of the replica: the record it stands for, and whether an event wrote it last. */
  datatype Cells = Cells(record: Record, byEvent: bool)

  type Image = seq<Cells>

  function RowOf(x: Cells): Row {
    if x.byEvent then EventRow(x.record) else CopyRow(x.record)
  }

  function TableOf(image: Image): (t: Table)
    ensures |t| == |image| && forall i :: 0 <= i < |t| ==> t[i] == RowOf(image[i])
  {
    if image == [] then [] else [RowOf(image[0])] + TableOf(image[1..])
  }

  function RecordsOf(image: Image): multiset<Record> {
    if image == [] then multiset{} else multiset{image[0].record} + RecordsOf(image[1..])
  }

  /** The statement of a change finds this row: SQL equality, on cells. */
  predicate Found(x: Cells, before: Record) {
    NullFree(EventRow(before)) && RowOf(x) == EventRow(before)
  }

  /** The records of the rows found, and of the others. */
  function FoundIn(image: Image, before: Record): multiset<Record> {
    if image == [] then multiset{}
    else (if Found(image[0], before) then multiset{image[0].record} else multiset{}) + FoundIn(image[1..], before)
  }

  function OthersIn(image: Image, before: Record): multiset<Record> {
    if image == [] then multiset{}
    else (if Found(image[0], before) then multiset{} else multiset{image[0].record}) + OthersIn(image[1..], before)
  }

  function UpdatedImage(image: Image, before: Record, after: Record): Image {
    if image == [] then []
    else [if Found(image[0], before) then Cells(after, true) else image[0]] + UpdatedImage(image[1..], before, after)
  }

  function DeletedImage(image: Image, before: Record): Image {
    if image == [] then []
    else (if Found(image[0], before) then [] else [image[0]]) + DeletedImage(image[1..], before)
  }

  /** What a change does to the image when its event is replayed. */
  function ReplayedImage(c: Change, image: Image): Image {
    match c.action
    case INSERT => image + [Cells(c.after, true)]
    case UPDATE => UpdatedImage(image, c.before, c.after)
    case DELETE => DeletedImage(image, c.before)
  }

  ghost predicate WholeImage(image: Image, columns: seq<Name>) {
    forall i :: 0 <= i < |image| ==> HasColumns(image[i].record, columns)
  }

  // ---- The image follows the replica -----------------------------------------------------------

  lemma {:induction false} TableOfConcat(a: Image, b: Image)
    ensures TableOf(a + b) == TableOf(a) + TableOf(b)
  {
    if a == [] {
      assert a + b == b;
    } else {
      assert (a + b)[1..] == a[1..] + b;
      TableOfConcat(a[1..], b);
    }
  }

  lemma WholeTable(image: Image, columns: seq<Name>)
    requires WholeImage(image, columns)
    ensures Conforms(TableOf(image), columns)
  {
    var t := TableOf(image);
    forall r | r in multiset(t) ensures HasColumns(r, columns) {
      var i :| 0 <= i < |t| && t[i] == r;
      assert HasColumns(image[i].record, columns);
    }
  }

  lemma {:induction false} SwappedTable(image: Image, before: Record, after: Record)
    ensures TableOf(UpdatedImage(image, before, after)) ==
              if NullFree(EventRow(before)) then Swap(TableOf(image), EventRow(before), EventRow(after))
              else TableOf(image)
  {
    if image != [] {
      SwappedTable(image[1..], before, after);
    }
  }

  lemma {:induction false} ShortenedTable(image: Image, before: Record)
    ensures TableOf(DeletedImage(image, before)) ==
              if NullFree(EventRow(before)) then Without(TableOf(image), EventRow(before)) else TableOf(image)
  {
    if image != [] {
      ShortenedTable(image[1..], before);
    }
  }

  /** Replaying the event of a change does to the replica's cells exactly what it does to their image. */
  lemma ReplayFollowsImage(c: Change, columns: seq<Name>, image: Image)
    requires Columns(columns) && WholeImage(image, columns)
    requires c.action != DELETE ==> HasColumns(c.after, columns)
    requires c.action != INSERT ==> HasColumns(c.before, columns)
    ensures Replay(Reported(c), columns, TableOf(image)) == TableOf(ReplayedImage(c, image))
  {
    WholeTable(image, columns);
    match c.action
    case INSERT =>
      ReplayedInsert(Reported(c), columns, TableOf(image));
      TableOfConcat(image, [Cells(c.after, true)]);
    case UPDATE =>
      ReplayedUpdate(Reported(c), columns, TableOf(image));
      SwappedTable(image, c.before, c.after);
    case DELETE =>
      ReplayedDelete(Reported(c), columns, TableOf(image));
      ShortenedTable(image, c.before);
  }

  // ---- When the replica agrees -----------------------------------------------------------------

  lemma Shuffle(h: multiset<Record>, f: multiset<Record>, o: multiset<Record>)
    ensures h + (f + o) == (h + f) + (multiset{} + o) == (multiset{} + f) + (h + o)
    ensures multiset{} + o == o
  {}

  lemma {:induction false} FoundAndOthers(image: Image, before: Record)
    ensures RecordsOf(image) == FoundIn(image, before) + OthersIn(image, before)
  {
    if image != [] {
      FoundAndOthers(image[1..], before);
      Shuffle(multiset{image[0].record}, FoundIn(image[1..], before), OthersIn(image[1..], before));
    }
  }

  lemma {:induction false} DeletedRecords(image: Image, before: Record)
    ensures RecordsOf(DeletedImage(image, before)) == OthersIn(image, before)
  {
    if image != [] {
      var rest := DeletedImage(image[1..], before);
      DeletedRecords(image[1..], before);
      if Found(image[0], before) {
        assert [] + rest == rest;
        Shuffle(multiset{}, multiset{}, OthersIn(image[1..], before));
      } else {
        assert ([image[0]] + rest)[1..] == rest;
      }
    }
  }

  lemma {:induction false} RecordsConcat(a: Image, b: Image)
    ensures RecordsOf(a + b) == RecordsOf(a) + RecordsOf(b)
  {
    if a == [] {
      assert a + b == b;
    } else {
      assert (a + b)[1..] == a[1..] + b;
      RecordsConcat(a[1..], b);
    }
  }

  lemma RecordsCons(x: Cells, rest: Image)
    ensures RecordsOf([x] + rest) == multiset{x.record} + RecordsOf(rest)
  {
    assert ([x] + rest)[1..] == rest;
  }

  lemma {:induction false} UpdatedRecords(image: Image, before: Record, after: Record, x: Record)
    ensures RecordsOf(UpdatedImage(image, before, after))[x] ==
              OthersIn(image, before)[x] + if x == after then |FoundIn(image, before)| else 0
  {
    if image != [] {
      var rest := UpdatedImage(image[1..], before, after);
      UpdatedRecords(image[1..], before, after, x);
      if Found(image[0], before) {
        RecordsCons(Cells(after, true), rest);
        assert |FoundIn(image, before)| == 1 + |FoundIn(image[1..], before)|;
      } else {
        RecordsCons(image[0], rest);
      }
    }
  }

  /** Of the rows found, those that are not the new record already are exactly one, the old record. */
  ghost predicate FindsOldRow(found: multiset<Record>, before: Record, after: Record) {
    found[after := 0] == multiset{before}[after := 0]
  }

  /** Exactly when the replay of a change carries the records of an image along with the master's. */
  ghost predicate Replayable(c: Change, image: Image) {
    match c.action
    case INSERT => true
    case UPDATE => FindsOldRow(FoundIn(image, c.before), c.before, c.after)
    case DELETE => FoundIn(image, c.before) == multiset{c.before}
  }

  lemma WithoutOne(m: multiset<Record>, a: Record)
    ensures |m| == |m[a := 0]| + m[a]
  {
    assert m == m[a := 0] + multiset{}[a := m[a]];
  }

  lemma CountsOfUpdate(found: multiset<Record>, others: multiset<Record>, updated: multiset<Record>,
                       before: Record, after: Record)
    requires before in found + others
    requires forall x: Record :: updated[x] == others[x] + if x == after then |found| else 0
    ensures updated == found + others - multiset{before} + multiset{after} <==> FindsOldRow(found, before, after)
  {
    var wanted := found + others - multiset{before} + multiset{after};
    WithoutOne(found, after);
    if FindsOldRow(found, before, after) {
      assert |multiset{before}[after := 0]| == if before == after then 0 else 1;
      forall x: Record ensures updated[x] == wanted[x] {
        assert found[after := 0][x] == multiset{before}[after := 0][x];
      }
      assert updated == wanted;
    }
    if updated == wanted {
      var rest, left := found[after := 0], multiset{before}[after := 0];
      forall x: Record ensures rest[x] == left[x] {
        assert updated[x] == wanted[x];
      }
      assert rest == left;
    }
  }

  /**
   Exactly when one replayed change keeps the records of a replica equal to the master's, however its rows
   are spelled: an insert always does; an update does when the rows it finds are, but for some that hold
   the new record already, the one old row; a delete when it finds the one old row.
   */
  lemma ReplayAgreesIff(c: Change, columns: seq<Name>, image: Image)
    requires Describes(c, RecordsOf(image), columns)
    ensures RecordsOf(ReplayedImage(c, image)) == MasterStep(c, RecordsOf(image)) <==> Replayable(c, image)
  {
    match c.action
    case INSERT =>
      RecordsConcat(image, [Cells(c.after, true)]);
      assert RecordsOf([Cells(c.after, true)]) == multiset{c.after};
    case UPDATE =>
      FoundAndOthers(image, c.before);
      var updated := RecordsOf(UpdatedImage(image, c.before, c.after));
      forall x: Record
        ensures updated[x] == OthersIn(image, c.before)[x] + if x == c.after then |FoundIn(image, c.before)| else 0
      {
        UpdatedRecords(image, c.before, c.after, x);
      }
      CountsOfUpdate(FoundIn(image, c.before), OthersIn(image, c.before), updated, c.before, c.after);
    case DELETE =>
      FoundAndOthers(image, c.before);
      DeletedRecords(image, c.before);
      OthersAlone(FoundIn(image, c.before), OthersIn(image, c.before), c.before);
  }

  lemma OthersAlone(found: multiset<Record>, others: multiset<Record>, before: Record)
    requires before in found + others
    ensures others == found + others - multiset{before} <==> found == multiset{before}
  {
    if others == found + others - multiset{before} {
      forall x: Record ensures found[x] == multiset{before}[x] {
        assert others[x] == (found + others - multiset{before})[x];
      }
      assert found == multiset{before};
    }
  }

  // ---- Tables with a key -----------------------------------------------------------------------

  /** The column holds a value with one spelling in every row, and no value twice. */
  ghost predicate Keyed(image: Image, key: Name) {
    && (forall i :: 0 <= i < |image| ==> key in image[i].record && image[i].record[key].Scalar?)
    && forall i, j :: 0 <= i < j < |image| ==> image[i].record[key] != image[j].record[key]
  }

  lemma SameKey(x: Cells, before: Record, key: Name)
    requires key in x.record && x.record[key].Scalar? && key in before && before[key].Scalar?
    requires RowOf(x) == EventRow(before)
    ensures x.record[key] == before[key]
  {
    assert RowOf(x)[key] == EventRow(before)[key];
  }

  /** In a table with a key a change finds nothing or its old row, which it finds iff the event spells it so. */
  lemma {:induction false} FoundByKey(image: Image, key: Name, i: nat)
    requires Keyed(image, key) && i < |image|
    ensures FoundIn(image, image[i].record) ==
              if Found(image[i], image[i].record) then multiset{image[i].record} else multiset{}
  {
    var before := image[i].record;
    if i == 0 {
      NothingFound(image[1..], key, before);
    } else {
      FoundByKey(image[1..], key, i - 1);
      if Found(image[0], before) {
        SameKey(image[0], before, key);
      }
    }
  }

  lemma {:induction false} NothingFound(image: Image, key: Name, before: Record)
    requires Keyed(image, key) && key in before && before[key].Scalar?
    requires forall i :: 0 <= i < |image| ==> image[i].record[key] != before[key]
    ensures FoundIn(image, before) == multiset{}
  {
    if image != [] {
      NothingFound(image[1..], key, before);
      if Found(image[0], before) {
        SameKey(image[0], before, key);
      }
    }
  }

  /**
   Exactly when a change of a table with a key is replayed faithfully: it is an insert, changes nothing, or
   its old row holds no NULL and was last written by an event or is spelled alike both ways.
   */
  lemma KeyedReplayIff(c: Change, image: Image, key: Name, i: nat)
    requires Keyed(image, key) && i < |image| && c.action != INSERT && c.before == image[i].record
    ensures Replayable(c, image) <==>
              || (c.action == UPDATE && c.before == c.after)
              || (NullFree(EventRow(c.before)) && (image[i].byEvent || Alike(c.before)))
  {
    FoundByKey(image, key, i);
    var found := FoundIn(image, c.before);
    assert Found(image[i], c.before) <==> NullFree(EventRow(c.before)) && (image[i].byEvent || Alike(c.before));
    if c.before != c.after {
      assert multiset{c.before}[c.after := 0] == multiset{c.before};
      assert multiset{}[c.after := 0] != multiset{c.before} by { assert c.before !in multiset{}[c.after := 0]; }
    } else {
      assert multiset{c.before}[c.after := 0] == multiset{}[c.after := 0];
    }
  }

  /** The input: a copied row with an array, alone in its table. Neither its update nor its deletion finds it. */
  lemma CopiedArrayRowIsNotFound(c: Change, columns: seq<Name>, column: Name)
    requires Columns(columns) && c.action != INSERT && HasColumns(c.before, columns)
    requires c.action == UPDATE ==> HasColumns(c.after, columns)
    requires column in c.before && c.before[column].List?
    ensures Replay(Reported(c), columns, [CopyRow(c.before)]) == [CopyRow(c.before)]
  {
    var image := [Cells(c.before, false)];
    CopiedArrayDiffers(c.before, column);
    NotFoundStays(c, Cells(c.before, false));
    ReplayFollowsImage(c, columns, image);
    SingleTable(image);
  }

  lemma CopiedArrayDiffers(record: Record, column: Name)
    requires column in record && record[column].List?
    ensures !Found(Cells(record, false), record)
  {
    CellsAgreeIff(record[column]);
    assert CopyRow(record)[column] != EventRow(record)[column];
  }

  lemma NotFoundStays(c: Change, x: Cells)
    requires c.action != INSERT && !Found(x, c.before)
    ensures ReplayedImage(c, [x]) == [x]
  {
    assert [x][1..] == [];
    assert UpdatedImage([], c.before, c.after) == [] && DeletedImage([], c.before) == [];
  }

  lemma SingleTable(image: Image)
    requires |image| == 1
    ensures TableOf(image) == [RowOf(image[0])]
  {}

  // ---- Runs ------------------------------------------------------------------------------------

  type Metadata = map<Name, seq<Name>>

  ghost predicate Schema(metadata: Metadata) {
    forall t :: t in metadata ==> IsWord(t) && Columns(metadata[t])
  }

  type Images = map<Name, Image>

  /** Every record of every table has the table's columns. */
  ghost predicate WholeImages(metadata: Metadata, images: Images) {
    images.Keys == metadata.Keys && forall t :: t in images ==> WholeImage(images[t], metadata[t])
  }

  /** The changes the master makes, each to a known table. */
  ghost predicate History(metadata: Metadata, master: map<Name, multiset<Record>>, changes: seq<Change>)
    decreases |changes|
  {
    && master.Keys == metadata.Keys
    && (changes != [] ==>
          var c := changes[0];
          && c.table in metadata && Describes(c, master[c.table], metadata[c.table])
          && History(metadata, master[c.table := MasterStep(c, master[c.table])], changes[1..]))
  }

  function ImagesAfter(images: Images, c: Change): Images {
    if c.table in images then images[c.table := ReplayedImage(c, images[c.table])] else images
  }

  function ImageRun(images: Images, changes: seq<Change>): Images
    decreases |changes|
  {
    if changes == [] then images else ImageRun(ImagesAfter(images, changes[0]), changes[1..])
  }

  function TablesOf(images: Images): map<Name, Table> {
    map t | t in images :: TableOf(images[t])
  }

  function ReplayAll(metadata: Metadata, replica: map<Name, Table>, changes: seq<Change>): map<Name, Table>
    decreases |changes|
  {
    if changes == [] then replica
    else
      var e := Reported(changes[0]);
      ReplayAll(metadata,
                if e.table in metadata && e.table in replica
                then replica[e.table := Replay(e, metadata[e.table], replica[e.table])] else replica,
                changes[1..])
  }

  ghost predicate Agree(images: Images, master: map<Name, multiset<Record>>) {
    images.Keys == master.Keys && forall t :: t in master ==> RecordsOf(images[t]) == master[t]
  }

  /** Replica and master agree at the start and after every change. */
  ghost predicate AgreeThroughout(images: Images, master: map<Name, multiset<Record>>, changes: seq<Change>)
    decreases |changes|
  {
    && Agree(images, master)
    && (changes != [] ==>
          var c := changes[0];
          c.table in master ==>
            AgreeThroughout(ImagesAfter(images, c), master[c.table := MasterStep(c, master[c.table])], changes[1..]))
  }

  /** Every change can be replayed on the rows as they are by then. */
  ghost predicate AllReplayable(images: Images, changes: seq<Change>)
    decreases |changes|
  {
    changes != [] ==>
      && (changes[0].table in images ==> Replayable(changes[0], images[changes[0].table]))
      && AllReplayable(ImagesAfter(images, changes[0]), changes[1..])
  }

  lemma {:induction false} UpdatedIsWhole(image: Image, before: Record, after: Record, columns: seq<Name>)
    requires WholeImage(image, columns) && HasColumns(after, columns)
    ensures WholeImage(UpdatedImage(image, before, after), columns)
  {
    if image != [] {
      assert WholeImage(image[1..], columns) by {
        assert forall i :: 0 <= i < |image[1..]| ==> image[1..][i] == image[i + 1];
      }
      UpdatedIsWhole(image[1..], before, after, columns);
    }
  }

  lemma {:induction false} DeletedIsWhole(image: Image, before: Record, columns: seq<Name>)
    requires WholeImage(image, columns)
    ensures WholeImage(DeletedImage(image, before), columns)
  {
    if image != [] {
      assert WholeImage(image[1..], columns) by {
        assert forall i :: 0 <= i < |image[1..]| ==> image[1..][i] == image[i + 1];
      }
      DeletedIsWhole(image[1..], before, columns);
    }
  }

  lemma ReplayedIsWhole(c: Change, image: Image, columns: seq<Name>)
    requires WholeImage(image, columns) && (c.action != DELETE ==> HasColumns(c.after, columns))
    ensures WholeImage(ReplayedImage(c, image), columns)
  {
    match c.action
    case INSERT =>
    case UPDATE => UpdatedIsWhole(image, c.before, c.after, columns);
    case DELETE => DeletedIsWhole(image, c.before, columns);
  }

  lemma WholeAfter(metadata: Metadata, images: Images, c: Change)
    requires WholeImages(metadata, images) && c.table in metadata
    requires c.action != DELETE ==> HasColumns(c.after, metadata[c.table])
    ensures WholeImages(metadata, ImagesAfter(images, c))
  {
    ReplayedIsWhole(c, images[c.table], metadata[c.table]);
  }

  lemma TablesAfter(metadata: Metadata, images: Images, c: Change)
    requires Schema(metadata) && WholeImages(metadata, images) && c.table in metadata
    requires c.action != DELETE ==> HasColumns(c.after, metadata[c.table])
    requires c.action != INSERT ==> HasColumns(c.before, metadata[c.table])
    ensures TablesOf(ImagesAfter(images, c))
         == TablesOf(images)[c.table := Replay(Reported(c), metadata[c.table], TablesOf(images)[c.table])]
  {
    var columns, image := metadata[c.table], images[c.table];
    ReplayFollowsImage(c, columns, image);
    OneTable(images, c.table, ReplayedImage(c, image));
    assert TablesOf(images)[c.table] == TableOf(image);
  }

  lemma OneTable(images: Images, t: Name, image: Image)
    requires t in images
    ensures TablesOf(images[t := image]) == TablesOf(images)[t := TableOf(image)]
  {}

  /** Over every history the replica's cells are those of its images. */
  lemma {:induction false} ReplicaFollowsImages(metadata: Metadata, images: Images, master: map<Name, multiset<Record>>,
                                                changes: seq<Change>)
    requires Schema(metadata) && WholeImages(metadata, images) && History(metadata, master, changes)
    ensures ReplayAll(metadata, TablesOf(images), changes) == TablesOf(ImageRun(images, changes))
    decreases |changes|
  {
    if changes != [] {
      var c := changes[0];
      TablesAfter(metadata, images, c);
      WholeAfter(metadata, images, c);
      ReplicaFollowsImages(metadata, ImagesAfter(images, c),
                           master[c.table := MasterStep(c, master[c.table])], changes[1..]);
    }
  }

  lemma AgreeAfter(images: Images, master: map<Name, multiset<Record>>, c: Change, columns: seq<Name>)
    requires Agree(images, master) && c.table in master && Describes(c, master[c.table], columns)
    ensures Agree(ImagesAfter(images, c), master[c.table := MasterStep(c, master[c.table])]) <==>
              Replayable(c, images[c.table])
  {
    var image := images[c.table];
    assert RecordsOf(image) == master[c.table];
    ReplayAgreesIff(c, columns, image);
    AgreeUpdated(images, master, c.table, ReplayedImage(c, image), MasterStep(c, master[c.table]));
  }

  lemma AgreeUpdated(images: Images, master: map<Name, multiset<Record>>, t: Name, image: Image, rows: multiset<Record>)
    requires Agree(images, master) && t in master
    ensures Agree(images[t := image], master[t := rows]) <==> RecordsOf(image) == rows
  {
    assert images[t := image][t] == image && master[t := rows][t] == rows;
  }

  /** A replica that agrees with the master keeps agreeing after every change of a history iff each can be replayed. */
  lemma {:induction false} ReplicaFollowsMasterIff(metadata: Metadata, images: Images,
                                                   master: map<Name, multiset<Record>>, changes: seq<Change>)
    requires Agree(images, master) && History(metadata, master, changes)
    ensures AgreeThroughout(images, master, changes) <==> AllReplayable(images, changes)
    decreases |changes|
  {
    if changes != [] {
      var c := changes[0];
      AgreeAfter(images, master, c, metadata[c.table]);
      var images1, master1 := ImagesAfter(images, c), master[c.table := MasterStep(c, master[c.table])];
      if Replayable(c, images[c.table]) {
        ReplicaFollowsMasterIff(metadata, images1, master1, changes[1..]);
      }
    }
  }

  // ---- After a full copy -----------------------------------------------------------------------

  function Copies(rows: seq<Record>): (image: Image)
    ensures |image| == |rows| && forall i :: 0 <= i < |image| ==> image[i] == Cells(rows[i], false)
  {
    seq(|rows|, i requires 0 <= i < |rows| => Cells(rows[i], false))
  }

  function CopyOf(rows: seq<Record>): (t: Table)
    ensures |t| == |rows| && forall i :: 0 <= i < |t| ==> t[i] == CopyRow(rows[i])
  {
    seq(|rows|, i requires 0 <= i < |rows| => CopyRow(rows[i]))
  }

  lemma CopiedCells(rows: seq<Record>)
    ensures TableOf(Copies(rows)) == CopyOf(rows)
  {}

  lemma {:induction false} CopiedRecords(rows: seq<Record>)
    ensures RecordsOf(Copies(rows)) == multiset(rows)
  {
    if rows != [] {
      var rest := rows[1..];
      CopiedRecords(rest);
      assert Copies(rows)[1..] == Copies(rest) && Copies(rows)[0] == Cells(rows[0], false);
      assert rows == [rows[0]] + rest;
      FirstCounted(rows[0], rest);
    }
  }

  lemma FirstCounted(r: Record, rest: seq<Record>)
    ensures multiset([r] + rest) == multiset{r} + multiset(rest)
  {}

  function CopiedImages(tables: map<Name, seq<Record>>): Images {
    map t | t in tables :: Copies(tables[t])
  }

  function CopiedTables(tables: map<Name, seq<Record>>): map<Name, Table> {
    map t | t in tables :: CopyOf(tables[t])
  }

  function Contents(tables: map<Name, seq<Record>>): map<Name, multiset<Record>> {
    map t | t in tables :: multiset(tables[t])
  }

  /** A full copy agrees with what was copied. */
  lemma CopyAgrees(tables: map<Name, seq<Record>>)
    ensures Agree(CopiedImages(tables), Contents(tables))
  {
    forall t | t in tables ensures RecordsOf(CopiedImages(tables)[t]) == Contents(tables)[t] {
      CopiedRecords(tables[t]);
    }
  }

  /** Its cells are those of its images. */
  lemma CopyIsSpelled(tables: map<Name, seq<Record>>)
    ensures TablesOf(CopiedImages(tables)) == CopiedTables(tables)
  {
    forall t | t in tables ensures TablesOf(CopiedImages(tables))[t] == CopiedTables(tables)[t] {
      CopiedCells(tables[t]);
    }
  }

  /**
   Exactly when a full copy followed by the replay of the changes made since keeps the replica with the
   master: when each change can be replayed on the rows as the copy and the events before it spelled them.
   The cells are in any case those of the images.
   */
  lemma ResyncThenReplayIff(metadata: Metadata, tables: map<Name, seq<Record>>, changes: seq<Change>)
    requires Schema(metadata) && tables.Keys == metadata.Keys && History(metadata, Contents(tables), changes)
    requires forall t, i :: t in tables && 0 <= i < |tables[t]| ==> HasColumns(tables[t][i], metadata[t])
    ensures ReplayAll(metadata, CopiedTables(tables), changes) == TablesOf(ImageRun(CopiedImages(tables), changes))
    ensures AgreeThroughout(CopiedImages(tables), Contents(tables), changes) <==>
              AllReplayable(CopiedImages(tables), changes)
  {
    var images := CopiedImages(tables);
    CopyAgrees(tables);
    CopyIsSpelled(tables);
    ReplicaFollowsImages(metadata, images, Contents(tables), changes);
    ReplicaFollowsMasterIff(metadata, images, Contents(tables), changes);
  }

  // ---- Histories that can always be replayed ---------------------------------------------------

  /** Records with a key of one spelling, each key once, that are free of NULL. */
  ghost predicate PlainRows(rows: multiset<Record>, key: Name) {
    && (forall r: Record :: r in rows ==> key in r && r[key].Scalar? && NullFree(EventRow(r)) && rows[r] == 1)
    && forall r: Record, q: Record :: r in rows && q in rows && r != q ==> r[key] != q[key]
  }

  /** A history all of whose tables are plain throughout. */
  ghost predicate PlainHistory(metadata: Metadata, keys: map<Name, Name>, master: map<Name, multiset<Record>>,
                               changes: seq<Change>)
    decreases |changes|
  {
    && master.Keys == metadata.Keys == keys.Keys
    && (forall t :: t in master ==> PlainRows(master[t], keys[t]))
    && (changes != [] ==>
          var c := changes[0];
          && c.table in metadata && Describes(c, master[c.table], metadata[c.table])
          && PlainHistory(metadata, keys, master[c.table := MasterStep(c, master[c.table])], changes[1..]))
  }

  /** Every row was written by an event or is spelled alike both ways. */
  ghost predicate Findable(image: Image) {
    forall i :: 0 <= i < |image| ==> image[i].byEvent || Alike(image[i].record)
  }

  lemma {:induction false} RecordAt(image: Image, r: Record) returns (i: nat)
    requires r in RecordsOf(image)
    ensures i < |image| && image[i].record == r
  {
    if image[0].record == r {
      i := 0;
    } else {
      var j := RecordAt(image[1..], r);
      i := j + 1;
    }
  }

  lemma {:induction false} RecordCounted(image: Image, i: nat)
    requires i < |image|
    ensures image[i].record in RecordsOf(image)
    ensures forall j :: i < j < |image| && image[j].record == image[i].record ==> RecordsOf(image)[image[i].record] > 1
  {
    if i > 0 {
      RecordCounted(image[1..], i - 1);
      assert forall j :: i < j < |image| ==> image[1..][j - 1] == image[j];
    } else {
      forall j | 0 < j < |image| && image[j].record == image[0].record
        ensures RecordsOf(image)[image[0].record] > 1
      {
        RecordCounted(image[1..], j - 1);
        assert image[1..][j - 1] == image[j];
      }
    }
  }

  lemma PlainIsKeyed(image: Image, key: Name)
    requires PlainRows(RecordsOf(image), key)
    ensures Keyed(image, key)
  {
    forall i | 0 <= i < |image|
      ensures key in image[i].record && image[i].record[key].Scalar?
      ensures forall j :: i < j < |image| ==> key in image[j].record && image[i].record[key] != image[j].record[key]
    {
      RecordCounted(image, i);
      forall j | i < j < |image| ensures key in image[j].record && image[i].record[key] != image[j].record[key] {
        RecordCounted(image, j);
      }
    }
  }

  lemma {:induction false} UpdatedIsFindable(image: Image, before: Record, after: Record)
    requires Findable(image)
    ensures Findable(UpdatedImage(image, before, after)) && Findable(DeletedImage(image, before))
  {
    if image != [] {
      assert Findable(image[1..]) by {
        assert forall i :: 0 <= i < |image[1..]| ==> image[1..][i] == image[i + 1];
      }
      UpdatedIsFindable(image[1..], before, after);
    }
  }

  /** A change of a plain table can be replayed when its rows are findable, and they stay so. */
  lemma PlainChangeReplays(c: Change, columns: seq<Name>, image: Image, key: Name)
    requires PlainRows(RecordsOf(image), key) && Findable(image) && Describes(c, RecordsOf(image), columns)
    ensures Replayable(c, image) && Findable(ReplayedImage(c, image))
  {
    UpdatedIsFindable(image, c.before, c.after);
    if c.action != INSERT {
      PlainIsKeyed(image, key);
      var i := RecordAt(image, c.before);
      KeyedReplayIff(c, image, key, i);
    }
  }

  ghost predicate AllFindable(images: Images) {
    forall t :: t in images ==> Findable(images[t])
  }

  lemma PlainStep(metadata: Metadata, keys: map<Name, Name>, images: Images, master: map<Name, multiset<Record>>,
                  c: Change)
    requires Agree(images, master) && master.Keys == metadata.Keys == keys.Keys && AllFindable(images)
    requires c.table in metadata && PlainRows(master[c.table], keys[c.table])
    requires Describes(c, master[c.table], metadata[c.table])
    ensures Replayable(c, images[c.table]) && AllFindable(ImagesAfter(images, c))
  {
    PlainChangeReplays(c, metadata[c.table], images[c.table], keys[c.table]);
  }

  /** Plain histories can always be replayed, whatever their values, once every row is findable. */
  lemma {:induction false} PlainHistoryReplays(metadata: Metadata, keys: map<Name, Name>, images: Images,
                                               master: map<Name, multiset<Record>>, changes: seq<Change>)
    requires Agree(images, master) && PlainHistory(metadata, keys, master, changes) && AllFindable(images)
    ensures History(metadata, master, changes) && AllReplayable(images, changes)
    decreases |changes|
  {
    if changes != [] {
      var c := changes[0];
      PlainStep(metadata, keys, images, master, c);
      AgreeAfter(images, master, c, metadata[c.table]);
      PlainHistoryReplays(metadata, keys, ImagesAfter(images, c),
                          master[c.table := MasterStep(c, master[c.table])], changes[1..]);
    }
  }

  /** A full copy of records spelled alike both ways keeps up with every plain history, whatever values that brings. */
  lemma ResyncThenReplay(metadata: Metadata, keys: map<Name, Name>, tables: map<Name, seq<Record>>,
                         changes: seq<Change>)
    requires PlainHistory(metadata, keys, Contents(tables), changes)
    requires forall t, i :: t in tables && 0 <= i < |tables[t]| ==> Alike(tables[t][i])
    ensures AgreeThroughout(CopiedImages(tables), Contents(tables), changes)
  {
    var images := CopiedImages(tables);
    CopyAgrees(tables);
    assert AllFindable(images);
    PlainHistoryReplays(metadata, keys, images, Contents(tables), changes);
    ReplicaFollowsMasterIff(metadata, images, Contents(tables), changes);
  }

  // ---- What a full copy reads ------------------------------------------------------------------

  /**
   How the reading of one master table goes: the query is refused, a row cannot be scanned after some rows,
   the iteration ends after some rows, or it ends and closing the result set fails. The code does not ask
   the result set why the iteration ended, so a broken connection looks like the end of the table.
   */
  datatype Reading = QueryRefused | ScanFails(after: nat) | Ends(after: nat) | CloseFails(after: nat)

  function Fetched(rows: seq<Record>, reading: Reading): (t: Table)
    ensures t <= CopyOf(rows)
  {
    match reading
    case QueryRefused => []
    case _ => if reading.after < |rows| then CopyOf(rows)[..reading.after] else CopyOf(rows)
  }

  predicate ReadToEnd(rows: seq<Record>, reading: Reading) {
    reading.Ends? && reading.after >= |rows|
  }

  /** Tables still to do are as they were, the others hold what was read of the master's. */
  ghost predicate Copied(now: map<Name, Table>, before: map<Name, Table>, master: map<Name, seq<Record>>,
                         reading: map<Name, Reading>, todo: set<Name>)
    requires now.Keys == before.Keys == master.Keys == reading.Keys
  {
    forall t :: t in master ==>
      if t in todo then now[t] == before[t] else reading[t].Ends? && now[t] == Fetched(master[t], reading[t])
  }

  /** After a failed copy each table is untouched or holds a leading part of the master's rows. */
  ghost predicate Partial(now: map<Name, Table>, before: map<Name, Table>, master: map<Name, seq<Record>>)
    requires now.Keys == before.Keys == master.Keys
  {
    forall t :: t in master ==> now[t] == before[t] || now[t] <= CopyOf(master[t])
  }

  /** A copy that ended well holds leading parts of all tables, and all rows exactly when all were read to the end. */
  lemma CopyIsWholeIff(now: map<Name, Table>, before: map<Name, Table>, master: map<Name, seq<Record>>,
                       reading: map<Name, Reading>)
    requires now.Keys == before.Keys == master.Keys == reading.Keys && Copied(now, before, master, reading, {})
    ensures forall t :: t in master ==> now[t] <= CopyOf(master[t])
    ensures now == CopiedTables(master) <==> forall t :: t in master ==> ReadToEnd(master[t], reading[t])
  {
    if now == CopiedTables(master) {
      forall t | t in master ensures ReadToEnd(master[t], reading[t]) {
        assert Fetched(master[t], reading[t]) == CopyOf(master[t]);
      }
    }
    if forall t :: t in master ==> ReadToEnd(master[t], reading[t]) {
      assert forall t :: t in master ==> now[t] == CopyOf(master[t]);
    }
  }

  /** One table more, filled with `t`. */
  lemma CopiedOneMore(now: map<Name, Table>, t: Table, before: map<Name, Table>, master: map<Name, seq<Record>>,
                      reading: map<Name, Reading>, todo: set<Name>, table: Name)
    requires now.Keys == before.Keys == master.Keys == reading.Keys && table in todo && table in master
    requires Copied(now, before, master, reading, todo)
    requires reading[table].Ends? && t == Fetched(master[table], reading[table])
    ensures Copied(now[table := t], before, master, reading, todo - {table})
  {}

  lemma CopyBroke(now: map<Name, Table>, t: Table, before: map<Name, Table>, master: map<Name, seq<Record>>,
                  reading: map<Name, Reading>, todo: set<Name>, table: Name)
    requires now.Keys == before.Keys == master.Keys == reading.Keys && table in todo && table in master
    requires Copied(now, before, master, reading, todo) && (t == now[table] || t <= CopyOf(master[table]))
    ensures Partial(now[table := t], before, master)
  {}

  /** The input: the connection breaks before the first row of a table of one row, and the copy holds none. */
  lemma BrokenReadTruncates(table: Name, record: Record, before: Table)
    ensures var master, reading := map[table := [record]], map[table := Ends(0)];
            && Copied(map[table := []], map[table := before], master, reading, {})
            && map[table := []] != CopiedTables(master)
  {
    assert Fetched([record], Ends(0)) == [];
    assert map[table := []][table] != CopiedTables(map[table := [record]])[table];
  }

  // ---- The replicator --------------------------------------------------------------------------

  datatype Failure =
    | NoPayload | MalformedPayload | UnknownTable | StatementFailed | MasterUnreadable | CacheTransactionFailed

  /** The stored record of an event: expired, not decodable, or the event. */
  datatype Payload = Expired | Malformed | Kept(change: Change)

  class BackupStorageReplicator {
    const metadata: Metadata
    var slave: map<Name, Table>

    constructor (metadata: Metadata)
      requires Schema(metadata)
      ensures this.metadata == metadata && Valid()
    {
      this.metadata := metadata;
      slave := map t | t in metadata :: [];
    }

    ghost predicate Valid()
      reads this
    {
      Schema(metadata) && slave.Keys == metadata.Keys
    }

    /** Sends one statement to the cache; `sql` must spell one, and its text decides what happens. */
    method Exec(sql: string, st: Statement, values: seq<Value>)
      requires Valid() && st.table in metadata
      requires Parse(sql) == Some(st)
      modifies this
      ensures Valid()
      ensures Parse(sql).Some? && slave == old(slave)[st.table := Apply(Parse(sql).value, values, old(slave)[st.table])]
    {
      slave := slave[st.table := Apply(st, values, slave[st.table])];
    }

    /** The positional values handleSyncEvent collects for one event. */
    method CollectValues(change: Change, columns: seq<Name>) returns (values: seq<Value>)
      ensures values == EventValues(Reported(change), columns)
    {
      match change.action {
        case INSERT =>
          values := AppendFields([], change.after, columns);
        case UPDATE =>
          values := AppendFields([], change.after, columns);
          values := AppendFields(values, change.before, columns);
        case DELETE =>
          values := AppendFields([], change.before, columns);
      }
    }

    method FormatEventSql(change: Change, columns: seq<Name>) returns (sql: string)
      ensures sql == Print(EventStatement(Reported(change), columns))
      ensures change.action == INSERT ==>
                sql == "insert into " + change.table + "(" + SqlText.List(columns, ", ") + ") values ("
                       + SqlText.List(Placeholders(|columns|, 1), ", ") + ")"
      ensures change.action == UPDATE ==>
                sql == "update " + change.table
                       + " set " + SqlText.List(Equations(columns, Placeholders(|columns|, 1)), ", ")
                       + " where " + SqlText.List(Equations(columns, Placeholders(|columns|, 1 + |columns|)), " and ")
      ensures change.action == DELETE ==>
                sql == "delete from " + change.table
                       + " where " + SqlText.List(Equations(columns, Placeholders(|columns|, 1)), " and ")
    {
      match change.action {
        case INSERT => sql := FormatInsertSql(change.table, columns);
        case UPDATE => sql := FormatUpdateSql(change.table, columns);
        case DELETE => sql := FormatDeleteSql(change.table, columns);
      }
    }

    /** handleSyncEvent; `accepted` says whether the cache executes the statement. */
    method HandleSyncEvent(payload: Payload, accepted: bool) returns (err: Option<Failure>)
      requires Valid()
      modifies this
      ensures Valid()
      ensures err == match payload
                     case Expired => Some(NoPayload)
                     case Malformed => Some(MalformedPayload)
                     case Kept(change) =>
                       if change.table !in metadata then Some(UnknownTable)
                       else if accepted then None else Some(StatementFailed)
      ensures err.Some? ==> slave == old(slave)
      ensures err.None? ==>
                var c := payload.change;
                slave == old(slave)[c.table := Replay(Reported(c), metadata[c.table], old(slave)[c.table])]
    {
      if payload.Expired? { return Some(NoPayload); }
      if payload.Malformed? { return Some(MalformedPayload); }
      var change := payload.change;
      if change.table !in metadata { return Some(UnknownTable); }
      var columns := metadata[change.table];
      var values := CollectValues(change, columns);
      var sql := FormatEventSql(change, columns);
      if !accepted { return Some(StatementFailed); }
      var st := EventStatement(Reported(change), columns);
      assert WellFormed(st);
      ParsePrinted(st);
      Exec(sql, st, values);
      err := None;
    }

    /** Appends the cells of a reported row, column by column; a column the report does not have is NULL. */
    method AppendFields(values: seq<Value>, record: Record, columns: seq<Name>) returns (r: seq<Value>)
      ensures r == values + Fields(EventRow(record), columns)
    {
      r := values;
      for i := 0 to |columns|
        invariant r == values + Fields(EventRow(record), columns)[..i]
      {
        r := r + [if columns[i] in record then EventCell(record[columns[i]]) else Null];
      }
    }

    /**
     cacheFullUpdate: every known table, in whatever order the map is iterated, is emptied and filled
     again from what is read of the master. `opens` says whether the transactions on master and cache can be
     opened, `commits` whether the one on the cache can be committed. At most `budget` statements on the
     cache succeed, all of them if none is given; they do not run inside that transaction, so a failure
     leaves what was done.
     */
    method CacheFullUpdate(master: map<Name, seq<Record>>, reading: map<Name, Reading>, budget: Option<nat>,
                           opens: bool, commits: bool)
      returns (err: Option<Failure>)
      requires Valid() && master.Keys == metadata.Keys == reading.Keys
      requires forall t, i :: t in metadata && 0 <= i < |master[t]| ==> HasColumns(master[t][i], metadata[t])
      modifies this
      ensures Valid()
      ensures err.None? ==> forall t :: t in master ==> reading[t].Ends? && slave[t] == Fetched(master[t], reading[t])
      ensures err.None? ==> forall t :: t in master ==> slave[t] <= CopyOf(master[t])
      ensures err.None? ==>
                (slave == CopiedTables(master) <==> forall t :: t in master ==> ReadToEnd(master[t], reading[t]))
      ensures err.Some? ==> Partial(slave, old(slave), master)
      ensures !opens ==> err.Some? && slave == old(slave)
      ensures budget.None? ==> (err.None? <==> opens && commits && forall t :: t in master ==> reading[t].Ends?)
    {
      if !opens { return Some(CacheTransactionFailed); }
      ghost var before := slave;
      var left, todo := budget, metadata.Keys;
      while todo != {}
        invariant Valid() && todo <= metadata.Keys
        invariant Copied(slave, before, master, reading, todo)
        invariant budget.None? ==> left.None?
      {
        ghost var now := slave;
        var table :| table in todo;
        left, err := CopyTable(table, master[table], reading[table], left);
        if err.Some? {
          CopyBroke(now, slave[table], before, master, reading, todo, table);
          return;
        }
        CopiedOneMore(now, slave[table], before, master, reading, todo, table);
        todo := todo - {table};
      }
      CopyIsWholeIff(slave, before, master, reading);
      err := if commits then None else Some(CacheTransactionFailed);
    }

    /** Empties one table of the cache and fills it row by row, as far as the master's rows are delivered. */
    method CopyTable(table: Name, rows: seq<Record>, reading: Reading, budget: Option<nat>)
      returns (left: Option<nat>, err: Option<Failure>)
      requires Valid() && table in metadata && forall i :: 0 <= i < |rows| ==> HasColumns(rows[i], metadata[table])
      modifies this
      ensures Valid()
      ensures slave == old(slave)[table := slave[table]]
      ensures err.None? ==> reading.Ends? && slave[table] == Fetched(rows, reading)
      ensures err.Some? ==> slave[table] == old(slave)[table] || slave[table] <= CopyOf(rows)
      ensures budget.None? ==> left.None? && (err.None? <==> reading.Ends?)
    {
      left, err := budget, None;
      if reading.QueryRefused? {
        return left, Some(MasterUnreadable);
      }
      if left == Some(0) {
        return left, Some(StatementFailed);
      }
      var fetched := Fetched(rows, reading);
      slave := slave[table := []];
      left, err := FillTable(table, fetched, rows, OneLess(left));
      if err.None? && !reading.Ends? {
        err := Some(MasterUnreadable);
      }
    }

    /** Inserts the rows delivered into the emptied table. */
    method FillTable(table: Name, fetched: Table, ghost rows: seq<Record>, budget: Option<nat>)
      returns (left: Option<nat>, err: Option<Failure>)
      requires Valid() && table in metadata && forall i :: 0 <= i < |rows| ==> HasColumns(rows[i], metadata[table])
      requires fetched <= CopyOf(rows) && slave[table] == []
      modifies this
      ensures Valid()
      ensures slave == old(slave)[table := slave[table]]
      ensures slave[table] <= CopyOf(rows)
      ensures err.None? ==> slave[table] == fetched
      ensures budget.None? ==> left.None? && err.None?
    {
      left, err := budget, None;
      for i := 0 to |fetched|
        invariant Valid()
        invariant slave == old(slave)[table := fetched[..i]]
        invariant budget.None? ==> left.None?
      {
        if left == Some(0) {
          return left, Some(StatementFailed);
        }
        left := OneLess(left);
        assert fetched[i] == CopyRow(rows[i]);
        InsertRow(table, fetched[i]);
        assert fetched[..i + 1] == fetched[..i] + [fetched[i]];
      }
      assert fetched[..|fetched|] == fetched;
    }

    /** Copies one row with the insert statement of its table. */
    method InsertRow(table: Name, row: Row)
      requires Valid() && table in metadata && HasColumns(row, metadata[table])
      modifies this
      ensures Valid() && slave == old(slave)[table := old(slave)[table] + [row]]
    {
      var columns := metadata[table];
      var sql := FormatInsertSql(table, columns);
      ParsePrinted(InsertAll(table, columns));
      var e := Event(table, INSERT, row, row);
      ReplayedInsert(e, columns, slave[table]);
      Exec(sql, InsertAll(table, columns), Fields(row, columns));
    }
  }
}
