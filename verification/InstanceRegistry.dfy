/**
 The registry of broker instances and its one default instance. Every operation is a short sequence of
 SQL statements inside a transaction; the Kafka and the RabbitMQ registries order those statements
 differently. Statements are functions on the table, operations are what a transaction commits.
 */
module InstanceRegistry {
  import opened Wrappers

  /** An instance id; only equality matters. */
  type Id = nat

  /** An instance as a request carries it and as a row stores it; `payload` is everything else. */
  datatype Instance = Instance(id: Id, isDefault: bool, payload: int)

  datatype Row = Row(isDefault: bool, payload: int)

  type Table = map<Id, Row>

  datatype Broker = Kafka | Rabbit

  datatype Error =
    | AlreadyRegistered | NotFound | NilDereference | ClearsDefault | RemovesDefault | InUse | NoRowMarked | Unhealthy

  // ---- SQL statements --------------------------------------------------------------------------

  function Create(t: Table, i: Instance): Result<Table, Error> {
    if i.id in t then Failure(AlreadyRegistered) else Success(t[i.id := Row(i.isDefault, i.payload)])
  }

  /** update ... set is_default = false where is_default = true */
  function ClearDefault(t: Table): (r: Table)
    ensures r.Keys == t.Keys && forall id :: id in t ==> r[id] == Row(false, t[id].payload)
  {
    map id | id in t :: if t[id].isDefault then t[id].(isDefault := false) else t[id]
  }

  /** update ... set is_default = true where id = ?; exactly one row must be affected. */
  function MarkDefault(t: Table, id: Id): Result<Table, Error> {
    if id in t then Success(t[id := t[id].(isDefault := true)]) else Failure(NoRowMarked)
  }

  function Save(t: Table, i: Instance): Table {
    t[i.id := Row(i.isDefault, i.payload)]
  }

  function SetDefaultStatements(t: Table, id: Id): Result<Table, Error> {
    MarkDefault(ClearDefault(t), id)
  }

  // ---- Operations, statement by statement ------------------------------------------------------

  datatype Operation =
    | Insert(instance: Instance)
    | Update(instance: Instance)
    | SetDefault(id: Id)
    | Remove(id: Id, inUse: bool)

  function InsertStatements(t: Table, i: Instance): Result<Table, Error> {
    var registrationsNotFound := |t| == 0;
    var created := Create(t, i);
    if created.Failure? then created
    else if i.isDefault || registrationsNotFound then SetDefaultStatements(created.value, i.id)
    else created
  }

  /** UpdateInstanceRegistration: Kafka saves and then sets the default, RabbitMQ the other way round. */
  function UpdateStatements(b: Broker, t: Table, i: Instance): Result<Table, Error> {
    if i.id !in t then Failure(NotFound)
    else if t[i.id].isDefault && !i.isDefault then Failure(ClearsDefault)
    else
      match b
      case Kafka =>
        var saved := Save(t, i);
        if i.isDefault then SetDefaultStatements(saved, i.id) else Success(saved)
      case Rabbit =>
        if i.isDefault then
          var marked := SetDefaultStatements(t, i.id);
          if marked.Failure? then marked else Success(Save(marked.value, i))
        else Success(Save(t, i))
  }

  /** RemoveInstanceRegistration: RabbitMQ's builds its error for an unknown id from the missing instance and panics. */
  function RemoveStatements(b: Broker, t: Table, id: Id, inUse: bool): Result<Table, Error> {
    if id !in t then Failure(if b.Kafka? then NotFound else NilDereference)
    else if t[id].isDefault && |t| > 1 then Failure(RemovesDefault)
    else if inUse then Failure(InUse)
    else Success(t - {id})
  }

  function Statements(b: Broker, t: Table, op: Operation): Result<Table, Error> {
    match op
    case Insert(i) => InsertStatements(t, i)
    case Update(i) => UpdateStatements(b, t, i)
    case SetDefault(id) => SetDefaultStatements(t, id)
    case Remove(id, inUse) => RemoveStatements(b, t, id, inUse)
  }

  /** What is committed: the outcome of all statements, or after an error what was there before. */
  function Close(t: Table, r: Result<Table, Error>): Table {
    if r.Success? then r.value else t
  }

  function ErrorOf(r: Result<Table, Error>): Option<Error> {
    if r.Success? then None else Some(r.error)
  }

  function Commit(b: Broker, t: Table, op: Operation): Table {
    Close(t, Statements(b, t, op))
  }

  // ---- One default -----------------------------------------------------------------------------

  ghost predicate IsTheDefault(t: Table, id: Id) {
    id in t && forall x :: x in t ==> (t[x].isDefault <==> x == id)
  }

  ghost predicate OneDefault(t: Table) {
    t == map[] || exists id :: IsTheDefault(t, id)
  }

  /** The effect of an operation said without statements: the other rows and the default after it. */
  ghost predicate Achieves(t: Table, op: Operation, after: Table) {
    match op
    case Insert(i) =>
      && after.Keys == t.Keys + {i.id} && i.id !in t
      && after[i.id].payload == i.payload
      && (forall x :: x in t ==> after[x].payload == t[x].payload)
      && (if i.isDefault || t == map[] then IsTheDefault(after, i.id)
          else forall d :: IsTheDefault(t, d) ==> IsTheDefault(after, d))
    case Update(i) =>
      && after.Keys == t.Keys && i.id in t
      && after[i.id].payload == i.payload
      && (forall x :: x in t && x != i.id ==> after[x].payload == t[x].payload)
      && (if i.isDefault then IsTheDefault(after, i.id)
          else forall d :: IsTheDefault(t, d) ==> IsTheDefault(after, d))
    case SetDefault(id) =>
      && after.Keys == t.Keys && (forall x :: x in t ==> after[x].payload == t[x].payload)
      && IsTheDefault(after, id)
    case Remove(id, _) =>
      && id in t && after == t - {id}
      && (forall d :: IsTheDefault(t, d) && d != id ==> IsTheDefault(after, d))
      && (IsTheDefault(t, id) ==> after == map[])
  }

  /** When an operation is refused: exactly in these cases. */
  predicate Refused(t: Table, op: Operation) {
    match op
    case Insert(i) => i.id in t
    case Update(i) => i.id !in t || (t[i.id].isDefault && !i.isDefault)
    case SetDefault(id) => id !in t
    case Remove(id, inUse) => id !in t || (t[id].isDefault && |t| > 1) || inUse
  }

  lemma LastRow(t: Table, id: Id)
    requires id in t && |t| <= 1
    ensures t - {id} == map[]
  {
    assert t.Keys == {id} + (t.Keys - {id});
    assert |t.Keys| == 1 + |t.Keys - {id}|;
    assert (t - {id}).Keys == {};
  }

  lemma SetDefaultAchieves(t: Table, id: Id)
    ensures SetDefaultStatements(t, id).Success? <==> id in t
    ensures id in t ==> Achieves(t, SetDefault(id), SetDefaultStatements(t, id).value)
  {}

  lemma InsertAchieves(t: Table, i: Instance)
    requires OneDefault(t)
    ensures InsertStatements(t, i).Success? <==> i.id !in t
    ensures i.id !in t ==> Achieves(t, Insert(i), InsertStatements(t, i).value)
  {
    if i.id !in t {
      var created := Create(t, i).value;
      SetDefaultAchieves(created, i.id);
      assert created.Keys == t.Keys + {i.id};
      if t != map[] && !i.isDefault {
        assert |t.Keys| != 0;
        assert forall d :: IsTheDefault(t, d) ==> IsTheDefault(created, d);
      }
    }
  }

  /** Kafka's and RabbitMQ's write orders have the same outcome. */
  lemma WriteOrderIsImmaterial(t: Table, i: Instance)
    ensures UpdateStatements(Kafka, t, i) == UpdateStatements(Rabbit, t, i)
  {
    if i.id in t && i.isDefault {
      var k := SetDefaultStatements(Save(t, i), i.id).value;
      var r := Save(SetDefaultStatements(t, i.id).value, i);
      assert forall x :: x in t ==>
          k[x] == r[x] == (if x == i.id then Row(true, i.payload) else Row(false, t[x].payload));
      assert k == r;
    }
  }

  lemma UpdateAchieves(b: Broker, t: Table, i: Instance)
    requires OneDefault(t)
    ensures UpdateStatements(b, t, i).Success? <==> !Refused(t, Update(i))
    ensures !Refused(t, Update(i)) ==> Achieves(t, Update(i), UpdateStatements(b, t, i).value)
  {
    WriteOrderIsImmaterial(t, i);
    if !Refused(t, Update(i)) {
      var saved := Save(t, i);
      assert saved.Keys == t.Keys;
      SetDefaultAchieves(saved, i.id);
    }
  }

  /** Both registries refuse the same requests and achieve the same effects. */
  lemma OperationAchieves(b: Broker, t: Table, op: Operation)
    requires OneDefault(t)
    ensures Statements(b, t, op).Failure? <==> Refused(t, op)
    ensures Statements(b, t, op).Success? ==> Achieves(t, op, Statements(b, t, op).value)
  {
    match op
    case Insert(i) => InsertAchieves(t, i);
    case Update(i) => UpdateAchieves(b, t, i);
    case SetDefault(id) => SetDefaultAchieves(t, id);
    case Remove(id, inUse) =>
      if id in t && |t| <= 1 {
        LastRow(t, id);
      }
  }

  lemma OneDefaultIsKept(b: Broker, t: Table, op: Operation)
    requires OneDefault(t)
    ensures OneDefault(Commit(b, t, op))
  {
    OperationAchieves(b, t, op);
    var r := Statements(b, t, op);
    if r.Success? && t != map[] {
      var d :| IsTheDefault(t, d);
      match op
      case Insert(i) => assert IsTheDefault(r.value, if i.isDefault then i.id else d);
      case Update(i) => assert IsTheDefault(r.value, if i.isDefault then i.id else d);
      case SetDefault(id) => assert IsTheDefault(r.value, id);
      case Remove(id, _) => assert d != id ==> IsTheDefault(r.value, d);
    } else if r.Success? {
      assert op.Insert? && IsTheDefault(r.value, op.instance.id);
    }
  }

  function Run(b: Broker, t: Table, ops: seq<Operation>): Table
    decreases |ops|
  {
    if ops == [] then t else Run(b, Commit(b, t, ops[0]), ops[1..])
  }

  /** Every committed registry is empty or has exactly one default, in either registry, on every run. */
  lemma {:induction false} AlwaysOneDefault(b: Broker, t: Table, ops: seq<Operation>)
    requires OneDefault(t)
    ensures OneDefault(Run(b, t, ops))
    ensures Run(b, t, ops) == Run(if b.Kafka? then Rabbit else Kafka, t, ops)
    decreases |ops|
  {
    if ops != [] {
      OneDefaultIsKept(b, t, ops[0]);
      if ops[0].Update? {
        WriteOrderIsImmaterial(t, ops[0].instance);
      }
      AlwaysOneDefault(b, Commit(b, t, ops[0]), ops[1..]);
    }
  }

  // ---- The DAO ---------------------------------------------------------------------------------

  class InstancesDao {
    const broker: Broker
    var rows: Table

    constructor (broker: Broker)
      ensures this.broker == broker && rows == map[] && Valid()
    {
      this.broker, rows := broker, map[];
    }

    /** The invariant of every committed state. */
    ghost predicate Valid()
      reads this
    {
      OneDefault(rows)
    }

    method InsertInstanceRegistration(instance: Instance) returns (err: Option<Error>)
      requires Valid()
      modifies this
      ensures Valid() && rows == Commit(broker, old(rows), Insert(instance))
      ensures err == if instance.id in old(rows) then Some(AlreadyRegistered) else None
      ensures if err.None? then Achieves(old(rows), Insert(instance), rows) else rows == old(rows)
    {
      OneDefaultIsKept(broker, rows, Insert(instance));
      OperationAchieves(broker, rows, Insert(instance));
      var registrationsNotFound := |rows| == 0;
      var tx := Create(rows, instance);
      if tx.Success? {
        if instance.isDefault || registrationsNotFound {
          tx := SetDefaultOn(tx.value, instance.id);
        }
      }
      rows, err := Close(rows, tx), ErrorOf(tx);
    }

    /** SetDefaultInstance inside a transaction that is already open on table `t`. */
    method SetDefaultOn(t: Table, id: Id) returns (tx: Result<Table, Error>)
      ensures tx == SetDefaultStatements(t, id)
    {
      var cleared := ClearDefault(t);
      tx := MarkDefault(cleared, id);
    }

    method UpdateInstanceRegistration(instance: Instance) returns (err: Option<Error>)
      requires Valid()
      modifies this
      ensures Valid() && rows == Commit(broker, old(rows), Update(instance))
      ensures err == Some(NotFound) <==> instance.id !in old(rows)
      ensures err in {None, Some(NotFound), Some(ClearsDefault)}
      ensures if err.None? then Achieves(old(rows), Update(instance), rows) else rows == old(rows)
      ensures err == Some(ClearsDefault) <==>
                instance.id in old(rows) && old(rows)[instance.id].isDefault && !instance.isDefault
    {
      OneDefaultIsKept(broker, rows, Update(instance));
      OperationAchieves(broker, rows, Update(instance));
      if instance.id !in rows { return Some(NotFound); }
      if rows[instance.id].isDefault && !instance.isDefault { return Some(ClearsDefault); }
      var tx: Result<Table, Error> := Success(rows);
      if broker == Kafka {
        tx := Success(Save(rows, instance));
        if instance.isDefault {
          tx := SetDefaultOn(tx.value, instance.id);
        }
      } else {
        if instance.isDefault {
          tx := SetDefaultOn(rows, instance.id);
        }
        tx := if tx.Success? then Success(Save(tx.value, instance)) else tx;
      }
      rows, err := Close(rows, tx), ErrorOf(tx);
    }

    method SetDefaultInstance(id: Id) returns (err: Option<Error>)
      requires Valid()
      modifies this
      ensures Valid() && rows == Commit(broker, old(rows), SetDefault(id))
      ensures err == if id in old(rows) then None else Some(NoRowMarked)
      ensures if err.None? then Achieves(old(rows), SetDefault(id), rows) else rows == old(rows)
    {
      OneDefaultIsKept(broker, rows, SetDefault(id));
      OperationAchieves(broker, rows, SetDefault(id));
      var tx := SetDefaultOn(rows, id);
      rows, err := Close(rows, tx), ErrorOf(tx);
    }

    method RemoveInstanceRegistration(id: Id, inUse: bool) returns (err: Option<Error>)
      requires Valid()
      modifies this
      ensures Valid() && rows == Commit(broker, old(rows), Remove(id, inUse))
      ensures err == ErrorOf(Statements(broker, old(rows), Remove(id, inUse)))
      ensures err == Some(NilDereference) <==> broker == Rabbit && id !in old(rows)
      ensures err == Some(NotFound) <==> broker == Kafka && id !in old(rows)
      ensures err == Some(RemovesDefault) <==> id in old(rows) && old(rows)[id].isDefault && |old(rows)| > 1
      ensures if err.None? then !inUse && Achieves(old(rows), Remove(id, inUse), rows) else rows == old(rows)
    {
      OneDefaultIsKept(broker, rows, Remove(id, inUse));
      OperationAchieves(broker, rows, Remove(id, inUse));
      if id !in rows { return Some(if broker == Kafka then NotFound else NilDereference); }
      if rows[id].isDefault && |rows| > 1 { return Some(RemovesDefault); }
      if inUse { return Some(InUse); }
      rows, err := rows - {id}, None;
    }

    method GetDefaultInstance() returns (id: Option<Id>)
      requires Valid()
      ensures id == DefaultOf(rows)
    {
      if exists x :: x in rows && rows[x].isDefault {
        var x :| x in rows && rows[x].isDefault;
        id := Some(x);
      } else {
        id := None;
      }
    }
  }

  /** The default instance, if there is one. */
  ghost function DefaultOf(t: Table): (r: Option<Id>)
    ensures OneDefault(t) ==> (r.None? <==> t == map[])
    ensures OneDefault(t) && r.Some? ==> IsTheDefault(t, r.value)
  {
    if x :| x in t && t[x].isDefault then Some(x) else None
  }

  // ---- Registration from the bootstrap files ---------------------------------------------------

  predicate DistinctIds(file: seq<Instance>) {
    forall i, j :: 0 <= i < j < |file| ==> file[i].id != file[j].id
  }

  /** The stored default has priority over the flags in the file. */
  function Reflag(file: seq<Instance>, d: Id): (r: seq<Instance>)
    ensures |r| == |file| && forall i :: 0 <= i < |r| ==> r[i] == file[i].(isDefault := file[i].id == d)
  {
    seq(|file|, i requires 0 <= i < |file| => file[i].(isDefault := file[i].id == d))
  }

  /** The file as the loop sees it. */
  ghost function Flagged(t: Table, file: seq<Instance>): (r: seq<Instance>)
    ensures |r| == |file|
  {
    if DefaultOf(t).Some? then Reflag(file, DefaultOf(t).value) else file
  }

  /** One step of the loop: register an unknown instance, update a known one. */
  function BootOperation(t: Table, i: Instance): Operation {
    if i.id in t then Update(i) else Insert(i)
  }

  function Boot(b: Broker, t: Table, file: seq<Instance>): Table
    decreases |file|
  {
    if file == [] then t else Boot(b, Commit(b, t, BootOperation(t, file[0])), file[1..])
  }

  function LastFlagged(file: seq<Instance>): Option<Id> {
    if file == [] then None
    else
      var later := LastFlagged(file[1..]);
      if later.Some? then later else if file[0].isDefault then Some(file[0].id) else None
  }

  /** The default after a file: the last instance flagged, else the one before it, else the first instance. */
  function DefaultAfter(d: Option<Id>, file: seq<Instance>): Option<Id> {
    var flagged := LastFlagged(file);
    if flagged.Some? then flagged else if d.Some? || file == [] then d else Some(file[0].id)
  }

  /** The j-th instance would clear the flag of what is the default by then. */
  predicate Clears(d: Option<Id>, file: seq<Instance>, j: nat)
    requires j < |file|
  {
    !file[j].isDefault && DefaultAfter(d, file[..j]) == Some(file[j].id)
  }

  lemma {:induction false} LastFlaggedSnoc(file: seq<Instance>, i: Instance)
    ensures LastFlagged(file + [i]) == if i.isDefault then Some(i.id) else LastFlagged(file)
  {
    if file == [] {
      assert LastFlagged([i][1..]) == None;
    } else {
      assert (file + [i])[1..] == file[1..] + [i];
      LastFlaggedSnoc(file[1..], i);
    }
  }

  lemma DefaultAfterSnoc(d: Option<Id>, file: seq<Instance>, n: nat)
    requires n < |file|
    ensures DefaultAfter(d, file[..n + 1]) ==
              var before := DefaultAfter(d, file[..n]);
              if file[n].isDefault || before.None? then Some(file[n].id) else before
  {
    assert file[..n + 1] == file[..n] + [file[n]];
    LastFlaggedSnoc(file[..n], file[n]);
  }

  lemma DefaultIs(t: Table, id: Id)
    requires IsTheDefault(t, id)
    ensures OneDefault(t) && DefaultOf(t) == Some(id)
  {
    assert t[id].isDefault;
  }

  /** One instance moves the default if it is flagged or the first, and is refused iff it clears the flag. */
  lemma BootStep(b: Broker, t: Table, i: Instance)
    requires OneDefault(t)
    ensures Refused(t, BootOperation(t, i)) <==> !i.isDefault && DefaultOf(t) == Some(i.id)
    ensures var after := Commit(b, t, BootOperation(t, i));
            && OneDefault(after)
            && DefaultOf(after) == if i.isDefault || DefaultOf(t).None? then Some(i.id) else DefaultOf(t)
  {
    var op := BootOperation(t, i);
    var after := Commit(b, t, op);
    OperationAchieves(b, t, op);
    OneDefaultIsKept(b, t, op);
    if i.isDefault || DefaultOf(t).None? {
      DefaultIs(after, i.id);
    } else if !Refused(t, op) {
      DefaultIs(after, DefaultOf(t).value);
    }
  }

  lemma {:induction false} BootSnoc(b: Broker, t: Table, file: seq<Instance>, n: nat)
    requires n < |file|
    ensures Boot(b, t, file[..n + 1]) ==
              var before := Boot(b, t, file[..n]); Commit(b, before, BootOperation(before, file[n]))
    decreases n
  {
    if n > 0 {
      assert file[..n + 1][1..] == file[1..][..n] && file[..n][1..] == file[1..][..n - 1];
      BootSnoc(b, Commit(b, t, BootOperation(t, file[0])), file[1..], n - 1);
    }
  }

  /**
   For every registry and every file, repeated ids or not: as long as no instance clears the flag of the
   default by then, each is accepted and the default is the last flagged, else the one before, else the first.
   */
  lemma {:induction false} BootDefault(b: Broker, t: Table, file: seq<Instance>, n: nat)
    requires OneDefault(t) && n <= |file| && forall j :: 0 <= j < n ==> !Clears(DefaultOf(t), file, j)
    ensures OneDefault(Boot(b, t, file[..n]))
    ensures DefaultOf(Boot(b, t, file[..n])) == DefaultAfter(DefaultOf(t), file[..n])
    decreases n
  {
    if n > 0 {
      BootDefault(b, t, file, n - 1);
      BootSnoc(b, t, file, n - 1);
      BootStep(b, Boot(b, t, file[..n - 1]), file[n - 1]);
      DefaultAfterSnoc(DefaultOf(t), file, n - 1);
    }
  }

  /** The payload at the last occurrence of an id among the first n instances of a file. */
  function LastPayload(file: seq<Instance>, n: nat, id: Id): (r: Option<int>)
    requires n <= |file|
    ensures r.None? ==> forall j :: 0 <= j < n ==> file[j].id != id
    ensures r.Some? ==> exists j :: 0 <= j < n && file[j].id == id && file[j].payload == r.value
                                    && forall k :: j < k < n ==> file[k].id != id
  {
    if n == 0 then None
    else if file[n - 1].id == id then Some(file[n - 1].payload)
    else LastPayload(file, n - 1, id)
  }

  /** The rows are those stored before and those of the first n instances, each with what its last occurrence says. */
  ghost predicate HoldsFile(t: Table, file: seq<Instance>, n: nat, after: Table)
    requires n <= |file|
  {
    forall id ::
      var last := LastPayload(file, n, id);
      && (id in after <==> id in t || last.Some?)
      && (id in after ==> after[id].payload == if last.Some? then last.value else t[id].payload)
  }

  lemma BootEffect(before: Table, i: Instance, after: Table)
    requires Achieves(before, BootOperation(before, i), after)
    ensures after.Keys == before.Keys + {i.id} && after[i.id].payload == i.payload
    ensures forall x :: x in before && x != i.id ==> x in after && after[x].payload == before[x].payload
  {}

  lemma HoldsOneMore(t: Table, file: seq<Instance>, n: nat, before: Table, after: Table)
    requires n < |file| && HoldsFile(t, file, n, before)
    requires after.Keys == before.Keys + {file[n].id} && after[file[n].id].payload == file[n].payload
    requires forall x :: x in before && x != file[n].id ==> x in after && after[x].payload == before[x].payload
    ensures HoldsFile(t, file, n + 1, after)
  {}

  lemma BootAchieves(b: Broker, t: Table, file: seq<Instance>, n: nat)
    requires OneDefault(t) && n < |file| && forall j :: 0 <= j <= n ==> !Clears(DefaultOf(t), file, j)
    ensures var before := Boot(b, t, file[..n]);
            Achieves(before, BootOperation(before, file[n]), Boot(b, t, file[..n + 1]))
  {
    BootSnoc(b, t, file, n);
    BootDefault(b, t, file, n);
    BootRefusesIff(b, t, file, n);
    OperationAchieves(b, Boot(b, t, file[..n]), BootOperation(Boot(b, t, file[..n]), file[n]));
  }

  /** The loop registers what is unknown and updates what is known, whatever becomes of the default. */
  lemma {:induction false} BootHolds(b: Broker, t: Table, file: seq<Instance>, n: nat)
    requires OneDefault(t) && n <= |file| && forall j :: 0 <= j < n ==> !Clears(DefaultOf(t), file, j)
    ensures HoldsFile(t, file, n, Boot(b, t, file[..n]))
    decreases n
  {
    if n > 0 {
      var k := n - 1;
      BootHolds(b, t, file, k);
      BootAchieves(b, t, file, k);
      BootEffect(Boot(b, t, file[..k]), file[k], Boot(b, t, file[..n]));
      HoldsOneMore(t, file, k, Boot(b, t, file[..k]), Boot(b, t, file[..n]));
    }
  }

  /** The flags do not matter for what the rows hold. */
  lemma {:induction false} FlagsAside(file: seq<Instance>, other: seq<Instance>, n: nat, id: Id)
    requires n <= |file| == |other|
    requires forall i :: 0 <= i < |file| ==> file[i].id == other[i].id && file[i].payload == other[i].payload
    ensures LastPayload(file, n, id) == LastPayload(other, n, id)
  {
    if n > 0 {
      FlagsAside(file, other, n - 1, id);
    }
  }

  /** Exactly when an instance of the file is refused, all before it having been accepted. */
  lemma BootRefusesIff(b: Broker, t: Table, file: seq<Instance>, n: nat)
    requires OneDefault(t) && n < |file| && forall j :: 0 <= j < n ==> !Clears(DefaultOf(t), file, j)
    ensures var before := Boot(b, t, file[..n]);
            Refused(before, BootOperation(before, file[n])) <==> Clears(DefaultOf(t), file, n)
  {
    BootDefault(b, t, file, n);
    BootStep(b, Boot(b, t, file[..n]), file[n]);
  }

  lemma {:induction false} FlaggedIsInFile(file: seq<Instance>)
    ensures LastFlagged(file).Some? ==>
              exists i :: 0 <= i < |file| && file[i].isDefault && file[i].id == LastFlagged(file).value
  {
    if file != [] {
      FlaggedIsInFile(file[1..]);
      if LastFlagged(file[1..]).Some? {
        var i :| 0 <= i < |file[1..]| && file[1..][i].isDefault && file[1..][i].id == LastFlagged(file[1..]).value;
        assert file[i + 1].isDefault;
      }
    }
  }

  /** From the empty registry a file of distinct ids is accepted whole; so is any file under a stored default. */
  lemma NothingClears(file: seq<Instance>, d: Option<Id>, j: nat)
    requires j < |file|
    requires if d.Some? then forall i :: 0 <= i < |file| ==> (file[i].isDefault <==> file[i].id == d.value)
             else DistinctIds(file)
    ensures !Clears(d, file, j)
  {
    FlaggedIsInFile(file[..j]);
  }

  /** From the empty registry the default is the last instance flagged, or the first when none is. */
  lemma BootFromEmpty(b: Broker, file: seq<Instance>)
    requires file != [] && forall j :: 0 <= j < |file| ==> !Clears(None, file, j)
    ensures IsTheDefault(Boot(b, map[], file), DefaultAfter(None, file).value)
    ensures DefaultAfter(None, file) == if LastFlagged(file).Some? then LastFlagged(file) else Some(file[0].id)
  {
    assert DefaultOf(map[]) == None;
    assert file[..|file|] == file;
    BootDefault(b, map[], file, |file|);
  }

  /** With a default in place, a file flagged after it is accepted whole and leaves the default alone. */
  lemma BootKeepsDefault(b: Broker, t: Table, file: seq<Instance>, d: Id)
    requires IsTheDefault(t, d)
    requires forall i :: 0 <= i < |file| ==> (file[i].isDefault <==> file[i].id == d)
    ensures IsTheDefault(Boot(b, t, file), d)
    ensures forall n :: 0 <= n < |file| ==>
              var before := Boot(b, t, file[..n]); !Refused(before, BootOperation(before, file[n]))
  {
    DefaultIs(t, d);
    forall j | 0 <= j < |file| ensures !Clears(Some(d), file, j) {
      NothingClears(file, Some(d), j);
    }
    assert file[..|file|] == file;
    BootDefault(b, t, file, |file|);
    FlaggedIsInFile(file);
    forall n | 0 <= n < |file|
      ensures var before := Boot(b, t, file[..n]); !Refused(before, BootOperation(before, file[n]))
    {
      BootRefusesIff(b, t, file, n);
    }
  }

  /** One turn of the loop over a healthy instance, `t` being the table before the first. */
  method RegisterOne(dao: InstancesDao, instance: Instance, ghost t: Table, ghost file: seq<Instance>, ghost n: nat)
    returns (err: Option<Error>)
    requires dao.Valid() && OneDefault(t) && n < |file| && instance == file[n]
    requires forall j :: 0 <= j < n ==> !Clears(DefaultOf(t), file, j)
    requires dao.rows == Boot(dao.broker, t, file[..n])
    modifies dao
    ensures dao.Valid()
    ensures err == if Clears(DefaultOf(t), file, n) then Some(ClearsDefault) else None
    ensures dao.rows == if err.None? then Boot(dao.broker, t, file[..n + 1]) else old(dao.rows)
  {
    OperationAchieves(dao.broker, dao.rows, BootOperation(dao.rows, instance));
    BootSnoc(dao.broker, t, file, n);
    BootRefusesIff(dao.broker, t, file, n);
    if instance.id in dao.rows {
      err := dao.UpdateInstanceRegistration(instance);
    } else {
      err := dao.InsertInstanceRegistration(instance);
    }
  }

  /** The loop over the instances, which stops at the first that is unhealthy or would clear the default's flag. */
  method RegisterAll(dao: InstancesDao, instances: seq<Instance>, healthy: seq<bool>)
    returns (err: Option<Error>, done: nat)
    requires dao.Valid() && |healthy| == |instances|
    modifies dao
    ensures dao.Valid() && done <= |instances|
    ensures dao.rows == Boot(dao.broker, old(dao.rows), instances[..done])
    ensures forall j :: 0 <= j < done ==> healthy[j] && !Clears(DefaultOf(old(dao.rows)), instances, j)
    ensures err == (if done == |instances| then None
                    else if !healthy[done] then Some(Unhealthy) else Some(ClearsDefault))
    ensures done < |instances| && healthy[done] ==> Clears(DefaultOf(old(dao.rows)), instances, done)
  {
    err, done := None, 0;
    ghost var initial := dao.rows;
    while done < |instances|
      invariant 0 <= done <= |instances| && dao.Valid() && err.None?
      invariant dao.rows == Boot(dao.broker, initial, instances[..done])
      invariant forall j :: 0 <= j < done ==> healthy[j] && !Clears(DefaultOf(initial), instances, j)
    {
      if !healthy[done] {
        return Some(Unhealthy), done;
      }
      err := RegisterOne(dao, instances[done], initial, instances, done);
      if err.Some? {
        return;
      }
      done := done + 1;
    }
  }

  /**
   registerInstance. `healthy[i]` says whether the i-th instance passes the health check of Register or
   Update; what was committed before the loop stops stays. With a stored default only an unhealthy instance
   stops it. An empty registry refuses exactly an instance that is not flagged and repeats the id which is
   the default by then.
   */
  method RegisterInstances(dao: InstancesDao, file: seq<Instance>, healthy: seq<bool>)
    returns (err: Option<Error>, done: nat)
    requires dao.Valid() && |healthy| == |file|
    modifies dao
    ensures dao.Valid() && done <= |file|
    ensures dao.rows == Boot(dao.broker, old(dao.rows), Flagged(old(dao.rows), file)[..done])
    ensures err == (if done == |file| then None else if !healthy[done] then Some(Unhealthy) else Some(ClearsDefault))
    ensures forall j :: 0 <= j < done ==> healthy[j]
    ensures HoldsFile(old(dao.rows), file, done, dao.rows)
    ensures DefaultOf(old(dao.rows)).Some? ==>
              err != Some(ClearsDefault) && IsTheDefault(dao.rows, DefaultOf(old(dao.rows)).value)
    ensures old(dao.rows) == map[] ==>
              && (forall j :: 0 <= j < done ==> !Clears(None, file, j))
              && (err == Some(ClearsDefault) ==> Clears(None, file, done))
              && (done > 0 ==> IsTheDefault(dao.rows, DefaultAfter(None, file[..done]).value))
    ensures DistinctIds(file) ==> err != Some(ClearsDefault)
  {
    ghost var initial := dao.rows;
    var stored := dao.GetDefaultInstance();
    var instances := if stored.Some? then Reflag(file, stored.value) else file;
    err, done := RegisterAll(dao, instances, healthy);
    BootDefault(dao.broker, initial, instances, done);
    BootHolds(dao.broker, initial, instances, done);
    forall id ensures LastPayload(instances, done, id) == LastPayload(file, done, id) {
      FlagsAside(instances, file, done, id);
    }
    if stored.Some? {
      FlaggedIsInFile(instances[..done]);
    }
    if done < |file| && (stored.Some? || DistinctIds(file)) {
      NothingClears(instances, stored, done);
    }
  }

  /** A repeated id is refused when it comes back unflagged as the default, and accepted when it comes back flagged. */
  lemma RepeatedIdIsRejected(b: Broker, id: Id, payload: int)
    ensures Clears(None, [Instance(id, true, payload), Instance(id, false, payload)], 1)
    ensures forall j :: 0 <= j < 2 ==> !Clears(None, [Instance(id, true, payload), Instance(id, true, payload)], j)
    ensures var t := Commit(b, map[], BootOperation(map[], Instance(id, true, payload)));
            Refused(t, BootOperation(t, Instance(id, false, payload)))
  {
    var file := [Instance(id, true, payload), Instance(id, false, payload)];
    assert file[..1] == [] + [file[0]];
    LastFlaggedSnoc([], file[0]);
    BootStep(b, map[], file[0]);
    BootStep(b, Commit(b, map[], BootOperation(map[], file[0])), file[1]);
  }
}
