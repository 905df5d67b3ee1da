/**
 The registry of composites: groups of namespaces, each named after its baseline namespace. The tables
 have surrogate keys, a unique index on the namespace, a deferred guard and a cascading table of modify
 indexes; what they represent is a partition of namespaces with an index per composite.
 */
module Composite {
  import opened Wrappers

  /** A namespace name; only equality and the order of query results matter. */
  type Namespace = nat

  datatype Registration = Registration(id: Namespace, namespaces: seq<Namespace>, modifyIndex: Option<nat>)

  datatype Error = StaleIndex | EmptyInsert | NamespaceTaken | BaselineMissing

  // ---- What the tables represent ---------------------------------------------------------------

  datatype Composites = Composites(owner: map<Namespace, Namespace>, index: map<Namespace, nat>)

  function StoredIndex(c: Composites, id: Namespace): nat {
    if id in c.index then c.index[id] else 0
  }

  predicate Distinct(s: seq<Namespace>) {
    forall i, j :: 0 <= i < j < |s| ==> s[i] != s[j]
  }

  /** Exactly the registrations that are accepted. */
  predicate Accepts(c: Composites, r: Registration) {
    && r.id in r.namespaces && Distinct(r.namespaces)
    && (forall n :: n in r.namespaces && n in c.owner ==> c.owner[n] == r.id)
    && (r.modifyIndex.Some? ==> r.modifyIndex.value >= StoredIndex(c, r.id))
  }

  function Without(c: Composites, id: Namespace): Composites {
    Composites(map n | n in c.owner && c.owner[n] != id :: c.owner[n], c.index - {id})
  }

  function Replaced(c: Composites, r: Registration): Composites {
    var rest := Without(c, r.id);
    Composites(rest.owner + (map n | n in r.namespaces :: r.id),
               if r.modifyIndex.Some? then rest.index[r.id := r.modifyIndex.value] else rest.index)
  }

  datatype Operation = Upsert(registration: Registration) | Destroy(id: Namespace) | Cleanup(namespace: Namespace)

  /** What a committed operation does to the partition. */
  function Step(c: Composites, op: Operation): Composites {
    match op
    case Upsert(r) => if Accepts(c, r) then Replaced(c, r) else c
    case Destroy(id) => Without(c, id)
    case Cleanup(ns) =>
      if ns !in c.owner then c
      else if c.owner[ns] == ns then Without(c, ns)
      else Composites(c.owner - {ns}, c.index - {c.owner[ns]})
  }

  function Run(c: Composites, ops: seq<Operation>): Composites
    decreases |ops|
  {
    if ops == [] then c else Run(Step(c, ops[0]), ops[1..])
  }

  /** Every composite contains its baseline, and only composites have an index. */
  ghost predicate Sound(c: Composites) {
    && (forall n :: n in c.owner ==> c.owner[n] in c.owner && c.owner[c.owner[n]] == c.owner[n])
    && (forall id :: id in c.index ==> id in c.owner && c.owner[id] == id)
  }

  lemma StepIsSound(c: Composites, op: Operation)
    requires Sound(c)
    ensures Sound(Step(c, op))
  {}

  /** Over every run of operations, refused ones included, each composite contains its baseline. */
  lemma {:induction false} AlwaysSound(c: Composites, ops: seq<Operation>)
    requires Sound(c)
    ensures Sound(Run(c, ops))
    decreases |ops|
  {
    if ops != [] {
      StepIsSound(c, ops[0]);
      AlwaysSound(Step(c, ops[0]), ops[1..]);
    }
  }

  ghost predicate SameComposite(c: Composites, d: Composites, id: Namespace) {
    && (forall n :: (n in c.owner && c.owner[n] == id) <==> (n in d.owner && d.owner[n] == id))
    && StoredIndex(c, id) == StoredIndex(d, id)
  }

  /** Cleaning a namespace removes it, or its whole composite, and leaves every other composite alone. */
  lemma CleanupIsLocal(c: Composites, ns: Namespace, id: Namespace)
    requires Sound(c)
    ensures var d := Step(c, Cleanup(ns));
            && ns !in d.owner
            && (!(ns in c.owner && c.owner[ns] == id) ==> SameComposite(c, d, id))
            && (ns in c.owner && c.owner[ns] == id && id != ns ==>
                  forall n :: (n in d.owner && d.owner[n] == id) <==> (n in c.owner && c.owner[n] == id && n != ns))
            && (ns in c.owner && c.owner[ns] == ns ==> forall n :: n in d.owner ==> d.owner[n] != ns)
  {}

  /**
   An accepted registration makes exactly its list the composite and stores exactly its index; former members
   it does not name belong to no composite, and every other composite stays as it was.
   */
  lemma UpsertReplaces(c: Composites, r: Registration, id: Namespace)
    requires Sound(c) && Accepts(c, r)
    ensures var d := Step(c, Upsert(r));
            && (forall n :: (n in d.owner && d.owner[n] == r.id) <==> n in r.namespaces)
            && (forall n :: n in c.owner && c.owner[n] == r.id && n !in r.namespaces ==> n !in d.owner)
            && (r.id in d.index <==> r.modifyIndex.Some?)
            && (r.modifyIndex.Some? ==> d.index[r.id] == r.modifyIndex.value)
            && (id != r.id ==> SameComposite(c, d, id))
  {}

  /** A removed composite leaves no member and no index behind, and every other composite stays as it was. */
  lemma DestroyRemoves(c: Composites, b: Namespace, id: Namespace)
    requires Sound(c)
    ensures var d := Step(c, Destroy(b));
            && (forall n :: n in c.owner && c.owner[n] == b ==> n !in d.owner)
            && b !in d.index
            && (id != b ==> SameComposite(c, d, id))
  {}

  /** The operation rewrites or removes composite `id` and stores no index with it. */
  predicate DropsIndex(c: Composites, op: Operation, id: Namespace) {
    match op
    case Upsert(r) => Accepts(c, r) && r.id == id && r.modifyIndex.None?
    case Destroy(b) => b == id
    case Cleanup(ns) => ns in c.owner && c.owner[ns] == id
  }

  /** The stored index falls exactly when an operation rewrites the composite without one. */
  lemma IndexFallsIff(c: Composites, op: Operation, id: Namespace)
    requires Sound(c)
    ensures StoredIndex(Step(c, op), id) < StoredIndex(c, id) <==> DropsIndex(c, op, id) && StoredIndex(c, id) > 0
  {}

  /** No operation of the run drops the index of `id`. */
  ghost predicate KeepsIndex(c: Composites, ops: seq<Operation>, id: Namespace)
    decreases |ops|
  {
    ops == [] || (!DropsIndex(c, ops[0], id) && KeepsIndex(Step(c, ops[0]), ops[1..], id))
  }

  /** Along a run that never drops it, the stored index never decreases. */
  lemma {:induction false} IndexNeverDecreases(c: Composites, ops: seq<Operation>, id: Namespace)
    requires Sound(c) && KeepsIndex(c, ops, id)
    ensures StoredIndex(c, id) <= StoredIndex(Run(c, ops), id)
    decreases |ops|
  {
    if ops != [] {
      StepIsSound(c, ops[0]);
      IndexFallsIff(c, ops[0], id);
      IndexNeverDecreases(Step(c, ops[0]), ops[1..], id);
    }
  }

  /** Cleaning a plain member resets the index, so an older configuration is accepted afterwards. */
  lemma CleanupReopensOldIndexes(id: Namespace, member: Namespace, current: nat, older: nat)
    requires id != member && older < current
    ensures var c := Composites(map[id := id, member := id], map[id := current]);
            var r := Registration(id, [id], Some(older));
            Sound(c) && !Accepts(c, r) && Accepts(Step(c, Cleanup(member)), r)
  {}

  // ---- The tables ------------------------------------------------------------------------------

  datatype Member = Member(baseline: Namespace, namespace: Namespace)

  type RowId = nat

  /** composite_namespaces_v2 and composite_properties, with the sequence behind the primary key. */
  datatype Tables = Tables(rows: map<RowId, Member>, properties: map<RowId, nat>, nextId: RowId)

  /** The unique index on the namespace column. */
  ghost predicate UniqueNamespaces(t: Tables) {
    forall i, j :: i in t.rows && j in t.rows && t.rows[i].namespace == t.rows[j].namespace ==> i == j
  }

  /** `at` finds the row of each namespace; rows and namespaces, properties and indexes correspond one to one. */
  ghost predicate Represents(t: Tables, c: Composites, at: map<Namespace, RowId>) {
    && at.Keys == c.owner.Keys
    && (forall n :: n in at ==> at[n] in t.rows && t.rows[at[n]] == Member(c.owner[n], n))
    && (forall i :: i in t.rows ==> i < t.nextId && t.rows[i].namespace in at && at[t.rows[i].namespace] == i)
    && (forall b :: b in c.index ==>
          b in at && c.owner[b] == b && at[b] in t.properties && t.properties[at[b]] == c.index[b])
    && (forall i :: i in t.properties ==>
          i in t.rows && t.rows[i].namespace == t.rows[i].baseline && t.rows[i].baseline in c.index)
  }

  lemma RowOf(t: Tables, c: Composites, at: map<Namespace, RowId>, n: Namespace)
    requires Represents(t, c, at)
    ensures n in c.owner ==> n in at && at[n] in t.rows && t.rows[at[n]] == Member(c.owner[n], n)
    ensures n in c.index ==> n in at && at[n] in t.properties && t.properties[at[n]] == c.index[n] && c.owner[n] == n
  {}

  /** The deletion of all rows of a baseline, with the cascade to the properties. */
  function DeleteRows(t: Tables, id: Namespace): Tables {
    var rows := map i | i in t.rows && t.rows[i].baseline != id :: t.rows[i];
    t.(rows := rows, properties := map i | i in t.properties && i in rows :: t.properties[i])
  }

  function AtWithout(c: Composites, at: map<Namespace, RowId>, id: Namespace): map<Namespace, RowId>
    requires at.Keys == c.owner.Keys
  {
    map n | n in at && c.owner[n] != id :: at[n]
  }

  lemma DeleteRepresents(t: Tables, c: Composites, at: map<Namespace, RowId>, id: Namespace)
    requires Represents(t, c, at)
    ensures Represents(DeleteRows(t, id), Without(c, id), AtWithout(c, at, id))
  {}

  /** INSERT of one member; the unique index on the namespace may refuse it. */
  function InsertMember(t: Tables, m: Member): Result<Tables, Error> {
    if exists i :: i in t.rows && t.rows[i].namespace == m.namespace then Failure(NamespaceTaken)
    else Success(t.(rows := t.rows[t.nextId := m], nextId := t.nextId + 1))
  }

  lemma InsertRepresents(t: Tables, c: Composites, at: map<Namespace, RowId>, m: Member)
    requires Represents(t, c, at)
    ensures InsertMember(t, m).Success? <==> m.namespace !in c.owner
    ensures m.namespace !in c.owner ==>
              Represents(InsertMember(t, m).value, c.(owner := c.owner[m.namespace := m.baseline]),
                         at[m.namespace := t.nextId])
  {
    if m.namespace in at {
      assert t.rows[at[m.namespace]].namespace == m.namespace;
    }
  }

  /** The deferred guard: every baseline in the table has its own row. */
  predicate Guard(t: Tables) {
    forall i :: i in t.rows ==> exists j :: j in t.rows && t.rows[j] == Member(t.rows[i].baseline, t.rows[i].baseline)
  }

  ghost predicate BaselinesAreMembers(c: Composites) {
    forall n :: n in c.owner ==> c.owner[n] in c.owner && c.owner[c.owner[n]] == c.owner[n]
  }

  lemma GuardChecksBaselines(t: Tables, c: Composites, at: map<Namespace, RowId>)
    requires Represents(t, c, at)
    ensures Guard(t) <==> BaselinesAreMembers(c)
  {
    if Guard(t) {
      forall n | n in c.owner ensures c.owner[n] in c.owner && c.owner[c.owner[n]] == c.owner[n] {
        var b := t.rows[at[n]].baseline;
        var j :| j in t.rows && t.rows[j] == Member(b, b);
        assert t.rows[j].namespace in at;
      }
    }
    if BaselinesAreMembers(c) {
      forall i | i in t.rows
        ensures exists j :: j in t.rows && t.rows[j] == Member(t.rows[i].baseline, t.rows[i].baseline)
      {
        var n := t.rows[i].namespace;
        var b := c.owner[n];
        assert t.rows[at[b]] == Member(b, b);
      }
    }
  }

  lemma IndexRepresents(t: Tables, c: Composites, at: map<Namespace, RowId>, id: Namespace, index: nat)
    requires Represents(t, c, at) && id in c.owner && c.owner[id] == id && id !in c.index
    ensures Represents(t.(properties := t.properties[at[id] := index]), c.(index := c.index[id := index]), at)
  {}

  function Owned(id: Namespace, namespaces: seq<Namespace>): map<Namespace, Namespace> {
    map n | n in namespaces :: id
  }

  class PGRegistrationDao {
    var tables: Tables
    ghost var composites: Composites
    ghost var at: map<Namespace, RowId>

    constructor ()
      ensures Valid() && composites == Composites(map[], map[])
    {
      tables, composites, at := Tables(map[], map[], 0), Composites(map[], map[]), map[];
    }

    /** The invariant of every committed state: unique namespaces, and each composite contains its baseline. */
    ghost predicate Valid()
      reads this
      ensures Valid() ==> UniqueNamespaces(tables)
    {
      Represents(tables, composites, at) && Sound(composites)
    }

    method CurrentModifyIndex(id: Namespace) returns (index: nat)
      requires Valid()
      ensures index == StoredIndex(composites, id)
    {
      RowOf(tables, composites, at, id);
      if exists i :: i in tables.properties && i in tables.rows && tables.rows[i].baseline == id {
        var i :| i in tables.properties && i in tables.rows && tables.rows[i].baseline == id;
        index := tables.properties[i];
      } else {
        index := 0;
      }
    }

    /** DeleteByBaseline on its own: the composite is gone, index included. */
    method DeleteByBaseline(id: Namespace)
      requires Valid()
      modifies this
      ensures Valid() && composites == Step(old(composites), Destroy(id))
    {
      StepIsSound(composites, Destroy(id));
      DeleteRepresents(tables, composites, at, id);
      tables := DeleteRows(tables, id);
      at := AtWithout(composites, at, id);
      composites := Without(composites, id);
    }

    method Upsert(r: Registration) returns (err: Option<Error>)
      requires Valid()
      modifies this
      ensures Valid()
      ensures err.None? <==> Accepts(old(composites), r)
      ensures composites == Step(old(composites), Operation.Upsert(r))
      ensures err.Some? ==> tables == old(tables)
    {
      AcceptedIff(composites, r);
      if r.modifyIndex.Some? {
        var current := CurrentModifyIndex(r.id);
        if r.modifyIndex.value < current {
          return Some(StaleIndex);
        }
      }
      var tx;
      ghost var at1;
      tx, at1 := Rewrite(tables, r, composites, at);
      if tx.Failure? {
        return Some(tx.error);
      }
      StepIsSound(composites, Operation.Upsert(r));
      tables, err := tx.value, None;
      composites, at := Replaced(composites, r), at1;
    }

    /** GetByNamespace: the members of the composite `ns` belongs to, in the order of the query. */
    method GetByNamespace(ns: Namespace) returns (r: Option<Registration>)
      requires Valid()
      ensures r.None? <==> ns !in composites.owner
      ensures r.Some? ==>
                r.value.id == composites.owner[ns] && r.value.modifyIndex.None? && Distinct(r.value.namespaces)
      ensures r.Some? ==>
                forall n :: n in r.value.namespaces <==> n in composites.owner && composites.owner[n] == r.value.id
    {
      RowOf(tables, composites, at, ns);
      if !exists i :: i in tables.rows && tables.rows[i].namespace == ns {
        return None;
      }
      var i :| i in tables.rows && tables.rows[i].namespace == ns;
      var id := tables.rows[i].baseline;
      var members := set j | j in tables.rows && tables.rows[j].baseline == id :: tables.rows[j].namespace;
      forall n ensures n in members <==> n in composites.owner && composites.owner[n] == id {
        if n in composites.owner && composites.owner[n] == id {
          assert tables.rows[at[n]] == Member(id, n);
        }
      }
      var namespaces := Ordered(members);
      r := Some(Registration(id, namespaces, None));
    }

    method CleanupNamespace(ns: Namespace) returns (err: Option<Error>)
      requires Valid()
      modifies this
      ensures Valid() && err.None?
      ensures composites == Step(old(composites), Cleanup(ns))
    {
      var registration := GetByNamespace(ns);
      if registration.None? {
        return None;
      }
      var r := registration.value;
      if r.id == ns {
        DeleteByBaseline(ns);
        err := None;
      } else {
        var rest := DeleteFrom(r.namespaces, ns);
        RewrittenWithout(composites, r.(namespaces := rest), ns);
        err := Upsert(r.(namespaces := rest));
      }
    }
  }

  /** The rewrite of a composite without one plain member is accepted and is the removal of that member. */
  lemma RewrittenWithout(c: Composites, r: Registration, ns: Namespace)
    requires Sound(c) && ns in c.owner && c.owner[ns] == r.id != ns && r.modifyIndex.None? && Distinct(r.namespaces)
    requires forall n :: n in r.namespaces <==> n in c.owner && c.owner[n] == r.id && n != ns
    ensures Accepts(c, r) && Replaced(c, r) == Step(c, Cleanup(ns))
  {
    assert Replaced(c, r).owner == c.owner - {ns};
  }

  /** What the unique index admits once the old rows are gone. */
  ghost predicate Insertable(c: Composites, r: Registration) {
    && r.namespaces != [] && Distinct(r.namespaces)
    && forall n :: n in r.namespaces ==> n !in Without(c, r.id).owner
  }

  /** The guard decides whether the list names its baseline; what it lets through is the abstract upsert. */
  lemma GuardDecides(c: Composites, r: Registration, members: Composites)
    requires Sound(c) && Insertable(c, r)
    requires members.owner == Without(c, r.id).owner + Owned(r.id, r.namespaces)
    requires r.id in r.namespaces ==> members.index == Replaced(c, r).index
    ensures BaselinesAreMembers(members) <==> r.id in r.namespaces
    ensures r.id in r.namespaces ==> members == Replaced(c, r)
  {
    var n := r.namespaces[0];
    assert n in r.namespaces && members.owner[n] == r.id;
    if BaselinesAreMembers(members) {
      assert r.id in members.owner;
    }
  }

  lemma AcceptedIff(c: Composites, r: Registration)
    ensures Accepts(c, r) <==>
              && Insertable(c, r) && r.id in r.namespaces
              && (r.modifyIndex.Some? ==> r.modifyIndex.value >= StoredIndex(c, r.id))
  {
    assert forall n :: n in Without(c, r.id).owner <==> n in c.owner && c.owner[n] != r.id;
  }

  /** The statements of Upsert after the index check, guard included; the result is what would be committed. */
  method Rewrite(t: Tables, r: Registration, ghost c: Composites, ghost at: map<Namespace, RowId>)
    returns (tx: Result<Tables, Error>, ghost at1: map<Namespace, RowId>)
    requires Represents(t, c, at) && Sound(c)
    ensures tx.Success? <==> Insertable(c, r) && r.id in r.namespaces
    ensures tx.Success? ==> Represents(tx.value, Replaced(c, r), at1)
  {
    DeleteRepresents(t, c, at, r.id);
    ghost var rest := Without(c, r.id);
    tx, at1 := InsertMembers(DeleteRows(t, r.id), r.id, r.namespaces, rest, AtWithout(c, at, r.id));
    if tx.Failure? {
      return;
    }
    ghost var members := rest.(owner := rest.owner + Owned(r.id, r.namespaces));
    var stored;
    stored, members := StoreIndex(tx.value, r, members, at1);
    GuardChecksBaselines(stored, members, at1);
    GuardDecides(c, r, members);
    tx := if Guard(stored) then Success(stored) else Failure(BaselineMissing);
  }

  method InsertMembers(tx: Tables, id: Namespace, namespaces: seq<Namespace>, ghost c: Composites,
                       ghost at: map<Namespace, RowId>)
    returns (r: Result<Tables, Error>, ghost at1: map<Namespace, RowId>)
    requires Represents(tx, c, at)
    ensures r.Success? <==> namespaces != [] && Distinct(namespaces) && forall n :: n in namespaces ==> n !in c.owner
    ensures r.Success? ==> Represents(r.value, c.(owner := c.owner + Owned(id, namespaces)), at1)
  {
    at1 := at;
    if namespaces == [] {
      return Failure(EmptyInsert), at1;
    }
    var t := tx;
    assert c.(owner := c.owner + Owned(id, [])) == c by { assert c.owner + Owned(id, []) == c.owner; }
    for k := 0 to |namespaces|
      invariant Represents(t, c.(owner := c.owner + Owned(id, namespaces[..k])), at1)
      invariant Distinct(namespaces[..k]) && forall n :: n in namespaces[..k] ==> n !in c.owner
    {
      ghost var so := c.(owner := c.owner + Owned(id, namespaces[..k]));
      InsertRepresents(t, so, at1, Member(id, namespaces[k]));
      OwnedSnoc(c.owner, id, namespaces, k);
      var inserted := InsertMember(t, Member(id, namespaces[k]));
      if inserted.Failure? {
        return inserted, at1;
      }
      at1 := at1[namespaces[k] := t.nextId];
      t := inserted.value;
    }
    assert namespaces[..|namespaces|] == namespaces;
    r := Success(t);
  }

  /** createCurrentModifyIndex: stores the index, if one is given, at the composite's baseline row, if there is one. */
  method StoreIndex(tx: Tables, r: Registration, ghost c: Composites, ghost at: map<Namespace, RowId>)
    returns (t: Tables, ghost d: Composites)
    requires Represents(tx, c, at) && r.id !in c.index
    ensures Represents(t, d, at) && d.owner == c.owner
    ensures r.modifyIndex.None? ==> d == c
    ensures r.modifyIndex.Some? && r.id in c.owner && c.owner[r.id] == r.id ==>
              d.index == c.index[r.id := r.modifyIndex.value]
  {
    t, d := tx, c;
    RowOf(tx, c, at, r.id);
    if r.modifyIndex.Some? {
      if exists i :: i in tx.rows && tx.rows[i] == Member(r.id, r.id) {
        var i :| i in tx.rows && tx.rows[i] == Member(r.id, r.id);
        IndexRepresents(tx, c, at, r.id, r.modifyIndex.value);
        t := tx.(properties := tx.properties[i := r.modifyIndex.value]);
        d := c.(index := c.index[r.id := r.modifyIndex.value]);
      }
    }
  }

  lemma OwnedSnoc(owner: map<Namespace, Namespace>, id: Namespace, ns: seq<Namespace>, k: nat)
    requires k < |ns|
    ensures owner + Owned(id, ns[..k + 1]) == (owner + Owned(id, ns[..k]))[ns[k] := id]
    ensures Distinct(ns[..k]) ==> (Distinct(ns[..k + 1]) <==> ns[k] !in ns[..k])
    ensures Distinct(ns) ==> ns[k] !in ns[..k]
  {
    assert ns[..k + 1] == ns[..k] + [ns[k]];
  }

  /** The elements of a set in increasing order, as ORDER BY delivers them. */
  method Ordered(s: set<Namespace>) returns (r: seq<Namespace>)
    ensures Distinct(r) && forall n :: n in r <==> n in s
    ensures forall i, j :: 0 <= i < j < |r| ==> r[i] < r[j]
  {
    var left := s;
    r := [];
    while left != {}
      invariant left <= s
      invariant forall n :: n in r <==> n in s && n !in left
      invariant forall i, j :: 0 <= i < j < |r| ==> r[i] < r[j]
      invariant forall i, n :: 0 <= i < |r| && n in left ==> r[i] < n
    {
      ghost var m := Least(left);
      var least :| least in left && forall n :: n in left ==> least <= n;
      left := left - {least};
      r := r + [least];
    }
  }

  lemma {:induction false} Least(s: set<Namespace>) returns (m: Namespace)
    requires s != {}
    ensures m in s && forall n :: n in s ==> m <= n
    decreases |s|
  {
    m :| m in s;
    var rest := s - {m};
    if rest != {} {
      var other := Least(rest);
      assert forall n :: n in s ==> n == m || n in rest;
      if other < m {
        m := other;
      }
    }
  }

  /** slices.DeleteFunc for one value. */
  method DeleteFrom(s: seq<Namespace>, x: Namespace) returns (r: seq<Namespace>)
    ensures forall n :: n in r <==> n in s && n != x
    ensures Distinct(s) ==> Distinct(r)
  {
    r := [];
    for i := 0 to |s|
      invariant forall n :: n in r <==> n in s[..i] && n != x
      invariant Distinct(s) ==> Distinct(r)
    {
      if s[i] != x {
        assert Distinct(s) ==> s[i] !in s[..i];
        r := r + [s[i]];
      }
    }
  }

  // ---- Listing ---------------------------------------------------------------------------------

  /** The rows of a listing: by baseline, then by namespace. */
  predicate Sorted(rows: seq<Member>) {
    forall i, j :: 0 <= i < j < |rows| ==>
      rows[i].baseline < rows[j].baseline
      || (rows[i].baseline == rows[j].baseline && rows[i].namespace <= rows[j].namespace)
  }

  datatype Group = Group(id: Namespace, namespaces: seq<Namespace>)

  function Rows(g: Group): (r: seq<Member>)
    ensures |r| == |g.namespaces|
  {
    seq(|g.namespaces|, i requires 0 <= i < |g.namespaces| => Member(g.id, g.namespaces[i]))
  }

  function Flatten(groups: seq<Group>): seq<Member> {
    if groups == [] then [] else Flatten(groups[..|groups| - 1]) + Rows(groups[|groups| - 1])
  }

  /** A group stands for the rows of its members under its id. */
  lemma {:induction false} FlattenedIff(groups: seq<Group>, m: Member)
    ensures m in Flatten(groups) <==> exists g :: g in groups && g.id == m.baseline && m.namespace in g.namespaces
  {
    if groups != [] {
      var n := |groups| - 1;
      var front, last := groups[..n], groups[n];
      FlattenedIff(front, m);
      assert groups == front + [last];
      assert m in Rows(last) <==> last.id == m.baseline && m.namespace in last.namespaces by {
        if last.id == m.baseline && m.namespace in last.namespaces {
          var i :| 0 <= i < |last.namespaces| && last.namespaces[i] == m.namespace;
          assert Rows(last)[i] == m;
        }
      }
    }
  }

  lemma Grown(groups: seq<Group>, row: Member)
    requires groups != [] && groups[|groups| - 1].id == row.baseline
    ensures var last := |groups| - 1;
            Flatten(groups[last := Group(row.baseline, groups[last].namespaces + [row.namespace])])
            == Flatten(groups) + [row]
  {
    var last := |groups| - 1;
    var grown := Group(row.baseline, groups[last].namespaces + [row.namespace]);
    assert Rows(grown) == Rows(groups[last]) + [row];
    assert groups[last := grown][..last] == groups[..last];
  }

  lemma Opened(groups: seq<Group>, row: Member)
    ensures Flatten(groups + [Group(row.baseline, [row.namespace])]) == Flatten(groups) + [row]
  {
    var opening := Group(row.baseline, [row.namespace]);
    assert Rows(opening) == [row];
    assert (groups + [opening])[..|groups|] == groups;
  }

  /** List regroups sorted rows: flattening gives them back, no group is empty, no id occurs twice. */
  method List(rows: seq<Member>) returns (groups: seq<Group>)
    requires Sorted(rows)
    ensures Flatten(groups) == rows
    ensures forall g :: g in groups ==> g.namespaces != []
    ensures forall i, j :: 0 <= i < j < |groups| ==> groups[i].id < groups[j].id
  {
    groups := [];
    for n := 0 to |rows|
      invariant Flatten(groups) == rows[..n]
      invariant forall i :: 0 <= i < |groups| ==> groups[i].namespaces != []
      invariant forall i, j :: 0 <= i < j < |groups| ==> groups[i].id < groups[j].id
      invariant if n == 0 then groups == [] else groups != [] && groups[|groups| - 1].id == rows[n - 1].baseline
    {
      var row := rows[n];
      assert rows[..n + 1] == rows[..n] + [row];
      var last := |groups| - 1;
      if groups != [] && groups[last].id == row.baseline {
        Grown(groups, row);
        groups := groups[last := Group(row.baseline, groups[last].namespaces + [row.namespace])];
      } else {
        Opened(groups, row);
        groups := groups + [Group(row.baseline, [row.namespace])];
      }
    }
    assert rows[..|rows|] == rows;
  }
}
