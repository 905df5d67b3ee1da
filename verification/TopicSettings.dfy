/**
 Settings of a topic: when two sets of settings count as equal, and the update of an existing topic that
 is skipped when they do. Pointers are optional values; two pointers to equal values are not told apart.
 */
module TopicSettings {
  import opened Wrappers

  newtype int32 = x: int | -0x8000_0000 <= x < 0x8000_0000
  newtype int16 = x: int | -0x8000 <= x < 0x8000

  datatype Settings = Settings(
    numPartitions: Option<int32>,
    minNumPartitions: Option<int32>,
    replicationFactor: Option<int16>,
    replicaAssignment: map<int32, seq<int32>>,
    configs: map<string, Option<string>>,
    versioned: bool)

  datatype Registration = Registration(template: Option<int>, createReq: nat, settings: Settings)

  // ---- The meaning of equality -----------------------------------------------------------------

  /** Absent and -1 are the same number. */
  function Normal<N(==)>(n: Option<N>, minusOne: N): Option<N> {
    if n == Some(minusOne) then None else n
  }

  function NormalSettings(s: Settings): Settings {
    s.(numPartitions := Normal(s.numPartitions, -1), minNumPartitions := Normal(s.minNumPartitions, -1),
       replicationFactor := Normal(s.replicationFactor, -1))
  }

  /** Settings equality up to that convention; a registration also compares the linked template. */
  predicate Equal(a: Registration, b: Registration) {
    a.template == b.template && NormalSettings(a.settings) == NormalSettings(b.settings)
  }

  predicate ReadOnlyEqual(a: Settings, b: Settings) {
    NormalSettings(a).(configs := map[], versioned := false) == NormalSettings(b).(configs := map[], versioned := false)
  }

  // ---- The comparisons as the code makes them --------------------------------------------------

  lemma SameSizeSubset<T>(a: set<T>, b: set<T>)
    requires a <= b && |a| == |b|
    ensures a == b
  {
    assert |b - a| == |b| - |a|;
    assert b - a == {};
    assert b == a + (b - a);
  }

  method SlicesAreEqualInt32(slice1: seq<int32>, slice2: seq<int32>) returns (equal: bool)
    ensures equal <==> slice1 == slice2
  {
    if |slice1| != |slice2| { return false; }
    if |slice1| == 0 { return true; }
    for idx := 0 to |slice1|
      invariant slice1[..idx] == slice2[..idx]
    {
      if slice2[idx] != slice1[idx] { return false; }
    }
    equal := true;
  }

  /** Loops over the first map only; the length check does the rest. */
  method StringMapsAreEqual(map1: map<string, Option<string>>, map2: map<string, Option<string>>) returns (equal: bool)
    ensures equal <==> map1 == map2
  {
    if |map1| != |map2| { return false; }
    if |map1| == 0 {
      assert map1.Keys == {} && map2.Keys == {};
      return true;
    }
    var todo := map1.Keys;
    while todo != {}
      invariant todo <= map1.Keys
      invariant forall k :: k in map1 && k !in todo ==> k in map2 && map1[k] == map2[k]
    {
      var key :| key in todo;
      todo := todo - {key};
      if key !in map2 { return false; }
      var val, anotherVal := map1[key], map2[key];
      if val != anotherVal && (val == None || anotherVal == None || val.value != anotherVal.value) { return false; }
    }
    SameSizeSubset(map1.Keys, map2.Keys);
    equal := true;
  }

  method ReplicaAssignmentsAreEqual(map1: map<int32, seq<int32>>, map2: map<int32, seq<int32>>) returns (equal: bool)
    ensures equal <==> map1 == map2
  {
    if |map1| != |map2| { return false; }
    var todo := map1.Keys;
    while todo != {}
      invariant todo <= map1.Keys
      invariant forall k :: k in map1 && k !in todo ==> k in map2 && map1[k] == map2[k]
    {
      var key :| key in todo;
      todo := todo - {key};
      if key !in map2 { return false; }
      var same := SlicesAreEqualInt32(map1[key], map2[key]);
      if !same { return false; }
    }
    SameSizeSubset(map1.Keys, map2.Keys);
    equal := true;
  }

  /** The three-way test on one optional number. */
  predicate NumbersDiffer<N(==)>(a: Option<N>, b: Option<N>, minusOne: N) {
    a != b &&
    if a == None || a == Some(minusOne) then b != None && b != Some(minusOne)
    else b == None || a.value != b.value
  }

  /** The same number, or none on both sides: absent or -1. */
  predicate SameNumber<N(==)>(a: Option<N>, b: Option<N>, minusOne: N) {
    a == b || (a in {None, Some(minusOne)} && b in {None, Some(minusOne)})
  }

  lemma NumbersDifferIff<N>(a: Option<N>, b: Option<N>, minusOne: N)
    ensures NumbersDiffer(a, b, minusOne) <==> Normal(a, minusOne) != Normal(b, minusOne)
    ensures NumbersDiffer(a, b, minusOne) <==> !SameNumber(a, b, minusOne)
  {}

  method ReadOnlySettingsAreEqual(a: Settings, b: Option<Settings>) returns (equal: bool)
    ensures equal <==> b.Some? && ReadOnlyEqual(a, b.value)
    ensures equal <==>
              && b.Some?
              && SameNumber(a.numPartitions, b.value.numPartitions, -1)
              && SameNumber(a.minNumPartitions, b.value.minNumPartitions, -1)
              && SameNumber(a.replicationFactor, b.value.replicationFactor, -1)
              && a.replicaAssignment == b.value.replicaAssignment
  {
    if b == None { return false; }
    var other := b.value;
    NumbersDifferIff(a.numPartitions, other.numPartitions, -1);
    NumbersDifferIff(a.minNumPartitions, other.minNumPartitions, -1);
    NumbersDifferIff(a.replicationFactor, other.replicationFactor, -1);
    if NumbersDiffer(a.numPartitions, other.numPartitions, -1) { return false; }
    if NumbersDiffer(a.minNumPartitions, other.minNumPartitions, -1) { return false; }
    if NumbersDiffer(a.replicationFactor, other.replicationFactor, -1) { return false; }
    equal := ReplicaAssignmentsAreEqual(a.replicaAssignment, other.replicaAssignment);
  }

  method SettingsAreEqual(a: Registration, b: Registration) returns (equal: bool)
    ensures equal <==> Equal(a, b)
    ensures equal <==>
              && a.template == b.template
              && SameNumber(a.settings.numPartitions, b.settings.numPartitions, -1)
              && SameNumber(a.settings.minNumPartitions, b.settings.minNumPartitions, -1)
              && SameNumber(a.settings.replicationFactor, b.settings.replicationFactor, -1)
              && a.settings.replicaAssignment == b.settings.replicaAssignment
              && a.settings.configs == b.settings.configs
              && a.settings.versioned == b.settings.versioned
  {
    if a.template != b.template { return false; }
    var x, y := a.settings, b.settings;
    NumbersDifferIff(x.numPartitions, y.numPartitions, -1);
    NumbersDifferIff(x.minNumPartitions, y.minNumPartitions, -1);
    NumbersDifferIff(x.replicationFactor, y.replicationFactor, -1);
    if NumbersDiffer(x.numPartitions, y.numPartitions, -1) { return false; }
    if NumbersDiffer(x.minNumPartitions, y.minNumPartitions, -1) { return false; }
    if NumbersDiffer(x.replicationFactor, y.replicationFactor, -1) { return false; }
    var same := ReplicaAssignmentsAreEqual(x.replicaAssignment, y.replicaAssignment);
    if !same { return false; }
    if x.versioned != y.versioned { return false; }
    equal := StringMapsAreEqual(x.configs, y.configs);
  }

  /** Settings equality is an equivalence relation. */
  lemma EqualIsEquivalence(a: Registration, b: Registration, c: Registration)
    ensures Equal(a, a) && (Equal(a, b) <==> Equal(b, a)) && (Equal(a, b) && Equal(b, c) ==> Equal(a, c))
  {}

  // ---- Updating an existing topic --------------------------------------------------------------

  /** model.IsEmpty: absent, -1 and 0. */
  predicate IsEmpty(n: Option<int32>) {
    n in {None, Some(-1), Some(0)}
  }

  datatype Outcome = Unchanged | Updated | BadRequest | Failed

  function UpdateOutcome(row: Registration, requested: Registration, saves: bool): Outcome {
    if Equal(row, requested) then Unchanged
    else if !IsEmpty(requested.settings.numPartitions) && !IsEmpty(requested.settings.minNumPartitions) then BadRequest
    else if saves then Updated else Failed
  }

  class TopicRow {
    var row: Registration

    constructor (row: Registration)
      ensures this.row == row
    {
      this.row := row;
    }

    /** The row holds what was asked for, the three numbers up to none being absent or -1. */
    ghost predicate Holds(requested: Registration)
      reads this
    {
      && row.template == requested.template
      && row.settings.configs == requested.settings.configs
      && row.settings.versioned == requested.settings.versioned
      && row.settings.replicaAssignment == requested.settings.replicaAssignment
      && SameNumber(row.settings.numPartitions, requested.settings.numPartitions, -1)
      && SameNumber(row.settings.minNumPartitions, requested.settings.minNumPartitions, -1)
      && SameNumber(row.settings.replicationFactor, requested.settings.replicationFactor, -1)
    }

    /** updateTopicSettingsIfNeeded; `saves` says whether the database and Kafka accept the update. */
    method UpdateTopicSettingsIfNeeded(requested: Registration, saves: bool) returns (outcome: Outcome)
      modifies this
      ensures outcome == UpdateOutcome(old(row), requested, saves)
      ensures outcome == Updated ==> row == requested
      ensures outcome != Updated ==> row == old(row)
      ensures outcome == Unchanged <==> old(Holds(requested))
      ensures outcome in {Unchanged, Updated} ==> Holds(requested)
      ensures outcome == BadRequest <==>
                && !old(Holds(requested))
                && requested.settings.numPartitions !in {None, Some(-1), Some(0)}
                && requested.settings.minNumPartitions !in {None, Some(-1), Some(0)}
      ensures outcome == Failed ==> !saves
    {
      var existing := row;
      var equal := SettingsAreEqual(existing, requested);
      if equal { return Unchanged; }
      existing := existing.(template := requested.template, createReq := requested.createReq);
      outcome, existing := UpdateSettings(existing, requested.settings, saves);
      if outcome == Updated {
        row := existing;
      }
    }
  }

  /** updateSettings on a copy of the row, stored by the caller's transaction when it succeeds. */
  method UpdateSettings(existing: Registration, s: Settings, saves: bool) returns (outcome: Outcome, r: Registration)
    ensures outcome == (if !IsEmpty(s.numPartitions) && !IsEmpty(s.minNumPartitions) then BadRequest
                        else if saves then Updated else Failed)
    ensures outcome == BadRequest <==>
              s.numPartitions !in {None, Some(-1), Some(0)} && s.minNumPartitions !in {None, Some(-1), Some(0)}
    ensures outcome == Updated ==> r == existing.(settings := s)
  {
    r := existing;
    if !IsEmpty(s.numPartitions) && !IsEmpty(s.minNumPartitions) {
      return BadRequest, r;
    }
    r := r.(settings := r.settings.(numPartitions := s.numPartitions));
    r := r.(settings := r.settings.(minNumPartitions := s.minNumPartitions));
    r := r.(settings := r.settings.(replicationFactor := s.replicationFactor));
    r := r.(settings := r.settings.(replicaAssignment := s.replicaAssignment));
    r := r.(settings := r.settings.(configs := s.configs));
    r := r.(settings := r.settings.(versioned := s.versioned));
    outcome := if saves then Updated else Failed;
  }

  /** Applying the same request to the updated row compares equal, so it is a no-op. */
  method ApplyTwice(topic: TopicRow, requested: Registration) returns (first: Outcome, second: Outcome)
    modifies topic
    ensures first in {Unchanged, Updated} ==>
              second == Unchanged && Equal(topic.row, requested) && topic.Holds(requested)
    ensures first == Unchanged ==> topic.row == old(topic.row)
    ensures first == Updated ==> topic.row == requested
    ensures first == BadRequest ==> second == BadRequest && topic.row == old(topic.row)
    ensures first == BadRequest <==>
              && !Equal(old(topic.row), requested)
              && !IsEmpty(requested.settings.numPartitions) && !IsEmpty(requested.settings.minNumPartitions)
  {
    first := topic.UpdateTopicSettingsIfNeeded(requested, true);
    second := topic.UpdateTopicSettingsIfNeeded(requested, true);
  }
}
