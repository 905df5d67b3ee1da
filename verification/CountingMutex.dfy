/**
 A counting mutex made of a channel of slots: a client takes a slot, runs its callback and returns the
 slot, or gives up when its timeout fires first. Clients interleave freely.
 */
module CountingMutex {

  type Client = nat
  type Slot = nat

  /** The channel, the clients waiting at it, and the slots of those running their callback. */
  datatype State = State(free: seq<Slot>, waiting: set<Client>, held: map<Client, Slot>)

  datatype Step =
    | Arrive(client: Client)
    | Acquire(client: Client)
    | Timeout(client: Client)
    | Return(client: Client, callbackFailed: bool)

  predicate Enabled(s: State, step: Step) {
    match step
    case Arrive(c) => c !in s.waiting && c !in s.held
    case Acquire(c) => c in s.waiting && s.free != []
    case Timeout(c) => c in s.waiting
    case Return(c, _) => c in s.held
  }

  function Next(s: State, step: Step): State
    requires Enabled(s, step)
  {
    match step
    case Arrive(c) => s.(waiting := s.waiting + {c})
    case Acquire(c) => State(s.free[1..], s.waiting - {c}, s.held[c := s.free[0]])
    case Timeout(c) => s.(waiting := s.waiting - {c})
    case Return(c, _) => s.(free := s.free + [s.held[c]], held := s.held - {c})
  }

  predicate IsRun(s: State, steps: seq<Step>)
    decreases |steps|
  {
    steps != [] ==> Enabled(s, steps[0]) && IsRun(Next(s, steps[0]), steps[1..])
  }

  function Run(s: State, steps: seq<Step>): State
    requires IsRun(s, steps)
    decreases |steps|
  {
    if steps == [] then s else Run(Next(s, steps[0]), steps[1..])
  }

  /** NewCountingMutex fills the channel. */
  method FillSlots(count: nat) returns (slots: seq<Slot>)
    ensures |slots| == count && forall i :: 0 <= i < count ==> slots[i] == i
  {
    slots := [];
    for i := 0 to count
      invariant |slots| == i && forall k :: 0 <= k < i ==> slots[k] == k
    {
      slots := slots + [i];
    }
  }

  /** Free and held slots are together exactly 0..count-1, each once; a client never both waits and holds. */
  ghost predicate Conserved(s: State, count: nat) {
    && (forall i :: 0 <= i < |s.free| ==> s.free[i] < count)
    && (forall i, j :: 0 <= i < j < |s.free| ==> s.free[i] != s.free[j])
    && (forall c :: c in s.held ==> s.held[c] < count && s.held[c] !in s.free && c !in s.waiting)
    && (forall c, d :: c in s.held && d in s.held && c != d ==> s.held[c] != s.held[d])
    && |s.free| + |s.held| == count
  }

  lemma AcquireConserves(s: State, c: Client, count: nat)
    requires Conserved(s, count) && Enabled(s, Acquire(c))
    ensures Conserved(Next(s, Acquire(c)), count)
  {
    var slot, rest := s.free[0], s.free[1..];
    assert forall i :: 0 <= i < |rest| ==> rest[i] == s.free[i + 1];
    assert slot !in rest;
    assert forall d :: d in s.held ==> s.held[d] != slot && s.held[d] !in rest;
    assert c !in s.held;
  }

  lemma ReturnConserves(s: State, c: Client, failed: bool, count: nat)
    requires Conserved(s, count) && Enabled(s, Return(c, failed))
    ensures Conserved(Next(s, Return(c, failed)), count)
  {
    var slot, left, free := s.held[c], s.held - {c}, s.free + [s.held[c]];
    assert s.held.Keys == left.Keys + {c};
    assert |left| == |s.held| - 1;
    assert forall d :: d in left ==> d in s.held && d != c && left[d] == s.held[d] != slot;
    assert forall i :: 0 <= i < |free| ==> free[i] == if i < |s.free| then s.free[i] else slot;
    assert forall x :: x in free ==> x in s.free || x == slot;
  }

  lemma StepConserves(s: State, step: Step, count: nat)
    requires Conserved(s, count) && Enabled(s, step)
    ensures Conserved(Next(s, step), count)
  {
    match step
    case Arrive(c) =>
    case Acquire(c) => AcquireConserves(s, c, count);
    case Timeout(c) =>
    case Return(c, failed) => ReturnConserves(s, c, failed, count);
  }

  lemma {:induction false} RunConserves(s: State, steps: seq<Step>, count: nat)
    requires Conserved(s, count) && IsRun(s, steps)
    ensures Conserved(Run(s, steps), count)
    decreases |steps|
  {
    if steps != [] {
      StepConserves(s, steps[0], count);
      RunConserves(Next(s, steps[0]), steps[1..], count);
    }
  }

  /** At most `count` callbacks run at once, and once all have returned every slot is free again. */
  lemma SlotsNeverLeak(slots: seq<Slot>, steps: seq<Step>)
    requires forall i :: 0 <= i < |slots| ==> slots[i] == i
    requires IsRun(State(slots, {}, map[]), steps)
    ensures var s := Run(State(slots, {}, map[]), steps);
            && Conserved(s, |slots|) && |s.held| <= |slots|
            && (s.held == map[] ==> |s.free| == |slots| && forall slot: Slot :: slot < |slots| ==> slot in s.free)
  {
    RunConserves(State(slots, {}, map[]), steps, |slots|);
    var s := Run(State(slots, {}, map[]), steps);
    if s.held == map[] {
      AllPresent(s.free, |slots|);
    }
  }

  /** `count` distinct numbers below `count` are all of them. */
  lemma AllPresent(free: seq<Slot>, count: nat)
    requires |free| == count && (forall i :: 0 <= i < count ==> free[i] < count)
    requires forall i, j :: 0 <= i < j < count ==> free[i] != free[j]
    ensures forall slot: Slot :: slot < count ==> slot in free
  {
    var present := set i | 0 <= i < count :: free[i];
    DistinctCount(free, count);
    assert present <= Below(count);
    assert |Below(count) - present| == 0;
    assert Below(count) - present == {};
    forall slot: Slot | slot < count ensures slot in free {
      assert slot in Below(count);
      assert slot in present;
    }
  }

  function Below(n: nat): (r: set<nat>)
    ensures |r| == n && forall x: nat :: x in r <==> x < n
  {
    if n == 0 then {} else Below(n - 1) + {n - 1}
  }

  lemma {:induction false} DistinctCount(s: seq<Slot>, n: nat)
    requires n <= |s| && forall i, j :: 0 <= i < j < |s| ==> s[i] != s[j]
    ensures |set i | 0 <= i < n :: s[i]| == n
  {
    if n > 0 {
      DistinctCount(s, n - 1);
      assert (set i | 0 <= i < n :: s[i]) == (set i | 0 <= i < n - 1 :: s[i]) + {s[n - 1]};
    }
  }
}
