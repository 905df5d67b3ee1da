/**
 The broker lists the watchdog checks, refreshed when a counter says so. Instance writes, their delayed
 callbacks and the steps of a refresh interleave freely; one goroutine refreshes, the counter is atomic.
 */
module Watchdog {
  import opened Wrappers

  /** The instances of one broker type as a list read from the database. */
  type Brokers = seq<nat>

  /** How far the refresh in progress has got, with what it has read and not yet stored. */
  datatype Phase =
    | Idle
    | KafkaRead(kafka: Brokers)
    | BothRead(kafka: Brokers, rabbit: Brokers)
    | KafkaStored(rabbit: Brokers)
    | BothStored

  datatype State = State(
    kafkaDb: Brokers, rabbitDb: Brokers,
    kafkaCache: Option<Brokers>, rabbitCache: Option<Brokers>,
    counter: int, pending: nat, phase: Phase)

  datatype Step =
    | WriteKafka(list: Brokers)      // an instance operation commits; its callback is now due
    | WriteRabbit(list: Brokers)
    | Callback                       // a due callback adds one to the counter
    | ReadKafka(ok: bool)            // a tick finds the counter positive and asks for the Kafka instances
    | ReadRabbit(ok: bool)
    | StoreKafka
    | StoreRabbit
    | Decrement                      // the refresh succeeded

  predicate Enabled(s: State, step: Step) {
    match step
    case WriteKafka(_) => true
    case WriteRabbit(_) => true
    case Callback => s.pending > 0
    case ReadKafka(_) => s.phase.Idle? && s.counter > 0
    case ReadRabbit(_) => s.phase.KafkaRead?
    case StoreKafka => s.phase.BothRead?
    case StoreRabbit => s.phase.KafkaStored?
    case Decrement => s.phase.BothStored?
  }

  function Next(s: State, step: Step): State
    requires Enabled(s, step)
  {
    match step
    case WriteKafka(list) => s.(kafkaDb := list, pending := s.pending + 1)
    case WriteRabbit(list) => s.(rabbitDb := list, pending := s.pending + 1)
    case Callback => s.(pending := s.pending - 1, counter := s.counter + 1)
    case ReadKafka(ok) => if ok then s.(phase := KafkaRead(s.kafkaDb)) else s
    case ReadRabbit(ok) => s.(phase := if ok then BothRead(s.phase.kafka, s.rabbitDb) else Idle)
    case StoreKafka => s.(kafkaCache := Some(s.phase.kafka), phase := KafkaStored(s.phase.rabbit))
    case StoreRabbit => s.(rabbitCache := Some(s.phase.rabbit), phase := BothStored)
    case Decrement => s.(counter := s.counter - 1, phase := Idle)
  }

  predicate IsRun(s: State, steps: seq<Step>)
    decreases |steps|
  {
    steps != [] ==> Enabled(s, steps[0]) && IsRun(Next(s, steps[0]), steps[1..])
  }

  function Run(s: State, steps: seq<Step>): State
    requires IsRun(s, steps)
    decreases |steps|
  {
    if steps == [] then s else Run(Next(s, steps[0]), steps[1..])
  }

  /** The monitor as it is constructed: nothing cached, one refresh requested. */
  function Init(kafka: Brokers, rabbit: Brokers): State {
    State(kafka, rabbit, None, None, 1, 0, Idle)
  }

  predicate Stale(s: State) {
    s.kafkaCache != Some(s.kafkaDb) || s.rabbitCache != Some(s.rabbitDb)
  }

  /** What the refresh in progress has put or is going to put into the caches is already outdated. */
  predicate Outdated(s: State) {
    match s.phase
    case Idle => Stale(s)
    case KafkaRead(k) => k != s.kafkaDb
    case BothRead(k, r) => k != s.kafkaDb || r != s.rabbitDb
    case KafkaStored(r) => s.kafkaCache != Some(s.kafkaDb) || r != s.rabbitDb
    case BothStored => Stale(s)
  }

  /** Requests still to be honoured: those counted and those whose callback is due. */
  function Requests(s: State): int { s.counter + s.pending }

  /** A refresh in progress uses up one request; whatever it misses is covered by another. */
  predicate Inv(s: State) {
    && s.counter >= (if s.phase.Idle? then 0 else 1)
    && (Outdated(s) ==> Requests(s) >= (if s.phase.Idle? then 1 else 2))
  }

  lemma StepKeepsInv(s: State, step: Step)
    requires Inv(s) && Enabled(s, step)
    ensures Inv(Next(s, step))
  {}

  lemma {:induction false} RunKeepsInv(s: State, steps: seq<Step>)
    requires Inv(s) && IsRun(s, steps)
    ensures Inv(Run(s, steps))
    decreases |steps|
  {
    if steps != [] {
      StepKeepsInv(s, steps[0]);
      RunKeepsInv(Next(s, steps[0]), steps[1..]);
    }
  }

  /**
   No lost refresh: after every interleaving a stale list means a positive counter, a callback that is due
   or a refresh under way, and the counter is never negative. Once nothing is due and no refresh runs, a
   tick finds the counter positive as long as a list is stale.
   */
  lemma NoLostRefresh(kafka: Brokers, rabbit: Brokers, steps: seq<Step>)
    requires IsRun(Init(kafka, rabbit), steps)
    ensures var s := Run(Init(kafka, rabbit), steps);
            && s.counter >= 0
            && (Stale(s) ==> s.counter > 0 || s.pending > 0 || !s.phase.Idle?)
            && (Stale(s) && s.phase.Idle? && s.pending == 0 ==> Enabled(s, ReadKafka(true)))
  {
    RunKeepsInv(Init(kafka, rabbit), steps);
  }

  // ---- Once writes stop ------------------------------------------------------------------------

  predicate IsWrite(step: Step) { step.WriteKafka? || step.WriteRabbit? }

  predicate Quiet(steps: seq<Step>) {
    forall i :: 0 <= i < |steps| ==> !IsWrite(steps[i])
  }

  /** The refreshes that succeed during a run. */
  function Refreshes(steps: seq<Step>): nat {
    if steps == [] then 0 else (if steps[0].Decrement? then 1 else 0) + Refreshes(steps[1..])
  }

  function Writes(steps: seq<Step>): nat {
    if steps == [] then 0 else (if IsWrite(steps[0]) then 1 else 0) + Writes(steps[1..])
  }

  /** Each write asks for one refresh and each successful refresh honours one request: none is lost or invented. */
  lemma {:induction false} RequestsAreConserved(s: State, steps: seq<Step>)
    requires IsRun(s, steps)
    ensures Requests(Run(s, steps)) == Requests(s) + Writes(steps) - Refreshes(steps)
    decreases |steps|
  {
    if steps != [] {
      RequestsAreConserved(Next(s, steps[0]), steps[1..]);
    }
  }

  lemma {:induction false} QuietStaysSettled(s: State, steps: seq<Step>)
    requires IsRun(s, steps) && Quiet(steps) && !Outdated(s) && !Stale(s)
    ensures !Outdated(Run(s, steps)) && !Stale(Run(s, steps))
    decreases |steps|
  {
    if steps != [] {
      assert !IsWrite(steps[0]);
      QuietStaysSettled(Next(s, steps[0]), steps[1..]);
    }
  }

  /** One refresh that starts and succeeds after the last write makes both lists equal to the database, for good. */
  lemma {:induction false} OneQuietRefreshSettles(s: State, steps: seq<Step>)
    requires IsRun(s, steps) && Quiet(steps) && Refreshes(steps) > 0
    requires s.phase.Idle? || !Outdated(s)
    ensures !Stale(Run(s, steps))
    decreases |steps|
  {
    var next := Next(s, steps[0]);
    assert !IsWrite(steps[0]);
    if steps[0].Decrement? {
      QuietStaysSettled(next, steps[1..]);
    } else {
      OneQuietRefreshSettles(next, steps[1..]);
    }
  }

  /** After the last write the number of further refreshes is bounded by the requests then outstanding. */
  lemma QuietRefreshesAreBounded(s: State, steps: seq<Step>)
    requires Inv(s) && IsRun(s, steps) && Quiet(steps)
    ensures Refreshes(steps) <= Requests(s)
    ensures Refreshes(steps) == Requests(s) ==> !Stale(Run(s, steps))
  {
    RunKeepsInv(s, steps);
    RequestsAreConserved(s, steps);
    NoWrites(steps);
  }

  lemma {:induction false} NoWrites(steps: seq<Step>)
    requires Quiet(steps)
    ensures Writes(steps) == 0
  {
    if steps != [] {
      assert !IsWrite(steps[0]);
      NoWrites(steps[1..]);
    }
  }
}
