/**
 Changing a topic template: the linked topics are marked dirty, updated one by one in whatever order the
 query returned them, and only then is the template itself saved. Any of these steps may fail and leaves
 what was committed before it.
 */
module TemplatePropagation {
  import opened Wrappers
  import opened TopicSettings

  type TopicId = nat

  /** `linked`: the topic refers to this template. */
  datatype Topic = Topic(linked: bool, dirty: bool, settings: Settings)

  datatype State = State(template: Option<Settings>, topics: map<TopicId, Topic>)

  // ---- The request -----------------------------------------------------------------------------

  /** BuildTopicTemplateFromReq: a template request never carries the versioned flag. */
  function BuildTemplate(name: string, numPartitions: Option<int32>, minNumPartitions: Option<int32>,
                         replicationFactor: Option<int16>, replicaAssignment: map<int32, seq<int32>>,
                         configs: map<string, Option<string>>): (r: Option<Settings>)
    ensures r.None? <==> name == "" || (numPartitions.Some? && minNumPartitions.Some?)
    ensures r.Some? ==> Acceptable(r.value)
    ensures r.Some? ==>
              && r.value.minNumPartitions == minNumPartitions
              && (numPartitions.Some? || minNumPartitions.Some? ==> r.value.numPartitions == numPartitions)
              && (numPartitions.None? && minNumPartitions.None? ==> r.value.numPartitions == Some(1))
              && r.value.replicationFactor == Some(if replicationFactor.Some? then replicationFactor.value else 1)
              && r.value.replicaAssignment == replicaAssignment && r.value.configs == configs
  {
    if name == "" then None
    else if numPartitions.Some? && minNumPartitions.Some? then None
    else
      Some(Settings(if numPartitions.None? && minNumPartitions.None? then Some(1) else numPartitions, minNumPartitions,
                    if replicationFactor.None? then Some(1) else replicationFactor,
                    replicaAssignment, configs, false))
  }

  /** What the handler may be given: a request the builder let through. */
  predicate Acceptable(req: Settings) {
    (req.numPartitions.None? || req.minNumPartitions.None?) && !req.versioned
  }

  // ---- How far one attempt gets ----------------------------------------------------------------

  datatype Progress = NotMarked | Marked(done: set<TopicId>) | Saved

  function Linked(topics: map<TopicId, Topic>): set<TopicId> {
    set id | id in topics && topics[id].linked
  }

  /** The topics after the marking, those in `done` also updated. */
  function TopicsAfter(topics: map<TopicId, Topic>, req: Settings, done: set<TopicId>): map<TopicId, Topic> {
    map id | id in topics ::
      if !topics[id].linked then topics[id]
      else if id in done then topics[id].(dirty := false, settings := req)
      else topics[id].(dirty := true)
  }

  /** Is there anything to propagate: the configs changed and nothing else did. */
  predicate Propagates(s: State, req: Settings) {
    s.template.Some? && ReadOnlyEqual(s.template.value, req) && s.template.value.configs != req.configs
  }

  function SaveTemplate(t: Settings, req: Settings): Settings {
    req.(versioned := t.versioned)
  }

  /** The committed state after an attempt that got as far as `p`. */
  function After(s: State, req: Settings, p: Progress): State
    requires Propagates(s, req)
  {
    match p
    case NotMarked => s
    case Marked(done) => s.(topics := TopicsAfter(s.topics, req, done))
    case Saved => State(Some(SaveTemplate(s.template.value, req)), TopicsAfter(s.topics, req, Linked(s.topics)))
  }

  /** Every attempt: creation, refusal, nothing to do, or a propagation that gets as far as `p`. */
  function Attempt(s: State, req: Settings, p: Progress): State {
    if s.template.None? then (if p.Saved? then s.(template := Some(req)) else s)
    else if Propagates(s, req) then After(s, req, p)
    else s
  }

  // ---- Safety at every failure point -----------------------------------------------------------

  /** A linked topic that is not dirty carries these settings. */
  ghost predicate CleanCarry(s: State, req: Settings) {
    forall id :: id in s.topics && s.topics[id].linked && !s.topics[id].dirty ==> s.topics[id].settings == req
  }

  /** Equal in everything a template holds, absent and -1 being one number. */
  predicate Same(a: Settings, b: Settings) {
    ReadOnlyEqual(a, b) && a.configs == b.configs
  }

  /** No linked topic is dirty and all of them carry what the template holds. */
  ghost predicate Agreed(s: State) {
    forall id :: id in s.topics && s.topics[id].linked ==>
      !s.topics[id].dirty && s.template.Some? && Same(s.topics[id].settings, s.template.value)
  }

  /** From the marking on, a linked topic that is not dirty carries the new settings; the rest is untouched. */
  lemma SafeAtEveryPoint(s: State, req: Settings, p: Progress)
    requires Propagates(s, req)
    ensures !p.NotMarked? ==> CleanCarry(After(s, req, p), req)
    ensures !p.Saved? ==> After(s, req, p).template == s.template
    ensures forall id :: id in s.topics && !s.topics[id].linked ==> After(s, req, p).topics[id] == s.topics[id]
    ensures Linked(After(s, req, p).topics) == Linked(s.topics)
    ensures After(s, req, Saved).topics == After(s, req, Marked(Linked(s.topics))).topics
  {}

  /** Full success leaves no dirty topic and everything in agreement, versioned flags of the topics reset. */
  lemma SuccessAgrees(s: State, req: Settings)
    requires Propagates(s, req)
    ensures var after := After(s, req, Saved);
            Agreed(after) && CleanCarry(after, req) && after.template.value.(versioned := req.versioned) == req
    ensures forall id :: id in s.topics && s.topics[id].linked ==>
              After(s, req, Saved).topics[id].settings.versioned == req.versioned
  {}

  // ---- Convergence -----------------------------------------------------------------------------

  /** Attempts with the same request, none of which got through. */
  function FailedAttempts(s: State, req: Settings, ps: seq<Progress>): State
    decreases |ps|
  {
    if ps == [] then s else FailedAttempts(Attempt(s, req, ps[0]), req, ps[1..])
  }

  /** After any partial failures, repeating the request ends exactly where its first success would have. */
  lemma {:induction false} RepetitionConverges(s: State, req: Settings, ps: seq<Progress>)
    requires Propagates(s, req) && forall i :: 0 <= i < |ps| ==> !ps[i].Saved?
    ensures Propagates(FailedAttempts(s, req, ps), req)
    ensures After(FailedAttempts(s, req, ps), req, Saved) == After(s, req, Saved)
    decreases |ps|
  {
    if ps != [] {
      var s1 := Attempt(s, req, ps[0]);
      RepetitionConverges(s1, req, ps[1..]);
      assert Linked(s1.topics) == Linked(s.topics);
      assert TopicsAfter(s1.topics, req, Linked(s.topics)) == TopicsAfter(s.topics, req, Linked(s.topics));
    }
  }

  // ---- Runs of different requests --------------------------------------------------------------

  /** Between requests topics are applied with the template as it is stored: new ones, and known ones again. */
  datatype Step = Request(req: Settings, p: Progress) | ApplyTopic(id: TopicId)

  /**
   A topic applied with the template: created with its settings, or, when known, pointed at it and given its
   settings unless they are equal. The dirty flag of a known topic stays.
   */
  function Applied(s: State, id: TopicId): Topic
    requires s.template.Some?
  {
    if id !in s.topics then Topic(true, false, s.template.value)
    else
      var t := s.topics[id];
      if t.linked && NormalSettings(t.settings) == NormalSettings(s.template.value) then t
      else Topic(true, t.dirty, s.template.value)
  }

  function Next(s: State, step: Step): State {
    match step
    case Request(req, p) => Attempt(s, req, p)
    case ApplyTopic(id) => if s.template.Some? then s.(topics := s.topics[id := Applied(s, id)]) else s
  }

  function Run(s: State, steps: seq<Step>): State
    decreases |steps|
  {
    if steps == [] then s else Run(Next(s, steps[0]), steps[1..])
  }

  ghost predicate CleanAgree(s: State) {
    exists x :: CleanCarry(s, x)
  }

  /** Over every run of requests, each failing wherever it may, the clean linked topics carry one common setting. */
  lemma {:induction false} CleanTopicsAlwaysAgree(s: State, steps: seq<Step>)
    requires CleanAgree(s) && forall i :: 0 <= i < |steps| ==> steps[i].Request?
    ensures CleanAgree(Run(s, steps))
    decreases |steps|
  {
    if steps != [] {
      var s1 := Next(s, steps[0]);
      if Marks(s, steps[0]) {
        SafeAtEveryPoint(s, steps[0].req, steps[0].p);
        assert CleanCarry(s1, steps[0].req);
      } else {
        var x :| CleanCarry(s, x);
        assert CleanCarry(s1, x);
      }
      CleanTopicsAlwaysAgree(s1, steps[1..]);
    }
  }

  // ---- Exactly when topics and template agree --------------------------------------------------

  /** The step marks topics dirty: a request to be propagated gets at least that far. */
  predicate Marks(s: State, step: Step) {
    step.Request? && Propagates(s, step.req) && !step.p.NotMarked?
  }

  /**
   What is left of the last request that marked topics: those still to be updated, and those it updated
   while the template was not saved. Applying a topic again takes it out of the second.
   */
  datatype Trace = Trace(marked: set<TopicId>, ahead: set<TopicId>)

  const SETTLED := Trace({}, {})

  function NextTrace(trace: Trace, s: State, step: Step): Trace {
    match step
    case Request(req, p) =>
      if !Marks(s, step) then trace
      else if p.Saved? then SETTLED
      else Trace(Linked(s.topics) - p.done, Linked(s.topics) * p.done)
    case ApplyTopic(id) =>
      if s.template.None? then trace
      else Trace(if id in s.topics && s.topics[id].dirty then trace.marked + {id} else trace.marked, trace.ahead - {id})
  }

  function TraceAfter(trace: Trace, s: State, steps: seq<Step>): Trace
    decreases |steps|
  {
    if steps == [] then trace else TraceAfter(NextTrace(trace, s, steps[0]), Next(s, steps[0]), steps[1..])
  }

  predicate Clean(s: State, id: TopicId) {
    id in s.topics && s.topics[id].linked && !s.topics[id].dirty
  }

  /** The linked topics that are not dirty carry the same, absent and -1 being one number. */
  ghost predicate CleanSame(s: State) {
    forall i, j :: Clean(s, i) && Clean(s, j) ==> Same(s.topics[i].settings, s.topics[j].settings)
  }

  /** The trace tells the dirty topics, and the clean ones that hold other configs than the template. */
  ghost predicate Shows(trace: Trace, s: State) {
    && (forall id :: id in trace.marked <==> id in s.topics && s.topics[id].linked && s.topics[id].dirty)
    && (forall id :: id in trace.ahead ==> Clean(s, id))
    && (forall id :: Clean(s, id) ==> s.template.Some?)
    && (forall id :: Clean(s, id) && id !in trace.ahead ==> Same(s.topics[id].settings, s.template.value))
    && (forall id :: id in trace.ahead ==> s.topics[id].settings.configs != s.template.value.configs)
    && (forall i, j :: i in trace.ahead && j in trace.ahead ==> Same(s.topics[i].settings, s.topics[j].settings))
  }

  lemma RequestShows(trace: Trace, s: State, req: Settings, p: Progress)
    requires Shows(trace, s)
    ensures Shows(NextTrace(trace, s, Request(req, p)), Attempt(s, req, p))
  {
    if Marks(s, Request(req, p)) {
      SafeAtEveryPoint(s, req, p);
      var after := After(s, req, p);
      if p.Saved? {
        SuccessAgrees(s, req);
      } else {
        forall id | Clean(after, id) ensures id in Linked(s.topics) * p.done && after.topics[id].settings == req {
          assert id in s.topics && s.topics[id].linked;
        }
      }
    } else if s.template.None? {
      assert Attempt(s, req, p).topics == s.topics;
      assert forall id :: Clean(Attempt(s, req, p), id) ==> Clean(s, id);
    } else {
      assert Attempt(s, req, p) == s;
    }
  }

  lemma ApplyShows(trace: Trace, s: State, id: TopicId)
    requires Shows(trace, s)
    ensures Shows(NextTrace(trace, s, ApplyTopic(id)), Next(s, ApplyTopic(id)))
  {
    if s.template.Some? {
      var after := Next(s, ApplyTopic(id));
      assert forall x :: x in s.topics && x != id ==> after.topics[x] == s.topics[x];
      assert Same(after.topics[id].settings, s.template.value);
    }
  }

  lemma {:induction false} RunShows(trace: Trace, s: State, steps: seq<Step>)
    requires Shows(trace, s)
    ensures Shows(TraceAfter(trace, s, steps), Run(s, steps))
    decreases |steps|
  {
    if steps != [] {
      match steps[0] {
        case Request(req, p) => RequestShows(trace, s, req, p);
        case ApplyTopic(id) => ApplyShows(trace, s, id);
      }
      RunShows(NextTrace(trace, s, steps[0]), Next(s, steps[0]), steps[1..]);
    }
  }

  /**
   Over every run, topics and template agree iff the last request that marked topics was saved, or marked
   none, or each topic it updated has been applied again since and it had updated all.
   */
  lemma AgreesAfterRunIff(s: State, steps: seq<Step>)
    requires Agreed(s)
    ensures Agreed(Run(s, steps)) <==> TraceAfter(SETTLED, s, steps) == SETTLED
  {
    RunShows(SETTLED, s, steps);
    var trace, after := TraceAfter(SETTLED, s, steps), Run(s, steps);
    if trace.ahead != {} {
      var id :| id in trace.ahead;
      assert Clean(after, id) && !Same(after.topics[id].settings, after.template.value);
    }
    if trace.marked != {} {
      var id :| id in trace.marked;
      assert after.topics[id].dirty;
    }
    if trace == SETTLED {
      forall id | id in after.topics && after.topics[id].linked
        ensures !after.topics[id].dirty && after.template.Some? && Same(after.topics[id].settings, after.template.value)
      {
        assert id !in trace.marked && id !in trace.ahead;
        assert Clean(after, id);
      }
    }
  }

  /**
   Over every run, the linked topics that are not dirty carry the same iff none of them is ahead of the
   template or all of them are.
   */
  lemma CleanTopicsAgreeIff(s: State, steps: seq<Step>)
    requires Agreed(s)
    ensures var trace := TraceAfter(SETTLED, s, steps);
            CleanSame(Run(s, steps)) <==>
              trace.ahead == {} || trace.ahead == Linked(Run(s, steps).topics) - trace.marked
  {
    RunShows(SETTLED, s, steps);
    var trace, after := TraceAfter(SETTLED, s, steps), Run(s, steps);
    assert forall id :: Clean(after, id) <==> id in Linked(after.topics) - trace.marked;
    if trace.ahead != {} && trace.ahead != Linked(after.topics) - trace.marked {
      var i :| i in trace.ahead;
      var j :| j in Linked(after.topics) - trace.marked && j !in trace.ahead;
      assert Clean(after, i) && Clean(after, j) && !Same(after.topics[i].settings, after.topics[j].settings);
    }
  }

  /**
   A request answered with success after a run leaves agreement iff it was propagated, its configs being
   other than the stored ones, or nothing is left of the requests before it.
   */
  lemma SuccessfulAnswerAgreesIff(s: State, steps: seq<Step>, req: Settings)
    requires Agreed(s) && Run(s, steps).template.Some? && ReadOnlyEqual(Run(s, steps).template.value, req)
    ensures Agreed(Attempt(Run(s, steps), req, Saved)) <==>
              Run(s, steps).template.value.configs != req.configs || TraceAfter(SETTLED, s, steps) == SETTLED
  {
    AgreesAfterRunIff(s, steps);
    if Run(s, steps).template.value.configs != req.configs {
      SuccessAgrees(Run(s, steps), req);
    }
  }

  /** Going back to the stored settings after a partial failure is answered with success and repairs nothing. */
  lemma OldRequestRepairsNothing(s: State, req: Settings, id: TopicId)
    requires Propagates(s, req) && id in s.topics && s.topics[id].linked
    ensures var broken := After(s, req, Marked({id}));
            var back := Attempt(broken, s.template.value, Saved);
            && back == broken && back.topics[id].settings == req
            && back.topics[id].settings.configs != s.template.value.configs
  {}

  // ---- The handler -----------------------------------------------------------------------------

  datatype Answer = Created | NotChanged | Propagated | ReadOnlyChange | Broken

  class TemplateStore {
    var template: Option<Settings>
    var topics: map<TopicId, Topic>

    constructor (topics: map<TopicId, Topic>)
      ensures View() == State(None, topics)
    {
      template, this.topics := None, topics;
    }

    function View(): State
      reads this
    {
      State(template, topics)
    }

    /** Every linked topic is marked dirty or updated already, the others are as they were. */
    ghost predicate LeftBehind(was: map<TopicId, Topic>, req: Settings)
      reads this
    {
      && topics.Keys == was.Keys
      && forall id :: id in topics ==>
           if was[id].linked then topics[id] in {Topic(true, true, was[id].settings), Topic(true, false, req)}
           else topics[id] == was[id]
    }

    /** ApplyKafkaTopicTemplate. At most `budget` of its writes succeed; the next one fails and ends it. */
    method ApplyKafkaTopicTemplate(req: Settings, budget: nat) returns (answer: Answer, ghost p: Progress)
      requires Acceptable(req)
      modifies this
      ensures View() == Attempt(old(View()), req, p)
      ensures answer == Created <==> old(template).None? && p.Saved?
      ensures answer == ReadOnlyChange <==> old(template).Some? && !ReadOnlyEqual(old(template).value, req)
      ensures answer == NotChanged <==>
                && old(template).Some? && ReadOnlyEqual(old(template).value, req)
                && old(template).value.configs == req.configs
      ensures answer == Propagated <==> Propagates(old(View()), req) && p.Saved?
      ensures answer == Created ==> template == Some(req) && topics == old(topics)
      ensures answer in {NotChanged, ReadOnlyChange} ==> template == old(template) && topics == old(topics)
      ensures answer == Propagated ==>
                && template == Some(req.(versioned := old(template).value.versioned))
                && topics.Keys == old(topics).Keys
                && forall id :: id in topics ==>
                     var was := old(topics)[id];
                     topics[id] == if was.linked then Topic(true, false, req) else was
      ensures answer == Broken ==>
                && template == old(template)
                && (topics == old(topics) || LeftBehind(old(topics), req))
      ensures budget > |old(topics)| + 1 ==> answer != Broken
    {
      p := NotMarked;
      if template.None? {
        if budget == 0 { return Broken, p; }
        template := Some(req);
        return Created, Saved;
      }
      var readOnly := ReadOnlySettingsAreEqual(template.value, Some(req));
      if !readOnly { return ReadOnlyChange, p; }
      var configs := StringMapsAreEqual(template.value.configs, req.configs);
      if configs { return NotChanged, p; }
      var ok;
      ok, p := Propagate(req, budget);
      answer := if ok then Propagated else Broken;
    }

    /** The writes of a propagation: the marking, one update per topic found before it, the template. */
    method Propagate(req: Settings, budget: nat) returns (ok: bool, ghost p: Progress)
      requires Acceptable(req) && Propagates(View(), req)
      modifies this
      ensures View() == After(old(View()), req, p)
      ensures ok <==> p.Saved?
      ensures budget > |old(topics)| + 1 ==> ok
    {
      ghost var s := View();
      var read := topics;
      var found := Linked(read);
      LinkedAreFewer(read);
      if budget == 0 { return false, NotMarked; }
      topics := TopicsAfter(topics, req, {}); // all linked topics become dirty at once
      var left: int := budget - 1;
      while found != {}
        invariant left >= 0 && found <= Linked(read)
        invariant View() == After(s, req, Marked(Linked(read) - found))
        invariant budget > |read| + 1 ==> left >= |found| + 1
      {
        var id :| id in found;
        p := Marked(Linked(read) - found);
        var rest, remaining := Take(found, id, left);
        if remaining < 0 { return false, p; }
        var updated := UpdateTopic(read[id], req);
        topics := topics[id := updated];
        TopicsAfterOneMore(read, req, Linked(read) - found, id);
        assert Linked(read) - rest == Linked(read) - found + {id};
        found, left := rest, remaining;
      }
      assert Linked(read) - {} == Linked(read);
      if left == 0 { return false, Marked(Linked(read)); }
      template := Some(SaveTemplate(template.value, req));
      ok, p := true, Saved;
    }

    /** UpdateTopicSettingsByTemplate, on the topic as it was read before the marking. */
    method UpdateTopic(topic: Topic, req: Settings) returns (updated: Topic)
      requires Acceptable(req)
      ensures updated == topic.(dirty := false, settings := req)
    {
      var outcome, row := UpdateSettings(Registration(None, 0, topic.settings), req, true);
      updated := topic.(dirty := false, settings := row.settings);
    }
  }

  /** One topic off the list, one write off the budget. */
  method Take(found: set<TopicId>, id: TopicId, left: int) returns (rest: set<TopicId>, remaining: int)
    requires id in found
    ensures rest == found - {id} && |rest| == |found| - 1 && remaining == left - 1
  {
    rest, remaining := found - {id}, left - 1;
  }

  lemma TopicsAfterOneMore(topics: map<TopicId, Topic>, req: Settings, done: set<TopicId>, id: TopicId)
    requires id in Linked(topics)
    ensures TopicsAfter(topics, req, done)[id := topics[id].(dirty := false, settings := req)]
         == TopicsAfter(topics, req, done + {id})
  {}

  lemma LinkedAreFewer(topics: map<TopicId, Topic>)
    ensures |Linked(topics)| <= |topics|
  {
    SubsetIsSmaller(Linked(topics), topics.Keys);
  }

  lemma SubsetIsSmaller<T>(a: set<T>, b: set<T>)
    requires a <= b
    ensures |a| <= |b|
  {
    assert |b - a| == |b| - |a|;
  }
}
