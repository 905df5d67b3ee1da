/**
 Custom resources whose topic template is missing are parked in a wait list and retried, in one pass,
 whenever another resource of their namespace is applied. Namespaces are outside any blue/green domain,
 so a template is found by its name and namespace alone.
 */
module WaitList {
  import opened Wrappers

  type Name = nat
  type Namespace = nat
  type TrackingId = nat

  datatype Kind = Topic | LazyTopic | TenantTopic | TopicTemplate | VHost

  datatype Action = Create | Delete

  /** A custom resource: `spec` stands for the rest of the request. */
  datatype Resource = Resource(kind: Kind, name: Name, namespace: Namespace, template: Option<Name>, spec: nat)

  datatype Status = InProgress | Completed | Failed | Terminated

  datatype Entry = Entry(resource: Resource, status: Status, handlerFailed: bool)

  /** The stored templates and the table custom_resource_waits with its key sequence. */
  datatype State = State(templates: set<(Name, Namespace)>, waits: map<TrackingId, Entry>, nextId: TrackingId)

  // ---- Handlers --------------------------------------------------------------------------------

  predicate Registered(kind: Kind, action: Action) {
    action == Create || kind in {Topic, TenantTopic, TopicTemplate}
  }

  /** Kinds whose create handler carries the template pre-check. */
  predicate PreChecked(kind: Kind) {
    kind in {Topic, LazyTopic, TenantTopic}
  }

  predicate DependencyMissing(templates: set<(Name, Namespace)>, r: Resource, action: Action) {
    action == Create && PreChecked(r.kind) && r.template.Some? && (r.template.value, r.namespace) !in templates
  }

  /** What a handler that succeeds does to the templates. */
  function TemplatesAfter(templates: set<(Name, Namespace)>, r: Resource, action: Action): set<(Name, Namespace)> {
    if r.kind != TopicTemplate then templates
    else if action == Create then templates + {(r.name, r.namespace)}
    else templates - {(r.name, r.namespace)}
  }

  // ---- The wait list DAO -----------------------------------------------------------------------

  predicate Same(a: Resource, b: Resource) {
    a.name == b.name && a.namespace == b.namespace
  }

  predicate Listed(waits: map<TrackingId, Entry>, r: Resource) {
    exists id :: id in waits && Same(waits[id].resource, r)
  }

  /** INSERT ... ON CONFLICT DO NOTHING under the unique index on name and namespace. */
  function Park(s: State, r: Resource): State {
    s.(waits := if Listed(s.waits, r) then s.waits else s.waits[s.nextId := Entry(r, InProgress, false)],
       nextId := s.nextId + 1)
  }

  function SetStatus(waits: map<TrackingId, Entry>, id: TrackingId, status: Status): map<TrackingId, Entry> {
    if id in waits then waits[id := waits[id].(status := status)] else waits
  }

  function DeleteByNameAndNamespace(waits: map<TrackingId, Entry>, r: Resource): map<TrackingId, Entry> {
    map id | id in waits && !Same(waits[id].resource, r) :: waits[id]
  }

  function DeleteByNamespace(waits: map<TrackingId, Entry>, ns: Namespace): map<TrackingId, Entry> {
    map id | id in waits && waits[id].resource.namespace != ns :: waits[id]
  }

  predicate Waiting(waits: map<TrackingId, Entry>, id: TrackingId, ns: Namespace) {
    id in waits && waits[id].status == InProgress && waits[id].resource.namespace == ns
  }

  /** An entry after its turn in the retry pass; `failing` are those whose handler reports another error. */
  function Retried(templates: set<(Name, Namespace)>, e: Entry, fails: bool): Entry {
    if DependencyMissing(templates, e.resource, Create) then e
    else Entry(e.resource, Completed, if fails then true else e.handlerFailed)
  }

  function RetryPass(s: State, ns: Namespace, failing: set<TrackingId>): map<TrackingId, Entry> {
    map id | id in s.waits ::
      if Waiting(s.waits, id, ns) then Retried(s.templates, s.waits[id], id in failing) else s.waits[id]
  }

  /** FAILED has been stored for this entry, and COMPLETED is refused. */
  predicate Sticks(s: State, ns: Namespace, failing: set<TrackingId>, stuck: Option<TrackingId>, id: TrackingId) {
    && Waiting(s.waits, id, ns) && stuck == Some(id) && id in failing
    && !DependencyMissing(s.templates, s.waits[id].resource, Create)
  }

  /** A pass that breaks off after the entries in `visited`, perhaps between the two updates of another one. */
  function BrokenPass(s: State, ns: Namespace, failing: set<TrackingId>, visited: set<TrackingId>,
                      stuck: Option<TrackingId>)
    : map<TrackingId, Entry>
  {
    map id | id in s.waits ::
      if Waiting(s.waits, id, ns) && id in visited then Retried(s.templates, s.waits[id], id in failing)
      else if Sticks(s, ns, failing, stuck, id) then Entry(s.waits[id].resource, Failed, true)
      else s.waits[id]
  }

  // ---- Steps -----------------------------------------------------------------------------------

  /**
   `execOk`: the resource's own handler succeeds after its pre-check. An interrupted request is one whose
   handler succeeds and whose retry pass, or the removal after it, is cut short by an error.
   */
  datatype Step =
    | Apply(resource: Resource, action: Action, execOk: bool, failing: set<TrackingId>)
    | Interrupted(resource: Resource, action: Action, failing: set<TrackingId>,
                  visited: set<TrackingId>, stuck: Option<TrackingId>)
    | Terminate(id: TrackingId)
    | Cleanup(namespace: Namespace)

  datatype Answer = Applied | Parked | Refused | Broken

  function AnswerTo(s: State, step: Step): Answer {
    match step
    case Apply(r, action, execOk, _) =>
      if !Registered(r.kind, action) then Refused
      else if DependencyMissing(s.templates, r, action) then Parked
      else if execOk then Applied else Refused
    case Interrupted(r, action, _, _, _) =>
      if !Registered(r.kind, action) then Refused
      else if DependencyMissing(s.templates, r, action) then Parked
      else Broken
    case Terminate(id) => if id in s.waits then Applied else Refused
    case Cleanup(_) => Applied
  }

  function Next(s: State, step: Step): State {
    match step
    case Apply(r, action, execOk, failing) =>
      (match AnswerTo(s, step)
       case Refused => s
       case Parked => Park(s, r)
       case Applied =>
         var s1 := s.(templates := TemplatesAfter(s.templates, r, action));
         s1.(waits := DeleteByNameAndNamespace(RetryPass(s1, r.namespace, failing), r)))
    case Interrupted(r, action, failing, visited, stuck) =>
      (match AnswerTo(s, step)
       case Refused => s
       case Parked => Park(s, r)
       case Broken => BrokenState(s, r, action, failing, visited, stuck))
    case Terminate(id) => s.(waits := SetStatus(s.waits, id, Terminated))
    case Cleanup(ns) => s.(waits := DeleteByNamespace(s.waits, ns))
  }

  function BrokenState(s: State, r: Resource, action: Action, failing: set<TrackingId>, visited: set<TrackingId>,
                       stuck: Option<TrackingId>): State
  {
    var s1 := s.(templates := TemplatesAfter(s.templates, r, action));
    s1.(waits := BrokenPass(s1, r.namespace, failing, visited, stuck))
  }

  function Run(s: State, steps: seq<Step>): State
    decreases |steps|
  {
    if steps == [] then s else Run(Next(s, steps[0]), steps[1..])
  }

  ghost predicate Wellformed(s: State) {
    && (forall id :: id in s.waits ==> id < s.nextId)
    && (forall i, j :: i in s.waits && j in s.waits && Same(s.waits[i].resource, s.waits[j].resource) ==> i == j)
  }

  // ---- Closure ---------------------------------------------------------------------------------

  /** No entry in progress could be applied: each one's template is missing. */
  ghost predicate ClosedIn(s: State, ns: Namespace) {
    forall id :: Waiting(s.waits, id, ns) ==> DependencyMissing(s.templates, s.waits[id].resource, Create)
  }

  /** One pass in a namespace closes it, whatever was left there before. */
  lemma AppliedCloses(s: State, step: Step)
    requires step.Apply? && AnswerTo(s, step) == Applied
    ensures ClosedIn(Next(s, step), step.resource.namespace)
  {
    var s1 := s.(templates := TemplatesAfter(s.templates, step.resource, step.action));
    var passed := RetryPass(s1, step.resource.namespace, step.failing);
    forall id | Waiting(Next(s, step).waits, id, step.resource.namespace)
      ensures DependencyMissing(s1.templates, Next(s, step).waits[id].resource, Create)
    {
      assert Next(s, step).waits[id] == passed[id];
    }
  }

  /** The interrupted request has left this entry in progress although its template is there. */
  predicate LeftApplicable(s: State, step: Step, id: TrackingId)
    requires step.Interrupted?
  {
    var s1 := s.(templates := TemplatesAfter(s.templates, step.resource, step.action));
    && Waiting(s.waits, id, step.resource.namespace) && id !in step.visited
    && !DependencyMissing(s1.templates, s.waits[id].resource, Create)
    && !Sticks(s1, step.resource.namespace, step.failing, step.stuck, id)
  }

  /** Exactly when an interrupted request leaves its namespace closed, whatever was there before. */
  lemma BrokenPassClosesIff(s: State, step: Step)
    requires step.Interrupted? && AnswerTo(s, step) == Broken
    ensures ClosedIn(Next(s, step), step.resource.namespace) <==> !exists id :: LeftApplicable(s, step, id)
  {
    var s1 := s.(templates := TemplatesAfter(s.templates, step.resource, step.action));
    var after := Next(s, step);
    forall id
      ensures LeftApplicable(s, step, id) <==>
                && Waiting(after.waits, id, step.resource.namespace)
                && !DependencyMissing(s1.templates, after.waits[id].resource, Create)
    {
    }
  }

  /** The input: a topic waits for a template, and the request that creates it breaks off before the first entry. */
  lemma BrokenPassLeavesApplicableEntry(r: Resource, spec: nat)
    requires PreChecked(r.kind) && r.template.Some?
    ensures var s := State({}, map[0 := Entry(r, InProgress, false)], 1);
            var template := Resource(TopicTemplate, r.template.value, r.namespace, None, spec);
            var step := Interrupted(template, Create, {}, {}, None);
            && ClosedIn(s, r.namespace) && AnswerTo(s, step) == Broken
            && LeftApplicable(s, step, 0) && !ClosedIn(Next(s, step), r.namespace)
  {
    var s := State({}, map[0 := Entry(r, InProgress, false)], 1);
    var template := Resource(TopicTemplate, r.template.value, r.namespace, None, spec);
    var step := Interrupted(template, Create, {}, {}, None);
    assert LeftApplicable(s, step, 0);
    BrokenPassClosesIff(s, step);
  }

  /** The step is not an interrupted request of this namespace that leaves an applicable entry. */
  ghost predicate Harmless(s: State, step: Step, ns: Namespace) {
    step.Interrupted? && AnswerTo(s, step) == Broken && step.resource.namespace == ns ==>
      !exists id :: LeftApplicable(s, step, id)
  }

  /** A step keeps a namespace closed exactly when it is harmless there. */
  lemma StepKeepsClosed(s: State, step: Step, ns: Namespace)
    requires ClosedIn(s, ns)
    ensures ClosedIn(Next(s, step), ns) <==> Harmless(s, step, ns)
  {
    if step.Terminate? || step.Cleanup? || AnswerTo(s, step) == Refused {
    } else if AnswerTo(s, step) == Parked {
      assert forall id :: id in s.waits ==> Park(s, step.resource).waits[id] == s.waits[id] || id == s.nextId;
    } else if step.resource.namespace == ns {
      if step.Apply? {
        AppliedCloses(s, step);
      } else {
        BrokenPassClosesIff(s, step);
      }
    }
  }

  /** All steps of the run are harmless in the namespace. */
  ghost predicate AllHarmless(s: State, steps: seq<Step>, ns: Namespace)
    decreases |steps|
  {
    steps != [] ==> Harmless(s, steps[0], ns) && AllHarmless(Next(s, steps[0]), steps[1..], ns)
  }

  /** Over every run of harmless steps no entry in progress has its template present. */
  lemma {:induction false} AlwaysClosed(s: State, steps: seq<Step>, ns: Namespace)
    requires ClosedIn(s, ns) && AllHarmless(s, steps, ns)
    ensures ClosedIn(Run(s, steps), ns)
    decreases |steps|
  {
    if steps != [] {
      StepKeepsClosed(s, steps[0], ns);
      AlwaysClosed(Next(s, steps[0]), steps[1..], ns);
    }
  }

  lemma SuccessIsHarmless(s: State, steps: seq<Step>, ns: Namespace)
    requires forall i :: 0 <= i < |steps| ==> !steps[i].Interrupted?
    ensures AllHarmless(s, steps, ns)
    decreases |steps|
  {
    if steps != [] {
      SuccessIsHarmless(Next(s, steps[0]), steps[1..], ns);
    }
  }

  /** Whatever broke off before, the next applied resource of the namespace closes it, and harmless steps keep it so. */
  lemma ClosedAgainAfterApplied(s: State, step: Step, later: seq<Step>)
    requires step.Apply? && AnswerTo(s, step) == Applied && AllHarmless(Next(s, step), later, step.resource.namespace)
    ensures ClosedIn(Run(s, [step] + later), step.resource.namespace)
  {
    AppliedCloses(s, step);
    AlwaysClosed(Next(s, step), later, step.resource.namespace);
    assert ([step] + later)[1..] == later;
  }

  // ---- The life of an entry --------------------------------------------------------------------

  ghost predicate InProgressAt(s: State, id: TrackingId) {
    id in s.waits && s.waits[id].status == InProgress
  }

  /** Every entry is the newly parked one or an earlier one with its resource unchanged. */
  ghost predicate Evolves(s: State, after: State) {
    && s.nextId <= after.nextId
    && (forall id :: id in after.waits ==>
          if id in s.waits then after.waits[id].resource == s.waits[id].resource
          else id == s.nextId && after.waits[id].status == InProgress)
    && (forall id :: id in after.waits && id in s.waits && after.waits[id].status != s.waits[id].status ==>
          after.waits[id].status in {Completed, Terminated, Failed})
  }

  lemma ParkKeepsEntries(s: State, r: Resource)
    requires Wellformed(s)
    ensures Wellformed(Park(s, r)) && Evolves(s, Park(s, r))
  {
    if !Listed(s.waits, r) {
      assert forall i :: i in s.waits ==> !Same(s.waits[i].resource, r);
    }
  }

  lemma OthersKeepEntries(s: State, step: Step)
    requires Wellformed(s) && AnswerTo(s, step) != Parked
    ensures Evolves(s, Next(s, step)) && Next(s, step).nextId == s.nextId
    ensures forall id :: id in Next(s, step).waits ==> id in s.waits
  {}

  /** A step keeps names unique and keys fresh, and changes no entry but in its status. */
  lemma StepKeepsEntries(s: State, step: Step)
    requires Wellformed(s)
    ensures Wellformed(Next(s, step)) && Evolves(s, Next(s, step))
  {
    if AnswerTo(s, step) == Parked {
      ParkKeepsEntries(s, step.resource);
    } else {
      OthersKeepEntries(s, step);
      FewerEntries(s, Next(s, step));
    }
  }

  lemma FewerEntries(s: State, after: State)
    requires Wellformed(s) && after.nextId == s.nextId
    requires forall id :: id in after.waits ==> id in s.waits && after.waits[id].resource == s.waits[id].resource
    ensures Wellformed(after)
  {}

  /** An entry that has left IN_PROGRESS never returns to it, however the run goes on. */
  lemma {:induction false} LeavesInProgressForGood(s: State, steps: seq<Step>, id: TrackingId)
    requires Wellformed(s) && id < s.nextId && !InProgressAt(s, id)
    ensures !InProgressAt(Run(s, steps), id)
    decreases |steps|
  {
    if steps != [] {
      StepKeepsEntries(s, steps[0]);
      LeavesInProgressForGood(Next(s, steps[0]), steps[1..], id);
    }
  }

  /** The request breaks off between the two status updates of this entry. */
  predicate BreaksBetween(s: State, step: Step, id: TrackingId) {
    && step.Interrupted? && AnswerTo(s, step) == Broken && id !in step.visited
    && Sticks(s.(templates := TemplatesAfter(s.templates, step.resource, step.action)), step.resource.namespace,
              step.failing, step.stuck, id)
  }

  /** An entry becomes FAILED exactly when a request breaks off between its two updates. */
  lemma FailedIff(s: State, step: Step, id: TrackingId)
    requires Wellformed(s) && id in Next(s, step).waits
    ensures Next(s, step).waits[id].status == Failed <==>
              || (id in s.waits && s.waits[id].status == Failed && step != Terminate(id))
              || BreaksBetween(s, step, id)
  {
    StepKeepsEntries(s, step);
  }

  /** COMPLETED overwrites FAILED in the same turn, so no run leaves an entry failed unless it breaks off in between. */
  lemma {:induction false} FailedIsNeverReported(s: State, steps: seq<Step>, id: TrackingId)
    requires Wellformed(s) && forall i :: i in s.waits ==> s.waits[i].status != Failed
    requires forall i :: 0 <= i < |steps| ==> (steps[i].Interrupted? ==> steps[i].stuck.None?)
    ensures id in Run(s, steps).waits ==> Run(s, steps).waits[id].status != Failed
    decreases |steps|
  {
    if steps != [] {
      StepKeepsEntries(s, steps[0]);
      forall i | i in Next(s, steps[0]).waits ensures Next(s, steps[0]).waits[i].status != Failed {
        FailedIff(s, steps[0], i);
      }
      FailedIsNeverReported(Next(s, steps[0]), steps[1..], id);
    }
  }

  /** When its template arrives a parked resource is completed, or removed if it shares the template's name. */
  lemma ArrivalCompletes(s: State, step: Step, id: TrackingId)
    requires step.Apply? && step.resource.kind == TopicTemplate && step.action == Create
    requires AnswerTo(s, step) == Applied
    requires Waiting(s.waits, id, step.resource.namespace) && s.waits[id].resource.template == Some(step.resource.name)
    ensures var after := Next(s, step).waits;
            if s.waits[id].resource.name == step.resource.name then id !in after
            else id in after && after[id].status == Completed
  {
  }

  /** A resource whose template is missing is parked exactly when no entry has its name and namespace yet. */
  lemma ParkedIff(s: State, step: Step)
    requires Wellformed(s) && step.Apply? && AnswerTo(s, step) == Parked
    ensures (exists id :: id in Next(s, step).waits
                          && Next(s, step).waits[id] == Entry(step.resource, InProgress, false)
                          && id !in s.waits)
       <==> !Listed(s.waits, step.resource)
  {
    if !Listed(s.waits, step.resource) {
      assert Next(s, step).waits[s.nextId] == Entry(step.resource, InProgress, false);
    }
  }

  // ---- The steps in the entries' own words -----------------------------------------------------

  /** What a request is answered with: an unknown action, a missing template or the handler's own verdict. */
  lemma AnswerIff(s: State, step: Step)
    requires step.Apply? || step.Interrupted?
    ensures var r := step.resource;
            var known := step.action == Create || r.kind in {Topic, TenantTopic, TopicTemplate};
            var parked := step.action == Create && r.kind in {Topic, LazyTopic, TenantTopic}
                          && r.template.Some? && (r.template.value, r.namespace) !in s.templates;
            && (AnswerTo(s, step) == Parked <==> parked)
            && (AnswerTo(s, step) == Applied <==> known && !parked && step.Apply? && step.execOk)
            && (AnswerTo(s, step) == Broken <==> known && !parked && step.Interrupted?)
  {}

  /** A parked resource changes nothing but the wait list, and that only if its name is not listed yet. */
  lemma ParkedEffect(s: State, step: Step)
    requires AnswerTo(s, step) == Parked
    ensures var after := Next(s, step);
            && after.templates == s.templates
            && (forall id :: id in s.waits && id != s.nextId ==> id in after.waits && after.waits[id] == s.waits[id])
            && (forall id :: id in after.waits && id != s.nextId ==> id in s.waits)
            && (s.nextId !in s.waits ==>
                  (s.nextId in after.waits <==>
                   !exists id :: id in s.waits && s.waits[id].resource.name == step.resource.name
                                 && s.waits[id].resource.namespace == step.resource.namespace))
            && (s.nextId in after.waits && s.nextId !in s.waits ==>
                  after.waits[s.nextId] == Entry(step.resource, InProgress, false))
  {
    assert Listed(s.waits, step.resource) <==>
             exists id :: id in s.waits && s.waits[id].resource.name == step.resource.name
                          && s.waits[id].resource.namespace == step.resource.namespace by {
      if Listed(s.waits, step.resource) {
        var id :| id in s.waits && Same(s.waits[id].resource, step.resource);
      }
      assert forall id :: id in s.waits ==>
        (Same(s.waits[id].resource, step.resource) <==>
         s.waits[id].resource.name == step.resource.name && s.waits[id].resource.namespace == step.resource.namespace);
    }
  }

  /** The entry is in progress in the namespace, and needs no template or one that is there. */
  predicate TakesTurn(e: Entry, ns: Namespace, templates: set<(Name, Namespace)>) {
    var r := e.resource;
    && e.status == InProgress && r.namespace == ns
    && !(r.kind in {Topic, LazyTopic, TenantTopic} && r.template.Some?
         && (r.template.value, r.namespace) !in templates)
  }

  /**
   An applied resource stores or removes its template. Then every other entry that can take its turn is
   completed, a failing handler being recorded, an entry of the resource's own name is dropped, and the
   rest is untouched.
   */
  lemma AppliedEffect(s: State, step: Step)
    requires step.Apply? && AnswerTo(s, step) == Applied
    ensures var (r, after) := (step.resource, Next(s, step));
            && after.nextId == s.nextId
            && after.templates == (if r.kind != TopicTemplate then s.templates
                                   else if step.action == Create then s.templates + {(r.name, r.namespace)}
                                   else s.templates - {(r.name, r.namespace)})
            && (forall id :: id in after.waits <==>
                  && id in s.waits
                  && (s.waits[id].resource.name != r.name || s.waits[id].resource.namespace != r.namespace))
            && forall id :: id in after.waits ==>
                 var was := s.waits[id];
                 after.waits[id] ==
                   if TakesTurn(was, r.namespace, after.templates)
                   then Entry(was.resource, Completed, id in step.failing || was.handlerFailed) else was
  {}

  // ---- The service -----------------------------------------------------------------------------

  class CustomResourceProcessorService {
    var templates: set<(Name, Namespace)>
    var waits: map<TrackingId, Entry>
    var nextId: TrackingId

    constructor ()
      ensures Valid() && Closed() && View() == State({}, map[], 0)
    {
      templates, waits, nextId := {}, map[], 0;
    }

    function View(): State
      reads this
    {
      State(templates, waits, nextId)
    }

    /** What every request leaves: unique names and fresh keys. */
    ghost predicate Valid()
      reads this
    {
      Wellformed(View())
    }

    /** What every request that is not cut short keeps: nothing parked that could be applied. */
    ghost predicate Closed()
      reads this
    {
      forall ns :: ClosedIn(View(), ns)
    }

    method CreateWait(r: Resource)
      modifies this
      ensures View() == Park(old(View()), r)
    {
      if !Listed(waits, r) {
        waits := waits[nextId := Entry(r, InProgress, false)];
      }
      nextId := nextId + 1;
    }

    /**
     applyFromWaitList: the entries in progress are taken in whatever order the query returns them. The
     query and the status updates succeed `budget` times, always if none is given; the next one fails.
     */
    method ApplyFromWaitList(ns: Namespace, failing: set<TrackingId>, budget: Option<nat>)
      returns (ok: bool, left: Option<nat>, ghost visited: set<TrackingId>, ghost stuck: Option<TrackingId>)
      modifies this
      ensures View() == old(View()).(waits := BrokenPass(old(View()), ns, failing, visited, stuck))
      ensures ok ==> View() == old(View()).(waits := RetryPass(old(View()), ns, failing))
      ensures budget.None? ==> ok && left.None?
    {
      visited, stuck := {}, None;
      ghost var start := View();
      assert waits == BrokenPass(start, ns, failing, {}, None);
      left := budget;
      if left == Some(0) { return false, left, visited, stuck; }
      left := OneLess(left);
      var found := set id | id in waits && Waiting(waits, id, ns);
      while found != {}
        invariant budget.None? ==> left.None?
        invariant forall id :: id in found ==> id !in visited && Waiting(start.waits, id, ns)
        invariant forall id :: Waiting(start.waits, id, ns) ==> id in found || id in visited
        invariant View() == start.(waits := BrokenPass(start, ns, failing, visited, None))
      {
        var id :| id in found;
        found := found - {id};
        var r := waits[id].resource;
        if DependencyMissing(templates, r, Create) {
          Visited(start, ns, failing, visited, id, waits);
          visited := visited + {id};
          continue; // leave in wait list
        }
        if id in failing {
          if left == Some(0) { return false, left, visited, None; }
          left := OneLess(left);
          waits := waits[id := Entry(r, Failed, true)];
        }
        if left == Some(0) {
          Stuck(start, ns, failing, visited, id, waits);
          return false, left, visited, Some(id);
        }
        left := OneLess(left);
        waits := SetStatus(waits, id, Completed);
        Visited(start, ns, failing, visited, id, waits);
        visited := visited + {id};
      }
      assert waits == RetryPass(start, ns, failing);
      ok := true;
    }

    /** Apply; the resource's own handler succeeds if `execOk`, the statements after it as far as `budget` goes. */
    method Apply(resource: Resource, action: Action, execOk: bool, failing: set<TrackingId>, budget: Option<nat>)
      returns (answer: Answer, ghost step: Step)
      requires Valid()
      modifies this
      ensures Valid() && answer == AnswerTo(old(View()), step) && View() == Next(old(View()), step)
      ensures answer != Broken ==> step == Step.Apply(resource, action, execOk, failing)
      ensures answer == Broken ==>
                && execOk && budget.Some?
                && step == Interrupted(resource, action, failing, step.visited, step.stuck)
      ensures answer == Applied ==> ClosedIn(View(), resource.namespace)
      ensures answer != Broken && old(Closed()) ==> Closed()
    {
      step := Step.Apply(resource, action, execOk, failing);
      Keeps(step);
      if !Registered(resource.kind, action) { return Refused, step; }
      if DependencyMissing(templates, resource, action) {
        CreateWait(resource);
        return Parked, step;
      }
      if !execOk { return Refused, step; }
      AppliedCloses(View(), step);
      templates := TemplatesAfter(templates, resource, action);
      var ok, left;
      ghost var visited, stuck;
      ok, left, visited, stuck := ApplyFromWaitList(resource.namespace, failing, budget);
      if !ok || left == Some(0) {
        step := Interrupted(resource, action, failing, visited, stuck);
        StepKeepsEntries(old(View()), step);
        return Broken, step;
      }
      waits := DeleteByNameAndNamespace(waits, resource);
      answer := Applied;
    }

    lemma Keeps(step: Step)
      requires Valid()
      ensures Wellformed(Next(View(), step))
      ensures Closed() && !step.Interrupted? ==> forall ns :: ClosedIn(Next(View(), step), ns)
    {
      StepKeepsEntries(View(), step);
      if Closed() {
        forall ns ensures ClosedIn(Next(View(), step), ns) <==> Harmless(View(), step, ns) {
          StepKeepsClosed(View(), step, ns);
        }
      }
    }

    method Terminate(id: TrackingId) returns (answer: Answer)
      requires Valid()
      modifies this
      ensures Valid()
      ensures answer == AnswerTo(old(View()), Step.Terminate(id)) && View() == Next(old(View()), Step.Terminate(id))
      ensures answer == if id in old(waits) then Applied else Refused
      ensures waits.Keys == old(waits).Keys && templates == old(templates) && nextId == old(nextId)
      ensures id in waits ==> waits[id] == old(waits)[id].(status := Terminated)
      ensures forall other :: other in waits && other != id ==> waits[other] == old(waits)[other]
      ensures old(Closed()) ==> Closed()
    {
      Keeps(Step.Terminate(id));
      answer := if id in waits then Applied else Refused;
      waits := SetStatus(waits, id, Terminated);
    }

    method CleanupNamespace(ns: Namespace)
      requires Valid()
      modifies this
      ensures Valid() && View() == Next(old(View()), Cleanup(ns))
      ensures forall id :: id in waits ==> waits[id].resource.namespace != ns
      ensures forall id :: id in waits ==> id in old(waits) && waits[id] == old(waits)[id]
      ensures forall id :: id in old(waits) && old(waits)[id].resource.namespace != ns ==> id in waits
      ensures templates == old(templates) && nextId == old(nextId)
      ensures old(Closed()) ==> Closed()
    {
      Keeps(Cleanup(ns));
      waits := DeleteByNamespace(waits, ns);
    }
  }

  /** One entry more has had its turn. */
  lemma Visited(start: State, ns: Namespace, failing: set<TrackingId>, visited: set<TrackingId>, id: TrackingId,
                waits: map<TrackingId, Entry>)
    requires Waiting(start.waits, id, ns) && id !in visited
    requires waits.Keys == start.waits.Keys && waits[id] == Retried(start.templates, start.waits[id], id in failing)
    requires forall x :: x in waits && x != id ==> waits[x] == BrokenPass(start, ns, failing, visited, None)[x]
    ensures waits == BrokenPass(start, ns, failing, visited + {id}, None)
  {}

  /** The turn of an entry broke off before COMPLETED was stored. */
  lemma Stuck(start: State, ns: Namespace, failing: set<TrackingId>, visited: set<TrackingId>, id: TrackingId,
              waits: map<TrackingId, Entry>)
    requires Waiting(start.waits, id, ns) && id !in visited
    requires !DependencyMissing(start.templates, start.waits[id].resource, Create)
    requires waits.Keys == start.waits.Keys
    requires waits[id] == if id in failing then Entry(start.waits[id].resource, Failed, true) else start.waits[id]
    requires forall x :: x in waits && x != id ==> waits[x] == BrokenPass(start, ns, failing, visited, None)[x]
    ensures waits == BrokenPass(start, ns, failing, visited, Some(id))
  {}
}
