/**
 Comparing registered topics with what exists on the brokers: the report groups topics by instance to ask
 each broker once, the metrics count registered and lost entities per namespace and tenant.
 */
module Discrepancy {
  import opened Wrappers

  type InstanceId = nat
  type TopicName = nat

  datatype Scope = Scope(namespace: nat, tenantId: nat)

  datatype Topic = Topic(instance: InstanceId, name: TopicName, scope: Scope, classifier: nat)

  datatype Status = Ok | Absent

  datatype Item = Item(name: TopicName, classifier: nat, status: Status)

  /** What the brokers hold; an instance that cannot be asked has no entry. */
  type Brokers = map<InstanceId, set<TopicName>>

  // ---- The report, topic by topic --------------------------------------------------------------

  function ItemOf(t: Topic, brokers: Brokers): Item
    requires t.instance in brokers
  {
    Item(t.name, t.classifier, if t.name in brokers[t.instance] then Ok else Absent)
  }

  function Report(topics: seq<Topic>, brokers: Brokers): (r: seq<Item>)
    requires forall i :: 0 <= i < |topics| ==> topics[i].instance in brokers
    ensures |r| == |topics|
    ensures forall i :: 0 <= i < |r| ==>
              && r[i].name == topics[i].name && r[i].classifier == topics[i].classifier
              && (r[i].status == Ok <==> topics[i].name in brokers[topics[i].instance])
  {
    seq(|topics|, i requires 0 <= i < |topics| => ItemOf(topics[i], brokers))
  }

  function Kept(items: seq<Item>, fits: Option<Item -> bool>): seq<Item> {
    if fits.None? || items == [] then items
    else
      var last := items[|items| - 1];
      Kept(items[..|items| - 1], fits) + (if fits.value(last) then [last] else [])
  }

  /** Where in a sequence something holds. */
  ghost function Places<T>(xs: seq<T>, p: T -> bool): (r: set<int>)
    ensures forall i :: i in r <==> 0 <= i < |xs| && p(xs[i])
  {
    set i | 0 <= i < |xs| && p(xs[i])
  }

  lemma PlacesSnoc<T>(xs: seq<T>, p: T -> bool)
    requires xs != []
    ensures |Places(xs, p)| == |Places(xs[..|xs| - 1], p)| + if p(xs[|xs| - 1]) then 1 else 0
  {
    var n := |xs| - 1;
    var before := Places(xs[..n], p);
    assert Places(xs, p) == if p(xs[n]) then before + {n} else before;
  }

  /** What a filter keeps fits, and is as many as do. */
  lemma {:induction false} KeptFits(items: seq<Item>, fits: Item -> bool)
    ensures forall k :: 0 <= k < |Kept(items, Some(fits))| ==> fits(Kept(items, Some(fits))[k])
    ensures |Kept(items, Some(fits))| == |Places(items, fits)|
  {
    if items != [] {
      KeptFits(items[..|items| - 1], fits);
      PlacesSnoc(items, fits);
    }
  }

  /** Each item that fits is kept, right behind those that fit before it. */
  lemma {:induction false} KeptInOrder(items: seq<Item>, fits: Item -> bool, i: nat)
    requires i < |items| && fits(items[i])
    ensures var at := |Places(items[..i], fits)|;
            at < |Kept(items, Some(fits))| && Kept(items, Some(fits))[at] == items[i]
  {
    var front := items[..|items| - 1];
    if i < |front| {
      KeptInOrder(front, fits, i);
      assert front[..i] == items[..i];
    } else {
      KeptFits(front, fits);
    }
  }

  method FilterItems(items: seq<Item>, fits: Option<Item -> bool>) returns (r: seq<Item>)
    ensures r == Kept(items, fits)
  {
    if fits.None? { return items; }
    r := [];
    for i := 0 to |items|
      invariant r == Kept(items[..i], fits)
    {
      assert items[..i + 1][..i] == items[..i];
      if fits.value(items[i]) {
        r := r + [items[i]];
      }
    }
    assert items[..|items|] == items;
  }

  // ---- The report, grouped by instance ---------------------------------------------------------

  /** Topics are told apart by their position, as the code tells them apart by pointer. */
  type Groups = map<InstanceId, seq<nat>>

  ghost predicate Grouped(groups: Groups, topics: seq<Topic>, n: nat) {
    && (forall g, k :: g in groups && 0 <= k < |groups[g]| ==>
          groups[g][k] < n && groups[g][k] < |topics| && topics[groups[g][k]].instance == g)
    && (forall i :: 0 <= i < n && i < |topics| ==> topics[i].instance in groups && i in groups[topics[i].instance])
  }

  method GroupByInstance(topics: seq<Topic>) returns (groups: Groups)
    ensures Grouped(groups, topics, |topics|)
    ensures forall g :: g in groups ==> exists i :: 0 <= i < |topics| && topics[i].instance == g
  {
    groups := map[];
    for i := 0 to |topics|
      invariant Grouped(groups, topics, i)
      invariant forall g :: g in groups ==> exists k :: 0 <= k < i && topics[k].instance == g
    {
      var g := topics[i].instance;
      var before := if g in groups then groups[g] else [];
      groups := groups[g := before + [i]];
      assert (before + [i])[|before|] == i;
      assert forall k :: k in before ==> k in before + [i];
    }
  }

  /** One broker's answer for the topics of its group. */
  method AskBroker(topics: seq<Topic>, group: seq<nat>, onBroker: set<TopicName>, before: map<nat, Status>)
    returns (status: map<nat, Status>)
    requires forall k :: 0 <= k < |group| ==> group[k] < |topics|
    ensures forall i :: i in status <==> i in before || i in group
    ensures forall i :: i in status ==>
              status[i] == if i in group then (if topics[i].name in onBroker then Ok else Absent) else before[i]
  {
    status := before;
    for k := 0 to |group|
      invariant forall i :: i in status <==> i in before || i in group[..k]
      invariant forall i :: i in status ==>
                  status[i] ==
                    if i in group[..k] then (if topics[i].name in onBroker then Ok else Absent) else before[i]
    {
      assert group[..k + 1] == group[..k] + [group[k]];
      status := status[group[k] := if topics[group[k]].name in onBroker then Ok else Absent];
    }
    assert group[..|group|] == group;
  }

  /** All topics of askable instances have their status. */
  ghost predicate Known(status: map<nat, Status>, topics: seq<Topic>, brokers: Brokers, todo: set<InstanceId>) {
    forall i :: 0 <= i < |topics| && topics[i].instance !in todo ==>
      i in status && topics[i].instance in brokers && status[i] == ItemOf(topics[i], brokers).status
  }

  /** One call per instance, in whatever order the groups are iterated. */
  method AskBrokers(topics: seq<Topic>, brokers: Brokers) returns (status: Option<map<nat, Status>>)
    ensures status.Some? <==> forall i :: 0 <= i < |topics| ==> topics[i].instance in brokers
    ensures status.Some? ==> Known(status.value, topics, brokers, {})
  {
    var groups := GroupByInstance(topics);
    var found: map<nat, Status> := map[];
    var todo := groups.Keys;
    while todo != {}
      invariant todo <= groups.Keys && Known(found, topics, brokers, todo)
    {
      var g :| g in todo;
      todo := todo - {g};
      if g !in brokers {
        ghost var i :| 0 <= i < |topics| && topics[i].instance == g;
        assert topics[i].instance !in brokers;
        return None;
      }
      found := AskBroker(topics, groups[g], brokers[g], found);
    }
    status := Some(found);
    assert forall i :: 0 <= i < |topics| ==> topics[i].instance !in todo;
  }

  /**
   GetDiscrepancyReport: whatever order the groups are asked in, the report is the simple one, in database
   order, unless some instance holding a topic cannot be asked.
   */
  method GetDiscrepancyReport(topics: seq<Topic>, brokers: Brokers, fits: Option<Item -> bool>)
    returns (r: Option<seq<Item>>)
    ensures r.Some? <==> forall i :: 0 <= i < |topics| ==> topics[i].instance in brokers
    ensures r.Some? ==> r.value == Kept(Report(topics, brokers), fits)
  {
    var status := AskBrokers(topics, brokers);
    if status.None? { return None; }
    var items: seq<Item> := [];
    for i := 0 to |topics|
      invariant items == Report(topics, brokers)[..i]
    {
      items := items + [Item(topics[i].name, topics[i].classifier, status.value[i])];
    }
    assert Report(topics, brokers)[..|topics|] == Report(topics, brokers);
    var kept := FilterItems(items, fits);
    r := Some(kept);
  }

  // ---- Metrics ---------------------------------------------------------------------------------

  datatype Counts = Counts(registered: nat, lost: nat)

  /** The sum of one count over all scopes. */
  ghost function Total(m: map<Scope, nat>): nat
    decreases |m|
  {
    if m == map[] then 0
    else
      var s :| s in m;
      assert (m - {s}).Keys == m.Keys - {s};
      m[s] + Total(m - {s})
  }

  lemma {:induction false} TotalWithout(m: map<Scope, nat>, s: Scope)
    requires s in m
    ensures Total(m) == m[s] + Total(m - {s})
    decreases |m|
  {
    var t :| t in m && Total(m) == m[t] + Total(m - {t});
    if t != s {
      assert (m - {t}).Keys == m.Keys - {t};
      TotalWithout(m - {t}, s);
      assert (m - {s}).Keys == m.Keys - {s};
      TotalWithout(m - {s}, t);
      assert m - {t} - {s} == m - {s} - {t};
    }
  }

  lemma TotalChanges(m: map<Scope, nat>, s: Scope, n: nat)
    ensures Total(m[s := n]) == Total(m) - (if s in m then m[s] else 0) + n
  {
    TotalWithout(m[s := n], s);
    if s in m {
      TotalWithout(m, s);
      assert m[s := n] - {s} == m - {s};
    } else {
      assert m[s := n] - {s} == m;
    }
  }

  function Missing(topics: seq<Topic>, onBroker: set<TopicName>): nat {
    if topics == [] then 0
    else Missing(topics[..|topics| - 1], onBroker) + if topics[|topics| - 1].name in onBroker then 0 else 1
  }

  function InScope(topics: seq<Topic>, s: Scope): seq<Topic> {
    if topics == [] then []
    else InScope(topics[..|topics| - 1], s) + if topics[|topics| - 1].scope == s then [topics[|topics| - 1]] else []
  }

  function Registered(m: map<Scope, Counts>): map<Scope, nat> {
    map s | s in m :: m[s].registered
  }

  function Lost(m: map<Scope, Counts>): map<Scope, nat> {
    map s | s in m :: m[s].lost
  }

  lemma {:induction false} MissingIsBounded(topics: seq<Topic>, onBroker: set<TopicName>)
    ensures Missing(topics, onBroker) <= |topics|
  {
    if topics != [] {
      MissingIsBounded(topics[..|topics| - 1], onBroker);
    }
  }

  lemma MissingSnoc(topics: seq<Topic>, t: Topic, onBroker: set<TopicName>)
    ensures Missing(topics + [t], onBroker) == Missing(topics, onBroker) + if t.name in onBroker then 0 else 1
  {
    assert (topics + [t])[..|topics|] == topics;
  }

  function CountOne(m: map<Scope, Counts>, t: Topic, onBroker: set<TopicName>): map<Scope, Counts> {
    var counts := if t.scope in m then m[t.scope] else Counts(0, 0);
    m[t.scope := Counts(counts.registered + 1, counts.lost + if t.name in onBroker then 0 else 1)]
  }

  lemma CountOneTotals(m: map<Scope, Counts>, t: Topic, onBroker: set<TopicName>)
    ensures Total(Registered(CountOne(m, t, onBroker))) == Total(Registered(m)) + 1
    ensures Total(Lost(CountOne(m, t, onBroker))) == Total(Lost(m)) + if t.name in onBroker then 0 else 1
  {
    var after := CountOne(m, t, onBroker);
    TotalChanges(Registered(m), t.scope, after[t.scope].registered);
    TotalChanges(Lost(m), t.scope, after[t.scope].lost);
    assert Registered(after) == Registered(m)[t.scope := after[t.scope].registered];
    assert Lost(after) == Lost(m)[t.scope := after[t.scope].lost];
  }

  /** The counts after all topics. */
  function Counted(topics: seq<Topic>, onBroker: set<TopicName>): map<Scope, Counts> {
    if topics == [] then map[]
    else CountOne(Counted(topics[..|topics| - 1], onBroker), topics[|topics| - 1], onBroker)
  }

  /** Each scope's counts are those of its own topics, lost at most registered. */
  lemma {:induction false} ScopeCounts(topics: seq<Topic>, onBroker: set<TopicName>, s: Scope)
    ensures s in Counted(topics, onBroker) <==> InScope(topics, s) != []
    ensures s in Counted(topics, onBroker) ==>
              var counts := Counted(topics, onBroker)[s];
              && counts == Counts(|InScope(topics, s)|, Missing(InScope(topics, s), onBroker))
              && counts.lost <= counts.registered
  {
    if topics != [] {
      var front, last := topics[..|topics| - 1], topics[|topics| - 1];
      ScopeCounts(front, onBroker, s);
      if last.scope == s {
        MissingSnoc(InScope(front, s), last, onBroker);
        assert InScope(topics, s) == InScope(front, s) + [last];
      } else {
        assert InScope(topics, s) == InScope(front, s);
      }
    }
    MissingIsBounded(InScope(topics, s), onBroker);
  }

  /** The counts of a scope as numbers of topics: those in the scope, and those of them the broker does not have. */
  lemma {:induction false} ScopeCountsTopics(topics: seq<Topic>, onBroker: set<TopicName>, s: Scope)
    ensures s in Counted(topics, onBroker) <==> exists i :: 0 <= i < |topics| && topics[i].scope == s
    ensures s in Counted(topics, onBroker) ==>
              Counted(topics, onBroker)[s] ==
                Counts(|Places(topics, (t: Topic) => t.scope == s)|,
                       |Places(topics, (t: Topic) => t.scope == s && t.name !in onBroker)|)
  {
    var own, lost := (t: Topic) => t.scope == s, (t: Topic) => t.scope == s && t.name !in onBroker;
    if topics != [] {
      var n := |topics| - 1;
      var front := topics[..n];
      ScopeCountsTopics(front, onBroker, s);
      PlacesSnoc(topics, own);
      PlacesSnoc(topics, lost);
      assert topics[n].scope == s || forall i :: 0 <= i < |topics| && topics[i].scope == s ==> front[i].scope == s;
      if s !in Counted(front, onBroker) {
        assert Places(front, own) == {} && Places(front, lost) == {};
      }
    }
  }

  /** The number of topics the broker does not have. */
  lemma {:induction false} MissingTopics(topics: seq<Topic>, onBroker: set<TopicName>)
    ensures Missing(topics, onBroker) == |Places(topics, (t: Topic) => t.name !in onBroker)|
  {
    if topics != [] {
      MissingTopics(topics[..|topics| - 1], onBroker);
      PlacesSnoc(topics, (t: Topic) => t.name !in onBroker);
    }
  }

  /** Over all scopes the counts add up to the instance's topics and to those missing on the broker. */
  lemma {:induction false} CountsAddUp(topics: seq<Topic>, onBroker: set<TopicName>)
    ensures Total(Registered(Counted(topics, onBroker))) == |topics|
    ensures Total(Lost(Counted(topics, onBroker))) == Missing(topics, onBroker)
  {
    if topics == [] {
      assert Registered(map[]) == map[] && Lost(map[]) == map[];
    } else {
      CountsAddUp(topics[..|topics| - 1], onBroker);
      CountOneTotals(Counted(topics[..|topics| - 1], onBroker), topics[|topics| - 1], onBroker);
    }
  }

  /** The counting loop of collectKafka and collectRabbit for one instance. */
  method CountByScope(topics: seq<Topic>, onBroker: set<TopicName>) returns (byScope: map<Scope, Counts>)
    ensures byScope == Counted(topics, onBroker)
  {
    byScope := map[];
    for i := 0 to |topics|
      invariant byScope == Counted(topics[..i], onBroker)
    {
      var topic := topics[i];
      var counts := if topic.scope in byScope then byScope[topic.scope] else Counts(0, 0);
      counts := counts.(registered := counts.registered + 1);
      if topic.name !in onBroker {
        counts := counts.(lost := counts.lost + 1);
      }
      byScope := byScope[topic.scope := counts];
      assert topics[..i + 1][..i] == topics[..i];
    }
    assert topics[..|topics|] == topics;
  }
}
