/**
 Applying an aggregated configuration: the configs of the shared section and of every service are parsed
 into one list per kind, and the kinds are handled in the order their registration prescribes.
 */
module Configurator {
  import opened Wrappers

  datatype Kind =
    | TopicDelete | TenantTopicDelete | TopicTemplateDelete
    | InstanceDesignatorKafka | InstanceDesignatorRabbit
    | TopicTemplateV1 | TopicTemplateV2
    | RabbitV1 | RabbitV2
    | TopicV1 | TopicV2 | LazyTopicV1 | LazyTopicV2 | TenantTopicV1 | TenantTopicV2

  const FIRST_ORDER: int := -0x8000_0000_0000_0000
  const TOPIC_TEMPLATE_ORDER: int := FIRST_ORDER + 1
  const NO_ORDER: int := 0x7fff_ffff_ffff_ffff

  function Order(k: Kind): int {
    match k
    case TopicDelete => FIRST_ORDER
    case TenantTopicDelete => FIRST_ORDER
    case TopicTemplateDelete => FIRST_ORDER
    case InstanceDesignatorKafka => FIRST_ORDER
    case InstanceDesignatorRabbit => FIRST_ORDER
    case TopicTemplateV1 => TOPIC_TEMPLATE_ORDER
    case TopicTemplateV2 => TOPIC_TEMPLATE_ORDER
    case _ => NO_ORDER
  }

  const CONTENT: set<Kind> := {
    TopicDelete, TenantTopicDelete, TopicTemplateDelete, InstanceDesignatorKafka, InstanceDesignatorRabbit,
    TopicTemplateV1, TopicTemplateV2, RabbitV1, RabbitV2,
    TopicV1, TopicV2, LazyTopicV1, LazyTopicV2, TenantTopicV1, TenantTopicV2
  }

  type ServiceName = nat

  /** One entry of a list: the service and its typed config; none for a service without configs. */
  datatype ServiceConfig = ServiceConfig(service: ServiceName, config: Option<nat>)

  /** A config together with the list it goes to. */
  datatype Item = Item(kind: Kind, config: ServiceConfig)

  /** One inner config as it is read: broken, of a kind nobody registered, or typed. */
  datatype Inner = Malformed | Unsupported | Typed(kind: Kind, config: nat)

  /** A config text: absent (for a service also the empty string), unreadable, or a list of inner configs. */
  datatype Text = Empty | Unreadable | Inners(inners: seq<Inner>)

  datatype Service = Service(name: ServiceName, text: Text)

  const SHARED_CONFIG_SERVICE_NAME: ServiceName := 0

  datatype Response = Response(item: Item, ok: bool)

  datatype Error = BadInput | HandlerFailed | RabbitFailed

  // ---- The configs of a document, in input order -----------------------------------------------

  predicate Parses(t: Text) {
    t.Empty? || (t.Inners? && forall i :: 0 <= i < |t.inners| ==> t.inners[i].Typed?)
  }

  function ItemsOf(inners: seq<Inner>, service: ServiceName): seq<Item>
    requires forall i :: 0 <= i < |inners| ==> inners[i].Typed?
  {
    seq(|inners|, i requires 0 <= i < |inners| => Item(inners[i].kind, ServiceConfig(service, Some(inners[i].config))))
  }

  function TextItems(t: Text, service: ServiceName): seq<Item>
    requires Parses(t)
  {
    if t.Empty? then [] else ItemsOf(t.inners, service)
  }

  function ServicesItems(services: seq<Service>): seq<Item>
    requires forall i :: 0 <= i < |services| ==> Parses(services[i].text)
  {
    if services == [] then []
    else
      var last := services[|services| - 1];
      ServicesItems(services[..|services| - 1]) + TextItems(last.text, last.name)
  }

  /** Services without configs, for which RabbitMQ gets an empty one. */
  function EmptyItems(services: seq<Service>): seq<Item> {
    if services == [] then []
    else
      var last := services[|services| - 1];
      EmptyItems(services[..|services| - 1])
      + (if last.text.Empty? then [Item(RabbitV2, ServiceConfig(last.name, None))] else [])
  }

  function AllItems(shared: Text, services: seq<Service>): seq<Item>
    requires Parses(shared) && forall i :: 0 <= i < |services| ==> Parses(services[i].text)
  {
    TextItems(shared, SHARED_CONFIG_SERVICE_NAME) + ServicesItems(services) + EmptyItems(services)
  }

  // ---- Grouping and order ----------------------------------------------------------------------

  /** The items of one kind, in order. */
  function OfKind(items: seq<Item>, k: Kind): seq<Item> {
    if items == [] then []
    else OfKind(items[..|items| - 1], k) + (if items[|items| - 1].kind == k then [items[|items| - 1]] else [])
  }

  function Grouped(items: seq<Item>, kinds: seq<Kind>): seq<Item> {
    if kinds == [] then [] else Grouped(items, kinds[..|kinds| - 1]) + OfKind(items, kinds[|kinds| - 1])
  }

  ghost predicate IsOrdering(kinds: seq<Kind>) {
    && (forall i, j :: 0 <= i < j < |kinds| ==> kinds[i] != kinds[j] && Order(kinds[i]) <= Order(kinds[j]))
    && (forall k :: k in kinds)
  }

  lemma {:induction false} OfKindHasKind(items: seq<Item>, k: Kind)
    ensures forall i :: 0 <= i < |OfKind(items, k)| ==> OfKind(items, k)[i].kind == k
  {
    if items != [] {
      OfKindHasKind(items[..|items| - 1], k);
    }
  }

  lemma {:induction false} OfKindConcat(a: seq<Item>, b: seq<Item>, k: Kind)
    ensures OfKind(a + b, k) == OfKind(a, k) + OfKind(b, k)
  {
    if b == [] {
      assert a + b == a;
    } else {
      assert (a + b)[..|a + b| - 1] == a + b[..|b| - 1];
      OfKindConcat(a, b[..|b| - 1], k);
    }
  }

  lemma {:induction false} OfKindOfKind(items: seq<Item>, j: Kind, k: Kind)
    ensures OfKind(OfKind(items, j), k) == if j == k then OfKind(items, k) else []
  {
    if items != [] {
      var front, last := items[..|items| - 1], items[|items| - 1];
      OfKindOfKind(front, j, k);
      OfKindConcat(OfKind(front, j), if last.kind == j then [last] else [], k);
      assert OfKind([last], k) == (if last.kind == k then [last] else []) by { assert [last][..0] == []; }
    }
  }

  /** Each kind keeps exactly its own configs, in input order. */
  lemma {:induction false} KindsKeepInputOrder(items: seq<Item>, kinds: seq<Kind>, k: Kind)
    requires forall i, j :: 0 <= i < j < |kinds| ==> kinds[i] != kinds[j]
    ensures OfKind(Grouped(items, kinds), k) == if k in kinds then OfKind(items, k) else []
  {
    if kinds != [] {
      var front, last := kinds[..|kinds| - 1], kinds[|kinds| - 1];
      assert kinds == front + [last];
      KindsKeepInputOrder(items, front, k);
      OfKindConcat(Grouped(items, front), OfKind(items, last), k);
      OfKindOfKind(items, last, k);
    }
  }

  lemma {:induction false} CountOfKind(items: seq<Item>, x: Item)
    ensures multiset(items)[x] == multiset(OfKind(items, x.kind))[x]
  {
    if items != [] {
      var front, last := items[..|items| - 1], items[|items| - 1];
      assert items == front + [last];
      CountOfKind(front, x);
    }
  }

  /** Exactly one response per parsed config: the handled requests are a permutation of the parsed ones. */
  lemma NothingLostNothingTwice(items: seq<Item>, kinds: seq<Kind>)
    requires IsOrdering(kinds)
    ensures multiset(Grouped(items, kinds)) == multiset(items)
  {
    var grouped := Grouped(items, kinds);
    forall x: Item ensures multiset(grouped)[x] == multiset(items)[x] {
      KindsKeepInputOrder(items, kinds, x.kind);
      CountOfKind(items, x);
      CountOfKind(grouped, x);
    }
  }

  /** Kinds are handled in registration order: deletions and designators, then templates, then the rest. */
  lemma {:induction false} HandledInOrder(items: seq<Item>, kinds: seq<Kind>)
    requires forall i, j :: 0 <= i < j < |kinds| ==> Order(kinds[i]) <= Order(kinds[j])
    ensures forall i, j :: 0 <= i < j < |Grouped(items, kinds)| ==>
              Order(Grouped(items, kinds)[i].kind) <= Order(Grouped(items, kinds)[j].kind)
    ensures forall i :: 0 <= i < |Grouped(items, kinds)| ==> Grouped(items, kinds)[i].kind in kinds
  {
    if kinds != [] {
      var front, last := kinds[..|kinds| - 1], kinds[|kinds| - 1];
      HandledInOrder(items, front);
      OfKindHasKind(items, last);
      forall k | k in front ensures Order(k) <= Order(last) {
        var i :| 0 <= i < |front| && front[i] == k;
        assert kinds[i] == k;
      }
    }
  }

  lemma {:induction false} OnlyThisKind(items: seq<Item>, k: Kind)
    requires forall i :: 0 <= i < |items| ==> items[i].kind == k
    ensures OfKind(items, k) == items
  {
    if items != [] {
      OnlyThisKind(items[..|items| - 1], k);
    }
  }

  /** The place of an item among those of its kind: behind exactly the ones read before it. */
  lemma PlaceInKind(items: seq<Item>, i: nat)
    requires i < |items|
    ensures var n := |OfKind(items[..i], items[i].kind)|;
            n < |OfKind(items, items[i].kind)| && OfKind(items, items[i].kind)[n] == items[i]
  {
    var k := items[i].kind;
    assert items == items[..i] + ([items[i]] + items[i + 1..]);
    OfKindConcat(items[..i], [items[i]] + items[i + 1..], k);
    OfKindConcat([items[i]], items[i + 1..], k);
    OnlyThisKind([items[i]], k);
  }

  /** Deletions and designators. */
  predicate GoesFirst(k: Kind) {
    k in {TopicDelete, TenantTopicDelete, TopicTemplateDelete, InstanceDesignatorKafka, InstanceDesignatorRabbit}
  }

  predicate IsTemplate(k: Kind) {
    k in {TopicTemplateV1, TopicTemplateV2}
  }

  predicate GoesLast(k: Kind) {
    k in {RabbitV1, RabbitV2, TopicV1, TopicV2, LazyTopicV1, LazyTopicV2, TenantTopicV1, TenantTopicV2}
  }

  /** What the orders mean: first deletions and designators, then templates, then everything that may use them. */
  lemma OrderedByPhase(a: Kind, b: Kind)
    requires Order(a) <= Order(b)
    ensures IsTemplate(b) ==> !GoesLast(a)
    ensures GoesFirst(b) ==> GoesFirst(a)
    ensures GoesFirst(a) || IsTemplate(a) || GoesLast(a)
  {}

  // ---- The document's order --------------------------------------------------------------------

  /** A config of a service stands behind the shared ones, those of earlier services and earlier ones of its own. */
  lemma {:induction false} ServiceItemsInOrder(services: seq<Service>, i: nat, n: nat)
    requires forall j :: 0 <= j < |services| ==> Parses(services[j].text)
    requires i < |services| && services[i].text.Inners? && n < |services[i].text.inners|
    ensures var at := |ServicesItems(services[..i])| + n;
            var inner := services[i].text.inners[n];
            && at < |ServicesItems(services)|
            && ServicesItems(services)[at] == Item(inner.kind, ServiceConfig(services[i].name, Some(inner.config)))
  {
    var front := services[..|services| - 1];
    if i < |front| {
      ServiceItemsInOrder(front, i, n);
      assert front[..i] == services[..i];
    }
  }

  lemma {:induction false} EmptyItemsInOrder(services: seq<Service>, i: nat)
    requires i < |services| && services[i].text.Empty?
    ensures var at := |EmptyItems(services[..i])|;
            && at < |EmptyItems(services)|
            && EmptyItems(services)[at] == Item(RabbitV2, ServiceConfig(services[i].name, None))
  {
    var front := services[..|services| - 1];
    if i < |front| {
      EmptyItemsInOrder(front, i);
      assert front[..i] == services[..i];
    }
  }

  /** How many configs each part of the document gives. */
  lemma LengthsAdd(services: seq<Service>, i: nat)
    requires forall j :: 0 <= j < |services| ==> Parses(services[j].text)
    requires i < |services|
    ensures var text := services[i].text;
            && |ServicesItems(services[..i + 1])|
               == |ServicesItems(services[..i])| + (if text.Inners? then |text.inners| else 0)
            && |EmptyItems(services[..i + 1])| == |EmptyItems(services[..i])| + (if text.Empty? then 1 else 0)
  {
    assert services[..i + 1][..i] == services[..i];
  }

  // ---- The service -----------------------------------------------------------------------------

  lemma AllRegistered()
    ensures forall k: Kind :: k in CONTENT
  {
    forall k: Kind ensures k in CONTENT {
      match k
      case TopicDelete =>
      case TenantTopicDelete =>
      case TopicTemplateDelete =>
      case InstanceDesignatorKafka =>
      case InstanceDesignatorRabbit =>
      case TopicTemplateV1 =>
      case TopicTemplateV2 =>
      case RabbitV1 =>
      case RabbitV2 =>
      case TopicV1 =>
      case TopicV2 =>
      case LazyTopicV1 =>
      case LazyTopicV2 =>
      case TenantTopicV1 =>
      case TenantTopicV2 =>
    }
  }

  /** orderedKinds: some sequence of all kinds sorted by order; ties fall as they may. */
  method OrderedKinds() returns (kinds: seq<Kind>)
    ensures IsOrdering(kinds)
  {
    kinds := [];
    var left := CONTENT;
    AllRegistered();
    while left != {}
      invariant forall k: Kind :: k in kinds <==> k !in left
      invariant forall i, j :: 0 <= i < j < |kinds| ==> kinds[i] != kinds[j] && Order(kinds[i]) <= Order(kinds[j])
      invariant forall i, k :: 0 <= i < |kinds| && k in left ==> Order(kinds[i]) <= Order(k)
    {
      ghost var first := FirstOf(left);
      var k :| k in left && forall l :: l in left ==> Order(k) <= Order(l);
      left := left - {k};
      kinds := kinds + [k];
    }
  }

  lemma {:induction false} FirstOf(s: set<Kind>) returns (k: Kind)
    requires s != {}
    ensures k in s && forall l :: l in s ==> Order(k) <= Order(l)
    decreases |s|
  {
    k :| k in s;
    var rest := s - {k};
    if rest != {} {
      var other := FirstOf(rest);
      assert forall l :: l in s ==> l == k || l in rest;
      if Order(other) < Order(k) {
        k := other;
      }
    }
  }

  type Lists = map<Kind, seq<ServiceConfig>>

  /** The lists hold, per kind, the items read so far. */
  ghost predicate Holds(lists: Lists, items: seq<Item>) {
    forall k: Kind ::
      && (k in lists <==> OfKind(items, k) != [])
      && (k in lists ==> AsItems(lists[k], k) == OfKind(items, k))
  }

  function AsItems(configs: seq<ServiceConfig>, k: Kind): (r: seq<Item>)
    ensures |r| == |configs|
  {
    seq(|configs|, i requires 0 <= i < |configs| => Item(k, configs[i]))
  }

  method Append(lists: Lists, item: Item, ghost items: seq<Item>) returns (r: Lists)
    requires Holds(lists, items)
    ensures Holds(r, items + [item])
  {
    var before := if item.kind in lists then lists[item.kind] else [];
    r := lists[item.kind := before + [item.config]];
    assert (items + [item])[..|items|] == items;
    assert AsItems(before + [item.config], item.kind) == AsItems(before, item.kind) + [item];
  }

  /** parseInnerConfigsOfMs: stops at the first config it cannot place. */
  method ParseInnerConfigsOfMs(lists: Lists, text: Text, service: ServiceName, ghost items: seq<Item>)
    returns (r: Lists, ok: bool)
    requires Holds(lists, items) && !text.Empty?
    ensures ok <==> Parses(text)
    ensures ok ==> Holds(r, items + TextItems(text, service))
  {
    r := lists;
    if text.Unreadable? {
      return r, false;
    }
    var inners := text.inners;
    assert items + [] == items;
    for i := 0 to |inners|
      invariant forall j :: 0 <= j < i ==> inners[j].Typed?
      invariant Holds(r, items + ItemsOf(inners[..i], service))
    {
      if !inners[i].Typed? {
        return r, false;
      }
      var item := Item(inners[i].kind, ServiceConfig(service, Some(inners[i].config)));
      ghost var so := items + ItemsOf(inners[..i], service);
      r := Append(r, item, so);
      assert items + ItemsOf(inners[..i + 1], service) == so + [item];
    }
    assert inners[..|inners|] == inners;
    ok := true;
  }

  /** All texts into lists, then the empty RabbitMQ configs. */
  method Collect(shared: Text, services: seq<Service>) returns (lists: Lists, ok: bool)
    ensures ok <==> Parses(shared) && forall i :: 0 <= i < |services| ==> Parses(services[i].text)
    ensures ok ==> Holds(lists, AllItems(shared, services))
  {
    lists, ok := map[], true;
    ghost var items: seq<Item> := [];
    if !shared.Empty? {
      lists, ok := ParseInnerConfigsOfMs(lists, shared, SHARED_CONFIG_SERVICE_NAME, items);
      if !ok { return; }
      items := items + TextItems(shared, SHARED_CONFIG_SERVICE_NAME);
    }
    ghost var first := items;
    var empty: seq<ServiceName> := [];
    for i := 0 to |services|
      invariant ok && Parses(shared) && first == TextItems(shared, SHARED_CONFIG_SERVICE_NAME)
      invariant forall j :: 0 <= j < i ==> Parses(services[j].text)
      invariant items == first + ServicesItems(services[..i]) && Holds(lists, items)
      invariant EmptyItems(services[..i]) == Empties(empty)
    {
      assert services[..i + 1][..i] == services[..i];
      EmptiesSnoc(empty, services[i].name);
      if services[i].text.Empty? {
        empty := empty + [services[i].name];
      } else {
        lists, ok := ParseInnerConfigsOfMs(lists, services[i].text, services[i].name, items);
        if !ok { return; }
        items := items + TextItems(services[i].text, services[i].name);
      }
      assert items == first + ServicesItems(services[..i + 1]);
    }
    assert services[..|services|] == services;
    lists := AppendEmpty(lists, empty, items);
  }

  function Empties(names: seq<ServiceName>): seq<Item> {
    seq(|names|, i requires 0 <= i < |names| => Item(RabbitV2, ServiceConfig(names[i], None)))
  }

  lemma EmptiesSnoc(names: seq<ServiceName>, n: ServiceName)
    ensures Empties(names + [n]) == Empties(names) + [Item(RabbitV2, ServiceConfig(n, None))]
  {}

  method AppendEmpty(lists: Lists, names: seq<ServiceName>, ghost items: seq<Item>) returns (r: Lists)
    requires Holds(lists, items)
    ensures Holds(r, items + Empties(names))
  {
    r := lists;
    assert items + [] == items;
    for i := 0 to |names|
      invariant Holds(r, items + Empties(names[..i]))
    {
      var item := Item(RabbitV2, ServiceConfig(names[i], None));
      ghost var so := items + Empties(names[..i]);
      r := Append(r, item, so);
      assert items + Empties(names[..i + 1]) == so + [item];
    }
    assert names[..|names|] == names;
  }

  function Items(responses: seq<Response>): (r: seq<Item>)
    ensures |r| == |responses|
  {
    seq(|responses|, i requires 0 <= i < |responses| => responses[i].item)
  }

  predicate AllOk(responses: seq<Response>) {
    forall i :: 0 <= i < |responses| ==> responses[i].ok
  }

  lemma AllOkSnoc(responses: seq<Response>, last: Response)
    ensures AllOk(responses + [last]) <==> AllOk(responses) && last.ok
  {
    if AllOk(responses + [last]) {
      assert (responses + [last])[|responses|] == last;
      forall i | 0 <= i < |responses| ensures responses[i].ok {
        assert (responses + [last])[i] == responses[i];
      }
    }
  }

  /** What the handlers answer: per config, per service for RabbitMQ, and for the RabbitMQ transaction as a whole. */
  datatype Handlers = Handlers(ok: (Kind, nat) -> bool, rabbitServiceOk: ServiceName -> bool, rabbitOk: bool)

  function Verdict(h: Handlers, item: Item, i: nat): bool {
    if item.kind == RabbitV2 then h.rabbitServiceOk(item.config.service) else h.ok(item.kind, i)
  }

  /** The answers to the items of one kind. */
  function Answers(items: seq<Item>, h: Handlers): (r: seq<Response>)
    ensures |r| == |items| && Items(r) == items
  {
    seq(|items|, i requires 0 <= i < |items| => Response(items[i], Verdict(h, items[i], i)))
  }

  /** The answers to all items, kind by kind. */
  function AllAnswers(items: seq<Item>, kinds: seq<Kind>, h: Handlers): (r: seq<Response>)
    ensures Items(r) == Grouped(items, kinds)
  {
    if kinds == [] then []
    else
      var front, last := AllAnswers(items, kinds[..|kinds| - 1], h), Answers(OfKind(items, kinds[|kinds| - 1]), h);
      assert Items(front + last) == Items(front) + Items(last);
      front + last
  }

  /** One kind: every config of its list is handled and answered, in order. */
  method HandleKind(kind: Kind, configs: seq<ServiceConfig>, h: Handlers, responses: seq<Response>,
                    firstError: Option<Error>)
    returns (r: seq<Response>, err: Option<Error>)
    requires firstError.None? ==> AllOk(responses)
    ensures r == responses + Answers(AsItems(configs, kind), h)
    ensures firstError.Some? ==> err == firstError
    ensures err.None? <==> firstError.None? && AllOk(r) && (kind == RabbitV2 ==> h.rabbitOk)
  {
    r, err := responses, firstError;
    for i := 0 to |configs|
      invariant r == responses + Answers(AsItems(configs, kind), h)[..i]
      invariant err.None? <==> firstError.None? && AllOk(r)
      invariant firstError.Some? ==> err == firstError
    {
      var ok := if kind == RabbitV2 then h.rabbitServiceOk(configs[i].service) else h.ok(kind, i);
      var response := Response(Item(kind, configs[i]), ok);
      assert response == Answers(AsItems(configs, kind), h)[i];
      AllOkSnoc(r, response);
      r := r + [response];
      if !ok && err.None? {
        err := Some(HandlerFailed);
      }
    }
    assert Answers(AsItems(configs, kind), h)[..|configs|] == Answers(AsItems(configs, kind), h);
    if kind == RabbitV2 && !h.rabbitOk && err.None? {
      err := Some(RabbitFailed);
    }
  }

  /** All lists, kind by kind in the given order. */
  method HandleAll(lists: Lists, kinds: seq<Kind>, h: Handlers, ghost items: seq<Item>)
    returns (responses: seq<Response>, err: Option<Error>)
    requires Holds(lists, items)
    ensures responses == AllAnswers(items, kinds, h)
    ensures err.None? <==> AllOk(responses) && (RabbitV2 in kinds && OfKind(items, RabbitV2) != [] ==> h.rabbitOk)
  {
    responses, err := [], None;
    for n := 0 to |kinds|
      invariant responses == AllAnswers(items, kinds[..n], h)
      invariant err.None? <==>
                  AllOk(responses) && (RabbitV2 in kinds[..n] && OfKind(items, RabbitV2) != [] ==> h.rabbitOk)
    {
      var kind := kinds[n];
      assert kinds[..n + 1] == kinds[..n] + [kind];
      assert AllAnswers(items, kinds[..n + 1], h)
          == AllAnswers(items, kinds[..n], h) + Answers(OfKind(items, kind), h) by {
        assert kinds[..n + 1][..n] == kinds[..n];
      }
      if kind in lists {
        ghost var before := responses;
        responses, err := HandleKind(kind, lists[kind], h, responses, err);
        assert AllOk(responses) ==> AllOk(before) by {
          if AllOk(responses) {
            assert forall i :: 0 <= i < |before| ==> before[i] == responses[i];
          }
        }
      }
    }
    assert kinds[..|kinds|] == kinds;
  }

  predicate Readable(shared: Text, services: seq<Service>) {
    Parses(shared) && forall i :: 0 <= i < |services| ==> Parses(services[i].text)
  }

  /** One response per item, kinds in registration order, items in input order within their kind. */
  ghost predicate Orderly(responses: seq<Response>, items: seq<Item>) {
    && multiset(Items(responses)) == multiset(items)
    && (forall i, j :: 0 <= i < j < |responses| ==> Order(responses[i].item.kind) <= Order(responses[j].item.kind))
    && forall k: Kind :: OfKind(Items(responses), k) == OfKind(items, k)
  }

  lemma AnswersAreOrderly(items: seq<Item>, kinds: seq<Kind>, h: Handlers)
    requires IsOrdering(kinds)
    ensures Orderly(AllAnswers(items, kinds, h), items)
  {
    var responses := AllAnswers(items, kinds, h);
    NothingLostNothingTwice(items, kinds);
    HandledInOrder(items, kinds);
    assert forall i :: 0 <= i < |responses| ==> Items(responses)[i] == responses[i].item;
    forall k: Kind ensures OfKind(Items(responses), k) == OfKind(items, k) {
      KindsKeepInputOrder(items, kinds, k);
    }
  }

  /** The answer to a config says what its handler said: a failing one is answered as such. */
  ghost predicate SaysItsHandler(responses: seq<Response>, i: nat, h: Handlers)
    requires i < |responses|
  {
    var item := responses[i].item;
    responses[i].ok <==>
    if item.kind == RabbitV2 then h.rabbitServiceOk(item.config.service)
    else h.ok(item.kind, |OfKind(Items(responses)[..i], item.kind)|)
  }

  lemma {:induction false} EachIsAnswered(items: seq<Item>, kinds: seq<Kind>, h: Handlers, i: nat)
    requires forall m, n :: 0 <= m < n < |kinds| ==> kinds[m] != kinds[n]
    requires i < |AllAnswers(items, kinds, h)|
    ensures SaysItsHandler(AllAnswers(items, kinds, h), i, h)
  {
    var front, last := kinds[..|kinds| - 1], kinds[|kinds| - 1];
    var all, before := AllAnswers(items, kinds, h), AllAnswers(items, front, h);
    if i < |before| {
      EachIsAnswered(items, front, h, i);
      assert Items(all)[..i] == Items(before)[..i];
      assert all[i] == before[i];
    } else {
      var own, n := OfKind(items, last), i - |before|;
      assert all[i] == Answers(own, h)[n];
      assert Items(all)[..i] == Grouped(items, front) + own[..n];
      OfKindConcat(Grouped(items, front), own[..n], last);
      KindsKeepInputOrder(items, front, last);
      OfKindHasKind(items, last);
      OnlyThisKind(own[..n], last);
    }
  }

  /** Each response is what the handlers answer to its config, for some ordering of the kinds. */
  ghost predicate Answered(responses: seq<Response>, items: seq<Item>, h: Handlers) {
    exists kinds: seq<Kind> :: IsOrdering(kinds) && responses == AllAnswers(items, kinds, h)
  }

  /**
   ApplyConfigV2. A document that does not parse is answered with an error and nothing is handled.
   Otherwise there is one response per config, kinds in registration order, configs in input order within
   their kind, and no error exactly when every response and the RabbitMQ transaction are fine.
   */
  method ApplyConfigV2(shared: Text, services: seq<Service>, h: Handlers)
    returns (responses: seq<Response>, err: Option<Error>)
    ensures !Readable(shared, services) ==> responses == [] && err == Some(BadInput)
    ensures Readable(shared, services) ==> Orderly(responses, AllItems(shared, services))
    ensures Readable(shared, services) ==> Answered(responses, AllItems(shared, services), h)
    ensures forall i, j :: 0 <= i < j < |responses| && IsTemplate(responses[j].item.kind)
              ==> GoesFirst(responses[i].item.kind) || IsTemplate(responses[i].item.kind)
    ensures forall i, j :: 0 <= i < j < |responses| && GoesFirst(responses[j].item.kind)
              ==> GoesFirst(responses[i].item.kind)
    ensures forall i :: 0 <= i < |responses| ==> SaysItsHandler(responses, i, h)
    ensures Readable(shared, services) ==>
              (err.None? <==> AllOk(responses) && (OfKind(AllItems(shared, services), RabbitV2) != [] ==> h.rabbitOk))
  {
    var kinds := OrderedKinds();
    var lists, ok := Collect(shared, services);
    if !ok {
      return [], Some(BadInput);
    }
    ghost var items := AllItems(shared, services);
    responses, err := HandleAll(lists, kinds, h, items);
    AnswersAreOrderly(items, kinds, h);
    assert Answered(responses, items, h);
    forall i | 0 <= i < |responses| ensures SaysItsHandler(responses, i, h) {
      EachIsAnswered(items, kinds, h, i);
    }
    forall i, j | 0 <= i < j < |responses|
      ensures IsTemplate(responses[j].item.kind) ==>
                GoesFirst(responses[i].item.kind) || IsTemplate(responses[i].item.kind)
      ensures GoesFirst(responses[j].item.kind) ==> GoesFirst(responses[i].item.kind)
    {
      OrderedByPhase(responses[i].item.kind, responses[j].item.kind);
    }
  }
}
