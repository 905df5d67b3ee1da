/**
 Classifiers of Kafka topics in a blue/green domain: a topic that is not versioned answers to the
 classifiers of both namespaces. Warmup clones the missing ones for existing topics, insertion adds both
 for new ones. The classifier column is unique, so an insert may be refused and roll everything back.
 */
module Classifiers {
  import opened Wrappers

  type Namespace = nat
  type TopicId = nat

  datatype Classifier = Classifier(name: nat, namespace: Namespace, tenantId: nat)

  datatype Topic = Topic(classifier: Classifier, versioned: bool)

  /** A row of kafka_topic_classifiers. */
  datatype Row = Row(topic: TopicId, classifier: Classifier)

  datatype State = State(topics: map<TopicId, Topic>, rows: set<Row>)

  datatype Domain = Domain(origin: Namespace, peer: Namespace)

  datatype Error = Conflict | External

  // ---- The statements --------------------------------------------------------------------------

  ghost predicate Unique(rows: set<Row>) {
    forall r, q :: r in rows && q in rows && r.classifier == q.classifier ==> r == q
  }

  /** An insert of several rows into a table with a unique classifier. */
  predicate Insertable(rows: set<Row>, added: set<Row>) {
    && (forall n, r :: n in added && r in rows ==> n.classifier != r.classifier)
    && (forall n, m :: n in added && m in added && n.classifier == m.classifier ==> n == m)
  }

  predicate HasRows(rows: set<Row>, id: TopicId) {
    exists r :: r in rows && r.topic == id
  }

  predicate HasRowIn(rows: set<Row>, id: TopicId, ns: Namespace) {
    exists r :: r in rows && r.topic == id && r.classifier.namespace == ns
  }

  /** migrateAllBg2Kafka: topics without any classifier row get their own. */
  function Unmigrated(s: State): set<Row> {
    set id | id in s.topics && !s.topics[id].versioned && !HasRows(s.rows, id) :: Row(id, s.topics[id].classifier)
  }

  /** The clones for topics with a classifier in `from` and none in `to`. */
  function Clones(s: State, from: Namespace, to: Namespace): set<Row> {
    set id | id in s.topics && !s.topics[id].versioned && HasRowIn(s.rows, id, from) && !HasRowIn(s.rows, id, to)
      :: Row(id, s.topics[id].classifier.(namespace := to))
  }

  function Siblings(s: State, d: Domain): set<Row> {
    Clones(s, d.origin, d.peer) + Clones(s, d.peer, d.origin)
  }

  function Add(s: State, added: set<Row>): Result<State, Error> {
    if Insertable(s.rows, added) then Success(s.(rows := s.rows + added)) else Failure(Conflict)
  }

  function WarmupStatements(s: State, d: Domain): Result<State, Error> {
    var migrated := Add(s, Unmigrated(s));
    if migrated.Failure? then migrated else Add(migrated.value, Siblings(migrated.value, d))
  }

  /** createSiblingClassifier, for a namespace of the domain. */
  function Sibling(c: Classifier, d: Domain): Classifier {
    c.(namespace := if c.namespace == d.origin then d.peer else d.origin)
  }

  predicate InDomain(ns: Namespace, d: Domain) { ns == d.origin || ns == d.peer }

  /** InsertTopicRegistration; `id` is the fresh key, `external` the outcome of the code run inside. */
  function InsertStatements(s: State, id: TopicId, t: Topic, domain: Option<Domain>, external: bool)
    : Result<State, Error>
  {
    if exists x :: x in s.topics && s.topics[x].classifier == t.classifier then Failure(Conflict)
    else
      var own := Add(s.(topics := s.topics[id := t]), {Row(id, t.classifier)});
      if own.Failure? then own
      else
        var both :=
          if !t.versioned && domain.Some? then Add(own.value, {Row(id, Sibling(t.classifier, domain.value))}) else own;
        if both.Failure? then both else if external then both else Failure(External)
  }

  /** Deleting a topic cascades to its classifiers. */
  function Delete(s: State, id: TopicId): State {
    State(s.topics - {id}, set r | r in s.rows && r.topic != id)
  }

  /** An update of the topic stores a new versioned flag and leaves the classifiers as they are. */
  function SetFlag(s: State, id: TopicId, versioned: bool): State {
    if id in s.topics then s.(topics := s.topics[id := s.topics[id].(versioned := versioned)]) else s
  }

  // ---- Symmetry --------------------------------------------------------------------------------

  ghost predicate Symmetric(s: State, d: Domain) {
    forall id :: id in s.topics && !s.topics[id].versioned ==>
      (HasRowIn(s.rows, id, d.origin) <==> HasRowIn(s.rows, id, d.peer))
  }

  /** Unique classifiers, each belonging to a topic and differing from that topic's own at most in namespace. */
  ghost predicate Sound(s: State) {
    && Unique(s.rows)
    && forall r :: r in s.rows ==>
         r.topic in s.topics && r.classifier == s.topics[r.topic].classifier.(namespace := r.classifier.namespace)
  }

  /** Every topic that is not versioned has a classifier row. */
  ghost predicate Covered(s: State) {
    forall id :: id in s.topics && !s.topics[id].versioned ==> HasRows(s.rows, id)
  }

  lemma AddIsSound(s: State, added: set<Row>)
    requires Sound(s) && Add(s, added).Success?
    requires forall n :: n in added ==>
               n.topic in s.topics && n.classifier == s.topics[n.topic].classifier.(namespace := n.classifier.namespace)
    ensures Sound(Add(s, added).value)
  {}

  lemma MigrationCovers(s: State)
    requires Sound(s) && Add(s, Unmigrated(s)).Success?
    ensures Sound(Add(s, Unmigrated(s)).value) && Covered(Add(s, Unmigrated(s)).value)
  {
    AddIsSound(s, Unmigrated(s));
    var m := Add(s, Unmigrated(s)).value;
    forall id | id in m.topics && !m.topics[id].versioned ensures HasRows(m.rows, id) {
      if HasRows(s.rows, id) {
        var r :| r in s.rows && r.topic == id;
        assert r in m.rows;
      } else {
        assert Row(id, s.topics[id].classifier) in m.rows;
      }
    }
  }

  lemma RowsGrow(rows: set<Row>, more: set<Row>, id: TopicId, ns: Namespace)
    requires rows <= more
    ensures HasRows(rows, id) ==> HasRows(more, id)
    ensures HasRowIn(rows, id, ns) ==> HasRowIn(more, id, ns)
  {}

  lemma CloningIsSymmetric(s: State, d: Domain)
    requires Add(s, Siblings(s, d)).Success?
    ensures Symmetric(Add(s, Siblings(s, d)).value, d)
  {
    var after := Add(s, Siblings(s, d)).value;
    forall id | id in after.topics && !after.topics[id].versioned
      ensures HasRowIn(after.rows, id, d.origin) <==> HasRowIn(after.rows, id, d.peer)
    {
      RowsGrow(s.rows, after.rows, id, d.origin);
      RowsGrow(s.rows, after.rows, id, d.peer);
      if HasRowIn(s.rows, id, d.origin) && !HasRowIn(s.rows, id, d.peer) {
        assert Row(id, s.topics[id].classifier.(namespace := d.peer)) in after.rows;
      }
      if HasRowIn(s.rows, id, d.peer) && !HasRowIn(s.rows, id, d.origin) {
        assert Row(id, s.topics[id].classifier.(namespace := d.origin)) in after.rows;
      }
      NoCloneWithoutRow(s, d, id);
    }
  }

  lemma NoCloneWithoutRow(s: State, d: Domain, id: TopicId)
    ensures !HasRowIn(s.rows, id, d.origin) && !HasRowIn(s.rows, id, d.peer) ==>
              !HasRowIn(s.rows + Siblings(s, d), id, d.origin) && !HasRowIn(s.rows + Siblings(s, d), id, d.peer)
  {
  }

  lemma NothingToClone(s: State, d: Domain)
    requires Symmetric(s, d)
    ensures Siblings(s, d) == {}
  {}

  /**
   A successful warmup makes classifiers symmetric: every topic that is not versioned has one in the
   origin iff it has one in the peer. Earlier rows stay, classifiers stay unique, versioned topics get no
   new row, and a second warmup inserts nothing.
   */
  lemma WarmupIsSymmetric(s: State, d: Domain)
    requires Sound(s) && WarmupStatements(s, d).Success?
    ensures var after := WarmupStatements(s, d).value;
            && Sound(after) && Symmetric(after, d) && Covered(after)
            && s.rows <= after.rows && after.topics == s.topics
            && (forall r :: r in after.rows - s.rows ==> !s.topics[r.topic].versioned)
            && WarmupStatements(after, d) == Success(after)
  {
    MigrationCovers(s);
    var migrated := Add(s, Unmigrated(s)).value;
    AddIsSound(migrated, Siblings(migrated, d));
    CloningIsSymmetric(migrated, d);
    var after := WarmupStatements(s, d).value;
    forall id | id in after.topics && !after.topics[id].versioned ensures HasRows(after.rows, id) {
      RowsGrow(migrated.rows, after.rows, id, d.origin);
    }
    assert Unmigrated(after) == {};
    assert Add(after, {}) == Success(after) by { assert after.rows + {} == after.rows; }
    NothingToClone(after, d);
  }

  /**
   What a warmup adds: to a topic that had no classifier its own, and to one that then answers in one namespace
   of the domain only its classifier in the other.
   */
  lemma WarmupAdds(s: State, d: Domain, id: TopicId, c: Classifier)
    requires Sound(s) && WarmupStatements(s, d).Success? && id in s.topics && Row(id, c) !in s.rows
    ensures Row(id, c) in WarmupStatements(s, d).value.rows <==>
              && !s.topics[id].versioned
              && var own := s.topics[id].classifier;
                 var migrated := s.rows + (if HasRows(s.rows, id) then {} else {Row(id, own)});
                 || (c == own && !HasRows(s.rows, id))
                 || (c == own.(namespace := d.peer)
                     && HasRowIn(migrated, id, d.origin) && !HasRowIn(migrated, id, d.peer))
                 || (c == own.(namespace := d.origin)
                     && HasRowIn(migrated, id, d.peer) && !HasRowIn(migrated, id, d.origin))
  {
    var own, first := s.topics[id].classifier, s.rows + Unmigrated(s);
    var migrated := s.rows + (if HasRows(s.rows, id) then {} else {Row(id, own)});
    if !s.topics[id].versioned {
      assert forall x :: Row(id, x) in first <==> Row(id, x) in migrated;
      forall ns ensures HasRowIn(first, id, ns) <==> HasRowIn(migrated, id, ns) {
        if HasRowIn(first, id, ns) {
          var r :| r in first && r.topic == id && r.classifier.namespace == ns;
          assert Row(id, r.classifier) in migrated;
        }
        if HasRowIn(migrated, id, ns) {
          var r :| r in migrated && r.topic == id && r.classifier.namespace == ns;
          assert Row(id, r.classifier) in first;
        }
      }
    }
  }

  // ---- When warmup fails -----------------------------------------------------------------------

  /** One classifier registered for two different topics, one in each namespace, `a` not versioned. */
  ghost predicate Split(s: State, a: Row, b: Row, d: Domain) {
    && a in s.rows && b in s.rows && a.topic != b.topic
    && a.topic in s.topics && !s.topics[a.topic].versioned
    && ((a.classifier.namespace == d.origin && b.classifier == a.classifier.(namespace := d.peer))
        || (a.classifier.namespace == d.peer && b.classifier == a.classifier.(namespace := d.origin)))
  }

  lemma CloneOrigin(s: State, d: Domain, n: Row) returns (a: Row)
    requires Sound(s) && n in Siblings(s, d)
    ensures a in s.rows && a.topic == n.topic && n.topic in s.topics && !s.topics[n.topic].versioned
    ensures n.classifier == a.classifier.(namespace := n.classifier.namespace)
    ensures (a.classifier.namespace == d.origin && n.classifier.namespace == d.peer)
         || (a.classifier.namespace == d.peer && n.classifier.namespace == d.origin)
    ensures !HasRowIn(s.rows, n.topic, n.classifier.namespace)
  {
    if n in Clones(s, d.origin, d.peer) {
      a :| a in s.rows && a.topic == n.topic && a.classifier.namespace == d.origin;
    } else {
      a :| a in s.rows && a.topic == n.topic && a.classifier.namespace == d.peer;
    }
  }

  /** The cloning is refused exactly when some classifier is registered separately in both namespaces. */
  lemma CloningFailsIff(s: State, d: Domain)
    requires Sound(s) && d.origin != d.peer
    ensures Add(s, Siblings(s, d)).Failure? <==> exists a, b :: Split(s, a, b, d)
  {
    var added := Siblings(s, d);
    if a, b :| Split(s, a, b, d) {
      SplitTopicIsCloned(s, a, b, d);
    }
    if !Insertable(s.rows, added) {
      if n, r :| n in added && r in s.rows && n.classifier == r.classifier {
        var a := CloneOrigin(s, d, n);
        assert Split(s, a, r, d);
      } else {
        var n, m :| n in added && m in added && n.classifier == m.classifier && n != m;
        var a := CloneOrigin(s, d, n);
        var b := CloneOrigin(s, d, m);
        assert a.classifier == b.classifier;
        assert a == b;
      }
    }
  }

  /** A topic without classifier whose own belongs to another topic, or is that of another topic without one. */
  ghost predicate Blocked(s: State, id: TopicId) {
    && id in s.topics && !s.topics[id].versioned && !HasRows(s.rows, id)
    && ((exists r :: r in s.rows && r.classifier == s.topics[id].classifier)
        || exists x :: x in s.topics && x != id && !s.topics[x].versioned && !HasRows(s.rows, x)
                       && s.topics[x].classifier == s.topics[id].classifier)
  }

  /** The migration is refused exactly when some topic is blocked. */
  lemma MigrationFailsIff(s: State)
    ensures Add(s, Unmigrated(s)).Failure? <==> exists id :: Blocked(s, id)
  {
    var added := Unmigrated(s);
    if id :| Blocked(s, id) {
      assert Row(id, s.topics[id].classifier) in added;
      if x :| x in s.topics && x != id && !s.topics[x].versioned && !HasRows(s.rows, x)
              && s.topics[x].classifier == s.topics[id].classifier {
        assert Row(x, s.topics[x].classifier) in added;
      }
    }
    if !Insertable(s.rows, added) {
      if n, r :| n in added && r in s.rows && n.classifier == r.classifier {
        assert Blocked(s, n.topic);
      } else {
        var n, m :| n in added && m in added && n.classifier == m.classifier && n != m;
        assert m.topic != n.topic;
        assert Blocked(s, n.topic);
      }
    }
  }

  /** The state between the two statements of a warmup. */
  function Migrated(s: State): State {
    s.(rows := s.rows + Unmigrated(s))
  }

  /** A warmup is refused exactly when some topic blocks its migration, or a classifier is split after it. */
  lemma WarmupFailsIff(s: State, d: Domain)
    requires Sound(s) && d.origin != d.peer
    ensures WarmupStatements(s, d).Failure? <==>
              (exists id :: Blocked(s, id)) || exists a, b :: Split(Migrated(s), a, b, d)
  {
    MigrationFailsIff(s);
    if Add(s, Unmigrated(s)).Success? {
      MigrationCovers(s);
      CloningFailsIff(Migrated(s), d);
    }
  }

  /** A topic has no row where its classifier belongs to another topic. */
  lemma TakenByAnother(s: State, id: TopicId, b: Row)
    requires Sound(s) && id in s.topics && b in s.rows && b.topic != id
    requires b.classifier == s.topics[id].classifier.(namespace := b.classifier.namespace)
    ensures !HasRowIn(s.rows, id, b.classifier.namespace)
  {
    forall r | r in s.rows && r.topic == id ensures r.classifier.namespace != b.classifier.namespace {
      assert r.classifier == s.topics[id].classifier.(namespace := r.classifier.namespace);
    }
  }

  lemma SplitTopicIsCloned(s: State, a: Row, b: Row, d: Domain)
    requires Sound(s) && Split(s, a, b, d) && d.origin != d.peer
    ensures !Insertable(s.rows, Siblings(s, d))
  {
    var ns := b.classifier.namespace;
    var clone := Row(a.topic, s.topics[a.topic].classifier.(namespace := ns));
    assert clone.classifier == b.classifier;
    TakenByAnother(s, a.topic, b);
    assert HasRowIn(s.rows, a.topic, a.classifier.namespace);
    assert clone in Siblings(s, d);
  }

  // ---- Runs ------------------------------------------------------------------------------------

  datatype Operation =
    | Insert(id: TopicId, topic: Topic, external: bool)
    | Remove(id: TopicId)
    | Flag(id: TopicId, versioned: bool)   // a settings update stores the versioned flag
    | Migrate
    | Warm

  /** The lookup of a topic's domain: only the warmed-up one matters here, others are other namespaces. */
  function Find(d: Domain, ns: Namespace, other: Option<Domain>): Option<Domain> {
    if InDomain(ns, d) then Some(d) else other
  }

  predicate Admissible(s: State, d: Domain, op: Operation, other: Option<Domain>) {
    op.Insert? ==>
      && op.id !in s.topics
      && (other.Some? && !InDomain(op.topic.classifier.namespace, d) ==>
            InDomain(op.topic.classifier.namespace, other.value)
            && !InDomain(other.value.origin, d) && !InDomain(other.value.peer, d))
  }

  function Statements(s: State, d: Domain, op: Operation, other: Option<Domain>): Result<State, Error> {
    match op
    case Insert(id, topic, external) =>
      InsertStatements(s, id, topic, Find(d, topic.classifier.namespace, other), external)
    case Remove(id) => Success(Delete(s, id))
    case Flag(id, versioned) => Success(SetFlag(s, id, versioned))
    case Migrate => Add(s, Unmigrated(s))
    case Warm => WarmupStatements(s, d)
  }

  function Commit(s: State, r: Result<State, Error>): State {
    if r.Success? then r.value else s
  }

  /** The flag of a versioned topic is cleared. */
  predicate Unflags(s: State, op: Operation) {
    op.Flag? && !op.versioned && op.id in s.topics && s.topics[op.id].versioned
  }

  /** The topic answers in one namespace of the domain only. */
  predicate OneSided(s: State, d: Domain, id: TopicId) {
    HasRowIn(s.rows, id, d.origin) != HasRowIn(s.rows, id, d.peer)
  }

  /**
   Once warmed up, a domain stays symmetric through every insertion, removal, migration, warmup and update,
   except exactly when the versioned flag of a topic that answers in one of its namespaces only is cleared.
   */
  lemma StepKeepsSymmetry(s: State, d: Domain, op: Operation, other: Option<Domain>)
    requires Sound(s) && Covered(s) && Symmetric(s, d) && d.origin != d.peer
    requires Admissible(s, d, op, other)
    ensures var after := Commit(s, Statements(s, d, op, other));
            && Sound(after)
            && (Covered(after) <==> !(Unflags(s, op) && !HasRows(s.rows, op.id)))
            && (Symmetric(after, d) <==> !(Unflags(s, op) && OneSided(s, d, op.id)))
  {
    match op
    case Insert(id, topic, external) => InsertKeepsSymmetry(s, d, op, other);
    case Remove(id) => RemoveKeepsSymmetry(s, d, id);
    case Flag(id, versioned) => FlagKeepsSymmetryIff(s, d, op);
    case Migrate =>
      assert Unmigrated(s) == {};
      assert s.rows + {} == s.rows;
    case Warm =>
      if WarmupStatements(s, d).Success? {
        WarmupIsSymmetric(s, d);
      }
  }

  lemma FlagKeepsSymmetryIff(s: State, d: Domain, op: Operation)
    requires Sound(s) && Covered(s) && Symmetric(s, d) && op.Flag?
    ensures var after := SetFlag(s, op.id, op.versioned);
            && Sound(after)
            && (Covered(after) <==> !(Unflags(s, op) && !HasRows(s.rows, op.id)))
            && (Symmetric(after, d) <==> !(Unflags(s, op) && OneSided(s, d, op.id)))
  {
    var after := SetFlag(s, op.id, op.versioned);
    assert after.rows == s.rows && after.topics.Keys == s.topics.Keys;
    assert forall x :: x in s.topics && x != op.id ==> after.topics[x] == s.topics[x];
    assert forall x :: x in s.topics ==> after.topics[x].classifier == s.topics[x].classifier;
  }

  /** The input: a versioned topic of the domain is stored, with its own classifier only, and its flag cleared. */
  lemma UnflaggedTopicSplits(s: State, d: Domain, id: TopicId, t: Topic)
    requires Sound(s) && Covered(s) && Symmetric(s, d) && d.origin != d.peer
    requires id !in s.topics && t.versioned && InDomain(t.classifier.namespace, d)
    requires InsertStatements(s, id, t, Some(d), true).Success?
    ensures var stored := InsertStatements(s, id, t, Some(d), true).value;
            OneSided(stored, d, id) && Symmetric(stored, d) && !Symmetric(SetFlag(stored, id, false), d)
  {
    InsertAdds(s, id, t, Some(d), true);
    InsertKeepsSymmetry(s, d, Insert(id, t, true), None);
    var stored := InsertStatements(s, id, t, Some(d), true).value;
    assert Row(id, t.classifier) in stored.rows;
    assert forall r :: r in stored.rows && r.topic == id ==> r == Row(id, t.classifier);
    var after := SetFlag(stored, id, false);
    assert id in after.topics && !after.topics[id].versioned && after.rows == stored.rows;
  }

  lemma RemoveKeepsSymmetry(s: State, d: Domain, id: TopicId)
    requires Sound(s) && Covered(s) && Symmetric(s, d)
    ensures Sound(Delete(s, id)) && Covered(Delete(s, id)) && Symmetric(Delete(s, id), d)
  {
    var after := Delete(s, id);
    forall x | x != id
      ensures HasRows(after.rows, x) <==> HasRows(s.rows, x)
      ensures forall ns :: HasRowIn(after.rows, x, ns) <==> HasRowIn(s.rows, x, ns)
    {
      if HasRows(s.rows, x) {
        var r :| r in s.rows && r.topic == x;
        assert r in after.rows;
      }
      forall ns | HasRowIn(s.rows, x, ns) ensures HasRowIn(after.rows, x, ns) {
        var r :| r in s.rows && r.topic == x && r.classifier.namespace == ns;
        assert r in after.rows;
      }
    }
  }

  /** Rows of a new topic say nothing about the others. */
  lemma NewRows(s: State, id: TopicId, added: set<Row>, x: TopicId)
    requires x != id && forall r :: r in added ==> r.topic == id
    ensures HasRows(s.rows + added, x) <==> HasRows(s.rows, x)
    ensures forall ns :: HasRowIn(s.rows + added, x, ns) <==> HasRowIn(s.rows, x, ns)
  {
    RowsGrow(s.rows, s.rows + added, x, 0);
    forall ns {
      RowsGrow(s.rows, s.rows + added, x, ns);
    }
  }

  /** The rows an insertion adds: the topic's own and, in a domain and not versioned, its sibling. */
  function AddedRows(id: TopicId, t: Topic, domain: Option<Domain>): set<Row> {
    if t.versioned || domain.None? then {Row(id, t.classifier)}
    else {Row(id, t.classifier), Row(id, Sibling(t.classifier, domain.value))}
  }

  lemma InsertAdds(s: State, id: TopicId, t: Topic, domain: Option<Domain>, external: bool)
    requires Sound(s) && id !in s.topics && InsertStatements(s, id, t, domain, external).Success?
    ensures var after := InsertStatements(s, id, t, domain, external).value;
            Sound(after) && after == State(s.topics[id := t], s.rows + AddedRows(id, t, domain))
  {}

  /** The same classifier in the other namespace of the domain. */
  ghost predicate IsSibling(a: Classifier, b: Classifier, d: Domain) {
    && a.name == b.name && a.tenantId == b.tenantId
    && ((a.namespace == d.origin && b.namespace == d.peer) || (a.namespace == d.peer && b.namespace == d.origin))
  }

  /**
   An insertion succeeds exactly when its classifier and, in a domain and not versioned, the sibling are
   free and the code run inside succeeds. It then adds just the topic with those rows.
   */
  lemma InsertSucceedsIff(s: State, id: TopicId, t: Topic, domain: Option<Domain>, external: bool, sibling: Classifier)
    requires Sound(s) && id !in s.topics
    requires domain.Some? ==> domain.value.origin != domain.value.peer && IsSibling(t.classifier, sibling, domain.value)
    ensures var cloned := domain.Some? && !t.versioned;
            var r := InsertStatements(s, id, t, domain, external);
            && (r.Success? <==>
                  && (forall x :: x in s.topics ==> s.topics[x].classifier != t.classifier)
                  && (forall q :: q in s.rows ==> q.classifier != t.classifier)
                  && (cloned ==> forall q :: q in s.rows ==> q.classifier != sibling)
                  && external)
            && (r.Success? ==>
                  && r.value.topics == s.topics[id := t]
                  && r.value.rows == s.rows + {Row(id, t.classifier)} + if cloned then {Row(id, sibling)} else {})
  {
    if domain.Some? {
      assert sibling == Sibling(t.classifier, domain.value);
    }
    assert s.rows + {Row(id, t.classifier)} + {} == s.rows + {Row(id, t.classifier)};
    var own := s.rows + {Row(id, t.classifier)};
    assert Insertable(s.rows, {Row(id, t.classifier)}) <==>
             forall q :: q in s.rows ==> q.classifier != t.classifier;
    assert Row(id, t.classifier) in own;
    if domain.Some? {
      assert Insertable(own, {Row(id, sibling)}) <==> forall q :: q in own ==> q.classifier != sibling;
    }
  }

  lemma InsertKeepsSymmetry(s: State, d: Domain, op: Operation, other: Option<Domain>)
    requires Sound(s) && Covered(s) && Symmetric(s, d) && d.origin != d.peer
    requires op.Insert? && Admissible(s, d, op, other)
    ensures var after := Commit(s, Statements(s, d, op, other));
            Sound(after) && Covered(after) && Symmetric(after, d)
  {
    var (id, t, domain) := (op.id, op.topic, Find(d, op.topic.classifier.namespace, other));
    if InsertStatements(s, id, t, domain, op.external).Success? {
      InsertAdds(s, id, t, domain, op.external);
      var added := AddedRows(id, t, domain);
      forall x | x in s.topics
        ensures HasRows(s.rows + added, x) <==> HasRows(s.rows, x)
        ensures forall ns :: HasRowIn(s.rows + added, x, ns) <==> HasRowIn(s.rows, x, ns)
      {
        NewRows(s, id, added, x);
      }
      assert Row(id, t.classifier) in s.rows + added;
      if !t.versioned {
        NewTopicIsSymmetric(s, id, t, d, other);
      }
    }
  }

  /** The new topic itself: in the warmed-up domain both rows are its, elsewhere neither is. */
  lemma NewTopicIsSymmetric(s: State, id: TopicId, t: Topic, d: Domain, other: Option<Domain>)
    requires Sound(s) && id !in s.topics && Admissible(s, d, Insert(id, t, true), other) && !t.versioned
    ensures var rows := s.rows + AddedRows(id, t, Find(d, t.classifier.namespace, other));
            HasRowIn(rows, id, d.origin) <==> HasRowIn(rows, id, d.peer)
  {
    var added := AddedRows(id, t, Find(d, t.classifier.namespace, other));
    if InDomain(t.classifier.namespace, d) {
      assert Row(id, t.classifier) in s.rows + added;
      assert Row(id, Sibling(t.classifier, d)) in s.rows + added;
    } else {
      assert forall r :: r in s.rows + added && r.topic == id ==> r in added;
    }
  }

  function Run(s: State, d: Domain, ops: seq<(Operation, Option<Domain>)>): State
    decreases |ops|
  {
    if ops == [] then s else Run(Commit(s, Statements(s, d, ops[0].0, ops[0].1)), d, ops[1..])
  }

  ghost predicate AllAdmissible(s: State, d: Domain, ops: seq<(Operation, Option<Domain>)>)
    decreases |ops|
  {
    ops != [] ==>
      && Admissible(s, d, ops[0].0, ops[0].1)
      && AllAdmissible(Commit(s, Statements(s, d, ops[0].0, ops[0].1)), d, ops[1..])
  }

  /** No update of the run clears the flag of a topic that lacks a row it then needs. */
  predicate NeverSplits(s: State, d: Domain, ops: seq<(Operation, Option<Domain>)>)
    decreases |ops|
  {
    ops != [] ==>
      && (Unflags(s, ops[0].0) ==> !OneSided(s, d, ops[0].0.id) && HasRows(s.rows, ops[0].0.id))
      && NeverSplits(Commit(s, Statements(s, d, ops[0].0, ops[0].1)), d, ops[1..])
  }

  lemma {:induction false} AlwaysSymmetricOnceWarm(s: State, d: Domain, ops: seq<(Operation, Option<Domain>)>)
    requires Sound(s) && Covered(s) && Symmetric(s, d) && d.origin != d.peer
    requires AllAdmissible(s, d, ops) && NeverSplits(s, d, ops)
    ensures Sound(Run(s, d, ops)) && Symmetric(Run(s, d, ops), d)
    decreases |ops|
  {
    if ops != [] {
      StepKeepsSymmetry(s, d, ops[0].0, ops[0].1);
      AlwaysSymmetricOnceWarm(Commit(s, Statements(s, d, ops[0].0, ops[0].1)), d, ops[1..]);
    }
  }

  // ---- The DAO ---------------------------------------------------------------------------------

  class KafkaDao {
    var topics: map<TopicId, Topic>
    var rows: set<Row>

    constructor ()
      ensures View() == State(map[], {}) && Valid()
    {
      topics, rows := map[], {};
    }

    function View(): State
      reads this
    {
      State(topics, rows)
    }

    ghost predicate Valid()
      reads this
    {
      Sound(View())
    }

    /** Warmup; `rest` says whether its later steps, on definitions and templates, succeed. */
    method Warmup(d: Domain, rest: bool) returns (err: Option<Error>)
      requires Valid()
      modifies this
      ensures Valid()
      ensures err == (match WarmupStatements(old(View()), d)
                      case Failure(e) => Some(e)
                      case Success(_) => if rest then None else Some(External))
      ensures View() == if err.None? then WarmupStatements(old(View()), d).value else old(View())
      ensures err.None? ==> Symmetric(View(), d) && Covered(View())
    {
      if WarmupStatements(View(), d).Success? {
        WarmupIsSymmetric(View(), d);
      }
      var tx := Add(View(), Unmigrated(View()));
      if tx.Success? {
        tx := Add(tx.value, Siblings(tx.value, d));
      }
      if tx.Failure? {
        return Some(tx.error);
      }
      if !rest {
        return Some(External);
      }
      rows, err := tx.value.rows, None;
    }

    /** InsertTopicRegistration with the fresh key `id`; everything is undone when a statement or `external` fails. */
    method InsertTopicRegistration(id: TopicId, topic: Topic, domain: Option<Domain>, external: bool)
      returns (err: Option<Error>)
      requires Valid() && id !in topics
      requires domain.Some? ==> InDomain(topic.classifier.namespace, domain.value)
      modifies this
      ensures Valid() && View() == Commit(old(View()), InsertStatements(old(View()), id, topic, domain, external))
      ensures err.None? <==> InsertStatements(old(View()), id, topic, domain, external).Success?
      ensures err.None? ==>
                topics == old(topics)[id := topic] && rows == old(rows) + AddedRows(id, topic, domain)
    {
      if exists x :: x in topics && topics[x].classifier == topic.classifier {
        return Some(Conflict);
      }
      var tx := Add(State(topics[id := topic], rows), {Row(id, topic.classifier)});
      if tx.Success? {
        if !topic.versioned && domain.Some? {
          tx := Add(tx.value, {Row(id, Sibling(topic.classifier, domain.value))});
        }
      }
      if tx.Failure? {
        return Some(tx.error);
      }
      if !external {
        return Some(External);
      }
      topics, rows, err := tx.value.topics, tx.value.rows, None;
    }
  }
}
