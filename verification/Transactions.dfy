/**
 The transaction core: one transaction context is shared by every block nested inside the block
 that created it, and only that outermost block commits or rolls back.

 A client program is a tree of nested blocks. `Run` says what the code does with it, context
 object, nesting counter, connection choice and cache failover included. `Flat` and `Erase` are
 the two reference meanings it is compared with: `Flat` keeps only the question "which writes go
 through the transaction", `Erase` forgets the blocks altogether.
 */
module Transactions {
  import opened Wrappers

  datatype Error =
    | Application
    | ConnectionLost              // "unexpected EOF", the one error taken for a dead master
    | NotFound
    | NotFoundInCache
    | ReadOnly                    // the cache refuses a write
    | UnavailableForUpdate
    | Unavailable
    | CommitFailed
    | RollbackFailed
    | RollingBack(original: Error)  // wraps the error after which the rollback failed too

  /** A Go error result: `None` is nil. */
  type Outcome = Option<Error>

  type Write = int

  datatype Node = Master | Cache

  /** The connection a closure is handed: a pooled one, or the connection of the open transaction. */
  datatype Connection = Pool(node: Node) | TxConnection

  datatype Block =
    | Put(w: Write)                           // a write statement on the connection in hand
    | Raise(e: Error)                         // the body returns an error
    | Probe                                   // a statement whose connection to the master breaks
    | Seq(first: Block, second: Block)        // the second part runs only after success of the first
    | Ignore(body: Block)                     // the error of the body is swallowed
    | Global(body: Block)                     // dao.WithTransactionContext
    | WithTx(alive: bool, body: Block)        // BaseDao.WithTx, with what the monitor answers then
    | UsingDb(alive: bool, body: Block)       // BaseDao.UsingDb, likewise

  /** An open database transaction: where it lives and what it has written so far. */
  datatype Session = Session(node: Node, pending: seq<Write>)

  datatype Tx = Tx(nesting: nat, txCnn: Option<Session>)

  datatype Event = Begin(node: Node) | Commit | Rollback

  datatype State = State(committed: seq<Write>, tx: Option<Tx>, log: seq<Event>)

  /** What does not change during a run: is there a cache replica, what a commit returns, would a rollback succeed. */
  datatype Env = Env(replica: bool, commit: Outcome, rollbackOk: bool)

  // ---------------------------------------------------------------------------------------------
  // What the code does
  // ---------------------------------------------------------------------------------------------

  function PutOn(s: State, w: Write, c: Connection): (State, Outcome)
    requires c == TxConnection ==> s.tx.Some? && s.tx.value.txCnn.Some?
  {
    match c
    case Pool(Master) => (s.(committed := s.committed + [w]), None)
    case Pool(Cache) => (s, Some(ReadOnly))
    case TxConnection =>
      var session := s.tx.value.txCnn.value;
      if session.node.Cache? then (s, Some(ReadOnly))
      else (s.(tx := Some(s.tx.value.(txCnn := Some(session.(pending := session.pending + [w]))))), None)
  }

  function ConnectionNode(s: State, c: Connection): Node
    requires c == TxConnection ==> s.tx.Some? && s.tx.value.txCnn.Some?
  {
    match c
    case Pool(node) => node
    case TxConnection => s.tx.value.txCnn.value.node
  }

  /** TransactionContext.Begin: the transaction starts at its first use, on the connection given then. */
  function BeginOn(s: State, c: Connection): (r: State)
    requires s.tx.Some?
    requires c == TxConnection ==> s.tx.value.txCnn.Some?
  {
    if s.tx.value.txCnn.Some? then s
    else s.(tx := Some(s.tx.value.(txCnn := Some(Session(c.node, [])))), log := s.log + [Begin(c.node)])
  }

  /** The end of WithTransactionContextValue, after the body returned `err`. */
  function Leave(s: State, err: Outcome, env: Env): (State, Outcome)
    requires s.tx.Some? && s.tx.value.nesting > 0
  {
    var tx := s.tx.value;
    if tx.nesting > 1 then (s.(tx := Some(tx.(nesting := tx.nesting - 1))), err)
    else if tx.txCnn.None? then (s.(tx := None), err)
    else if err.Some? then (s.(tx := None, log := s.log + [Rollback]), AfterRollback(err.value, env))
    else if env.commit.None? then
      (State(s.committed + tx.txCnn.value.pending, None, s.log + [Commit]), None)
    else (s.(tx := None, log := s.log + [Commit]), env.commit)
  }

  /**
   The error of a block whose transaction was rolled back. A rollback that fails is named in the text of a
   new error, which no longer reads as a lost connection but still wraps the original.
   */
  function AfterRollback(err: Error, env: Env): Outcome {
    Some(if env.rollbackOk then err else RollingBack(err))
  }

  /** What errors.Is and errors.As look for. */
  function Root(e: Error): Error {
    match e
    case RollingBack(original) => Root(original)
    case _ => e
  }

  function Enter(s: State): State {
    if s.tx.None? then s.(tx := Some(Tx(1, None)))
    else s.(tx := Some(s.tx.value.(nesting := s.tx.value.nesting + 1)))
  }

  /** What UsingDb makes of the answer the cache gave. */
  function CacheOutcome(o: Outcome): Outcome {
    if o.None? then None
    else
      match Root(o.value)
      case ReadOnly => Some(UnavailableForUpdate)
      case NotFound => Some(NotFoundInCache)
      case NotFoundInCache => Some(NotFoundInCache)
      case _ => Some(Unavailable)
  }

  /**
   An open context keeps its nesting level; a transaction started in it keeps its node and what it has
   written, and the log gains nothing but the one Begin of a transaction started meanwhile.
   */
  ghost predicate Continues(before: State, after: State) {
    && (before.tx.None? <==> after.tx.None?)
    && (before.tx.Some? ==>
          && after.tx.value.nesting == before.tx.value.nesting
          && (if before.tx.value.txCnn.Some? then
                && after.log == before.log
                && after.tx.value.txCnn.Some?
                && after.tx.value.txCnn.value.node == before.tx.value.txCnn.value.node
                && before.tx.value.txCnn.value.pending <= after.tx.value.txCnn.value.pending
              else if after.tx.value.txCnn.Some? then
                after.log == before.log + [Begin(after.tx.value.txCnn.value.node)]
              else
                after.log == before.log))
  }

  ghost predicate Usable(s: State, c: Connection) {
    && (s.tx.Some? ==> s.tx.value.nesting > 0)
    && (c == TxConnection ==> s.tx.Some? && s.tx.value.txCnn.Some?)
  }

  /** One call of the closure given to WithTx or UsingDb, on connection `c`. */
  function Attempt(body: Block, inTx: bool, env: Env, s: State, c: Connection): (r: (State, Outcome))
    requires Usable(s, c) && (inTx ==> s.tx.Some?)
    ensures Continues(s, r.0)
    decreases body, 1
  {
    if inTx then Run(body, env, BeginOn(s, c), TxConnection) else Run(body, env, s, c)
  }

  /** UsingDb, for a closure that first calls Begin (`inTx`, the WithTx case) or does not. */
  function Access(body: Block, inTx: bool, alive: bool, env: Env, s: State): (r: (State, Outcome))
    requires (s.tx.Some? ==> s.tx.value.nesting > 0) && (inTx ==> s.tx.Some?)
    ensures Continues(s, r.0)
    decreases body, 2
  {
    var c := if s.tx.Some? && s.tx.value.txCnn.Some? then TxConnection else Pool(Master);
    var first := if alive then Attempt(body, inTx, env, s, c) else (s, None);
    if (!alive || first.1 == Some(ConnectionLost)) && env.replica then
      var second := Attempt(body, inTx, env, first.0, Pool(Cache));
      (second.0, CacheOutcome(second.1))
    else first
  }

  function Run(p: Block, env: Env, s: State, c: Connection): (r: (State, Outcome))
    requires Usable(s, c)
    ensures Continues(s, r.0)
    decreases p, 0
  {
    match p
    case Put(w) => PutOn(s, w, c)
    case Raise(e) => (s, Some(e))
    case Probe => (s, if ConnectionNode(s, c).Master? then Some(ConnectionLost) else None)
    case Seq(first, second) =>
      var (s1, o1) := Run(first, env, s, c);
      if o1.Some? then (s1, o1) else Run(second, env, s1, c)
    case Ignore(body) => (Run(body, env, s, c).0, None)
    case Global(body) =>
      var (s1, o1) := Run(body, env, Enter(s), c);
      Leave(s1, o1, env)
    case WithTx(alive, body) =>
      if s.tx.Some? then Access(body, true, alive, env, s)
      else
        var (s1, o1) := Access(body, true, alive, env, Enter(s));
        Leave(s1, o1, env)
    case UsingDb(alive, body) => Access(body, false, alive, env, s)
  }

  // ---------------------------------------------------------------------------------------------
  // Reference meanings
  // ---------------------------------------------------------------------------------------------

  /** What a body amounts to inside an open context while the master serves every request. */
  datatype Effect = Effect(err: Outcome, begun: bool, direct: seq<Write>, tx: seq<Write>)

  /** `inTx`: the connection in hand belongs to the transaction; `begun`: the transaction has started. */
  function Flat(p: Block, inTx: bool, begun: bool): (r: Effect)
    ensures begun ==> r.begun
    ensures !r.begun && !inTx ==> r.tx == []
  {
    match p
    case Put(w) => if inTx then Effect(None, begun, [], [w]) else Effect(None, begun, [w], [])
    case Raise(e) => Effect(Some(e), begun, [], [])
    case Probe => Effect(Some(ConnectionLost), begun, [], [])
    case Seq(first, second) =>
      var a := Flat(first, inTx, begun);
      if a.err.Some? then a
      else
        var b := Flat(second, inTx, a.begun);
        Effect(b.err, b.begun, a.direct + b.direct, a.tx + b.tx)
    case Ignore(body) => Flat(body, inTx, begun).(err := None)
    case Global(body) => Flat(body, inTx, begun)
    case WithTx(_, body) => Flat(body, true, true)
    case UsingDb(_, body) => Flat(body, begun, begun)
  }

  /** The program with all blocks erased: a plain sequence of writes that stops at an error. */
  function Erase(p: Block): (Outcome, seq<Write>) {
    match p
    case Put(w) => (None, [w])
    case Raise(e) => (Some(e), [])
    case Probe => (Some(ConnectionLost), [])
    case Seq(first, second) =>
      var (o, ws) := Erase(first);
      if o.Some? then (o, ws) else (Erase(second).0, ws + Erase(second).1)
    case Ignore(body) => (None, Erase(body).1)
    case Global(body) => Erase(body)
    case WithTx(_, body) => Erase(body)
    case UsingDb(_, body) => Erase(body)
  }

  /** Every write statement stands, lexically, inside a WithTx closure. */
  predicate Enclosed(p: Block, inTx: bool) {
    match p
    case Put(_) => inTx
    case Raise(_) => true
    case Probe => true
    case Seq(first, second) => Enclosed(first, inTx) && Enclosed(second, inTx)
    case Ignore(body) => Enclosed(body, inTx)
    case Global(body) => Enclosed(body, inTx)
    case WithTx(_, body) => Enclosed(body, true)
    case UsingDb(_, body) => Enclosed(body, inTx)
  }

  /** The monitor reports a live master at every access, and with a cache present no connection breaks. */
  predicate Steady(p: Block, env: Env) {
    match p
    case Put(_) => true
    case Raise(e) => env.replica ==> e != ConnectionLost
    case Probe => !env.replica
    case Seq(first, second) => Steady(first, env) && Steady(second, env)
    case Ignore(body) => Steady(body, env)
    case Global(body) => Steady(body, env)
    case WithTx(alive, body) => alive && Steady(body, env)
    case UsingDb(alive, body) => alive && Steady(body, env)
  }

  // ---------------------------------------------------------------------------------------------
  // Refinement
  // ---------------------------------------------------------------------------------------------

  ghost predicate OnMaster(s: State) {
    s.tx.Some? && s.tx.value.nesting > 0 && (s.tx.value.txCnn.Some? ==> s.tx.value.txCnn.value.node.Master?)
  }

  function Begun(s: State): bool {
    s.tx.Some? && s.tx.value.txCnn.Some?
  }

  /** The state `s` after effect `f`, in a context that stays open. */
  function Apply(s: State, f: Effect): State
    requires s.tx.Some?
  {
    var pending := if Begun(s) then s.tx.value.txCnn.value.pending else [];
    State(s.committed + f.direct,
          Some(Tx(s.tx.value.nesting, if f.begun then Some(Session(Master, pending + f.tx)) else None)),
          if f.begun && !Begun(s) then s.log + [Begin(Master)] else s.log)
  }

  lemma ApplyNothing(s: State, f: Effect)
    requires OnMaster(s) && f.direct == [] && f.tx == [] && f.begun == Begun(s)
    ensures Apply(s, f) == s
  {
    assert s.committed + [] == s.committed;
    if Begun(s) {
      assert s.tx.value.txCnn.value.pending + [] == s.tx.value.txCnn.value.pending;
    }
  }

  lemma ApplyTwice(s: State, a: Effect, b: Effect)
    requires OnMaster(s) && (Begun(s) ==> a.begun) && (a.begun ==> b.begun) && (!a.begun ==> a.tx == [])
    ensures Apply(Apply(s, a), b) == Apply(s, Effect(b.err, b.begun, a.direct + b.direct, a.tx + b.tx))
  {
    var pending := if Begun(s) then s.tx.value.txCnn.value.pending else [];
    assert s.committed + (a.direct + b.direct) == s.committed + a.direct + b.direct;
    assert pending + (a.tx + b.tx) == pending + a.tx + b.tx;
    assert a.tx == [] ==> a.tx + b.tx == b.tx;
  }

  lemma ApplyAfterBegin(s: State, c: Connection, f: Effect)
    requires OnMaster(s) && Usable(s, c) && f.begun && c != Pool(Cache)
    ensures Apply(BeginOn(s, c), f) == Apply(s, f)
  {
    if !Begun(s) {
      assert c == Pool(c.node);
      assert c.node == Cache ==> c == Pool(Cache);
      assert c.node == Master;
    }
  }

  function MasterConnection(s: State): Connection {
    if Begun(s) then TxConnection else Pool(Master)
  }

  /** With a live master and an unbroken connection a closure is called once, on the master. */
  lemma SteadyAccess(body: Block, inTx: bool, env: Env, s: State)
    requires s.tx.Some? && s.tx.value.nesting > 0
    requires env.replica ==> Attempt(body, inTx, env, s, MasterConnection(s)).1 != Some(ConnectionLost)
    ensures Access(body, inTx, true, env, s) == Attempt(body, inTx, env, s, MasterConnection(s))
  {
  }

  /** Inside an open context the code does exactly what the flat meaning says. */
  lemma {:induction false} RunRefinesFlat(p: Block, env: Env, s: State, c: Connection)
    requires Steady(p, env) && OnMaster(s) && Usable(s, c) && c != Pool(Cache)
    ensures Run(p, env, s, c) == (Apply(s, Flat(p, c.TxConnection?, Begun(s))), Flat(p, c.TxConnection?, Begun(s)).err)
    ensures env.replica ==> Flat(p, c.TxConnection?, Begun(s)).err != Some(ConnectionLost)
    decreases p, 0
  {
    match p
    case Put(w) =>
      assert s.committed + [] == s.committed;
      if Begun(s) {
        assert s.tx.value.txCnn.value.pending + [] == s.tx.value.txCnn.value.pending;
      }
    case Raise(e) => ApplyNothing(s, Flat(p, c.TxConnection?, Begun(s)));
    case Probe => ApplyNothing(s, Flat(p, c.TxConnection?, Begun(s)));
    case Seq(first, second) =>
      RunRefinesFlat(first, env, s, c);
      var a := Flat(first, c.TxConnection?, Begun(s));
      if a.err.None? {
        RunRefinesFlat(second, env, Apply(s, a), c);
        ApplyTwice(s, a, Flat(second, c.TxConnection?, a.begun));
      }
    case Ignore(body) => RunRefinesFlat(body, env, s, c);
    case Global(body) => RunRefinesFlat(body, env, Enter(s), c);
    case WithTx(alive, body) => AccessRefinesFlat(body, true, env, s);
    case UsingDb(alive, body) => AccessRefinesFlat(body, false, env, s);
  }

  lemma {:induction false} AccessRefinesFlat(body: Block, inTx: bool, env: Env, s: State)
    requires Steady(body, env) && OnMaster(s)
    ensures var f := Flat(body, inTx || Begun(s), inTx || Begun(s));
            && Access(body, inTx, true, env, s) == (Apply(s, f), f.err)
            && (env.replica ==> f.err != Some(ConnectionLost))
    decreases body, 1
  {
    var c := MasterConnection(s);
    if inTx {
      RunRefinesFlat(body, env, BeginOn(s, c), TxConnection);
      ApplyAfterBegin(s, c, Flat(body, true, true));
    } else {
      RunRefinesFlat(body, env, s, c);
    }
    SteadyAccess(body, inTx, env, s);
  }

  function CommitOutcome(f: Effect, env: Env): Outcome {
    if f.err.Some? then (if f.begun then AfterRollback(f.err.value, env) else f.err)
    else if f.begun then env.commit else None
  }

  /**
   The outermost block, for every tree of nested blocks over a live master: at most one begin, then
   exactly one commit or rollback, and the transaction's writes appear together, in order, exactly
   when the block returns nil, however many inner errors were swallowed on the way.
   */
  lemma OutermostBlock(body: Block, env: Env, s: State, c: Connection)
    requires s.tx.None? && Steady(body, env) && c == Pool(Master)
    ensures var f := Flat(body, false, false);
            var (s', o) := Run(Global(body), env, s, c);
            && s'.tx.None?
            && o == CommitOutcome(f, env)
            && s'.committed == (if o.None? then s.committed + f.direct + f.tx else s.committed + f.direct)
            && s'.log == (if !f.begun then s.log
                          else s.log + [Begin(Master), if f.err.None? then Commit else Rollback])
  {
    RunRefinesFlat(body, env, Enter(s), c);
    var f := Flat(body, false, false);
    if f.begun {
      assert [] + f.tx == f.tx;
      assert s.log + [Begin(Master), if f.err.None? then Commit else Rollback]
          == s.log + [Begin(Master)] + [if f.err.None? then Commit else Rollback];
    } else {
      assert s.committed + f.direct + f.tx == s.committed + f.direct;
    }
  }

  /** When all writes are enclosed, the flat meaning is the erased program, all of it transactional. */
  lemma {:induction false} EnclosedIsErased(p: Block, k: bool, inTx: bool, begun: bool)
    requires Enclosed(p, k) && (k ==> inTx) && (inTx ==> begun)
    ensures var f := Flat(p, inTx, begun);
            f.err == Erase(p).0 && f.direct == [] && f.tx == Erase(p).1
    decreases p
  {
    match p
    case Put(_) =>
    case Raise(_) =>
    case Probe =>
    case Seq(first, second) =>
      EnclosedIsErased(first, k, inTx, begun);
      EnclosedIsErased(second, k, inTx, Flat(first, inTx, begun).begun);
    case Ignore(body) => EnclosedIsErased(body, k, inTx, begun);
    case Global(body) => EnclosedIsErased(body, k, inTx, begun);
    case WithTx(_, body) => EnclosedIsErased(body, true, true, true);
    case UsingDb(_, body) => EnclosedIsErased(body, k, begun, begun);
  }

  /** All the writes of the erased program `e`, or none of them. */
  ghost predicate AllOrNothing(before: State, e: (Outcome, seq<Write>), env: Env, after: State, o: Outcome) {
    && (o.None? ==> e.0.None? && after.committed == before.committed + e.1)
    && (o.Some? ==> after.committed == before.committed)
    && (e.0.None? ==> o in {None, env.commit})
    && (e.0.Some? ==> o in {e.0, AfterRollback(e.0.value, env)})
  }

  /** The nested program refines one atomic block. */
  lemma NestedIsAtomic(body: Block, env: Env, s: State)
    requires s.tx.None? && Steady(body, env) && Enclosed(body, false)
    ensures var (s', o) := Run(Global(body), env, s, Pool(Master));
            AllOrNothing(s, Erase(body), env, s', o)
  {
    OutermostBlock(body, env, s, Pool(Master));
    EnclosedIsErased(body, false, false, false);
    assert s.committed + [] == s.committed;
  }

  /** So does a WithTx call outside any context: it opens and ends a context of its own. */
  lemma LocalIsAtomic(body: Block, env: Env, s: State, c: Connection)
    requires s.tx.None? && Usable(s, c) && Steady(body, env) && Enclosed(body, true)
    ensures var (s', o) := Run(WithTx(true, body), env, s, c);
            AllOrNothing(s, Erase(body), env, s', o)
  {
    NestedIsAtomic(WithTx(true, body), env, s);
    assert Run(Global(WithTx(true, body)), env, s, Pool(Master)) == Run(WithTx(true, body), env, s, c);
  }

  /**
   Whatever the monitor answers and however often a closure is retried on the cache, nothing
   written inside WithTx is visible while the context is open.
   */
  lemma {:induction false} NothingVisibleBeforeCommit(p: Block, env: Env, s: State, c: Connection, k: bool)
    requires Usable(s, c) && s.tx.Some?
    requires Enclosed(p, k) && (k ==> Begun(s) && c != Pool(Master))
    ensures Run(p, env, s, c).0.committed == s.committed
    decreases p, 0
  {
    match p
    case Put(_) =>
    case Raise(_) =>
    case Probe =>
    case Seq(first, second) =>
      NothingVisibleBeforeCommit(first, env, s, c, k);
      var (s1, o1) := Run(first, env, s, c);
      if o1.None? {
        NothingVisibleBeforeCommit(second, env, s1, c, k);
      }
    case Ignore(body) => NothingVisibleBeforeCommit(body, env, s, c, k);
    case Global(body) => NothingVisibleBeforeCommit(body, env, Enter(s), c, k);
    case WithTx(alive, body) => AccessInvisible(body, true, alive, env, s, true);
    case UsingDb(alive, body) => AccessInvisible(body, false, alive, env, s, k);
  }

  lemma {:induction false} AccessInvisible(body: Block, inTx: bool, alive: bool, env: Env, s: State, k: bool)
    requires s.tx.Some? && s.tx.value.nesting > 0
    requires Enclosed(body, k) && (k ==> inTx || Begun(s))
    ensures Access(body, inTx, alive, env, s).0.committed == s.committed
    decreases body, 1
  {
    var c := if Begun(s) then TxConnection else Pool(Master);
    var s1 := s;
    if alive {
      var start := if inTx then BeginOn(s, c) else s;
      NothingVisibleBeforeCommit(body, env, start, if inTx then TxConnection else c, k);
      s1 := Attempt(body, inTx, env, s, c).0;
    }
    var start := if inTx then BeginOn(s1, Pool(Cache)) else s1;
    NothingVisibleBeforeCommit(body, env, start, if inTx then TxConnection else Pool(Cache), k);
  }

  /** All or nothing under any failover: an outermost block that reports an error left no trace. */
  lemma FailureLeavesNoTrace(body: Block, env: Env, s: State)
    requires s.tx.None? && Enclosed(body, false)
    ensures var (s', o) := Run(Global(body), env, s, Pool(Master));
            && s'.tx.None?
            && (o.Some? ==> s'.committed == s.committed)
            && s.committed <= s'.committed
            && (s'.log == s.log
                || exists n: Node, e: Event :: e in {Commit, Rollback} && s'.log == s.log + [Begin(n), e])
  {
    NothingVisibleBeforeCommit(body, env, Enter(s), Pool(Master), false);
    var (s1, o1) := Run(body, env, Enter(s), Pool(Master));
    var s' := Run(Global(body), env, s, Pool(Master)).0;
    if Begun(s1) {
      var n, e := s1.tx.value.txCnn.value.node, if o1.None? then Commit else Rollback;
      assert s'.log == s.log + [Begin(n)] + [e] == s.log + [Begin(n), e];
    }
  }

  // ---------------------------------------------------------------------------------------------
  // Where the promise ends
  // ---------------------------------------------------------------------------------------------

  /** A failing outermost block leaves nothing behind exactly when no write goes ahead of or around its transaction. */
  lemma FailureLeavesNothingIff(body: Block, env: Env, s: State)
    requires s.tx.None? && Steady(body, env)
    ensures var (s', o) := Run(Global(body), env, s, Pool(Master));
            o.Some? ==> (s'.committed == s.committed <==> Flat(body, false, false).direct == [])
  {
    OutermostBlock(body, env, s, Pool(Master));
    var direct := Flat(body, false, false).direct;
    assert direct == [] ==> s.committed + direct == s.committed;
  }

  lemma EarlyIsDirect(w: Write, later: Block)
    ensures Flat(Seq(UsingDb(true, Put(w)), later), false, false).direct == [w] + Flat(later, false, false).direct
  {
    assert Flat(Put(w), false, false) == Effect(None, false, [w], []);
    assert Flat(UsingDb(true, Put(w)), false, false) == Effect(None, false, [w], []);
  }

  /** A write of UsingDb made before the first WithTx is outside the transaction and survives whatever fails later. */
  lemma EarlyUsingDbWriteSurvives(env: Env, s: State, w: Write, later: Block)
    requires s.tx.None? && Steady(later, env)
    ensures var (s', o) := Run(Global(Seq(UsingDb(true, Put(w)), later)), env, s, Pool(Master));
            o.Some? ==> s.committed + [w] <= s'.committed
  {
    EarlyIsDirect(w, later);
    OutermostBlock(Seq(UsingDb(true, Put(w)), later), env, s, Pool(Master));
    var rest := Flat(later, false, false).direct;
    assert s.committed + ([w] + rest) == s.committed + [w] + rest;
  }

  // ---------------------------------------------------------------------------------------------
  // What success means under failover
  // ---------------------------------------------------------------------------------------------

  /** No error is swallowed. */
  predicate Honest(p: Block) {
    match p
    case Put(_) => true
    case Raise(_) => true
    case Probe => true
    case Seq(first, second) => Honest(first) && Honest(second)
    case Ignore(_) => false
    case Global(body) => Honest(body)
    case WithTx(_, body) => Honest(body)
    case UsingDb(_, body) => Honest(body)
  }

  /** All write statements of a program, in order. */
  function AllWrites(p: Block): seq<Write> {
    match p
    case Put(w) => [w]
    case Raise(_) => []
    case Probe => []
    case Seq(first, second) => AllWrites(first) + AllWrites(second)
    case Ignore(body) => AllWrites(body)
    case Global(body) => AllWrites(body)
    case WithTx(_, body) => AllWrites(body)
    case UsingDb(_, body) => AllWrites(body)
  }

  /** Those inside accesses that call their closure at all. */
  function Reached(p: Block, env: Env): seq<Write> {
    match p
    case Put(w) => [w]
    case Raise(_) => []
    case Probe => []
    case Seq(first, second) => Reached(first, env) + Reached(second, env)
    case Ignore(body) => Reached(body, env)
    case Global(body) => Reached(body, env)
    case WithTx(alive, body) => if alive || env.replica then Reached(body, env) else []
    case UsingDb(alive, body) => if alive || env.replica then Reached(body, env) else []
  }

  /** Some write stands in an access made while the master is reported down and there is no cache. */
  predicate SkipsWrite(p: Block, env: Env) {
    match p
    case Put(_) => false
    case Raise(_) => false
    case Probe => false
    case Seq(first, second) => SkipsWrite(first, env) || SkipsWrite(second, env)
    case Ignore(body) => SkipsWrite(body, env)
    case Global(body) => SkipsWrite(body, env)
    case WithTx(alive, body) => if alive || env.replica then SkipsWrite(body, env) else AllWrites(body) != []
    case UsingDb(alive, body) => if alive || env.replica then SkipsWrite(body, env) else AllWrites(body) != []
  }

  function Pending(s: State): seq<Write> {
    if Begun(s) then s.tx.value.txCnn.value.pending else []
  }

  /** What has been stored, or is going to be with the commit of the open transaction. */
  function Written(s: State): seq<Write> {
    s.committed + Pending(s)
  }

  /** Some access of the run lost its connection after its closure had written and called it again on the cache. */
  ghost predicate Repeats(p: Block, env: Env, s: State, c: Connection)
    requires Usable(s, c)
    decreases p, 0
  {
    match p
    case Put(_) => false
    case Raise(_) => false
    case Probe => false
    case Seq(first, second) =>
      var (s1, o1) := Run(first, env, s, c);
      Repeats(first, env, s, c) || (o1.None? && Repeats(second, env, s1, c))
    case Ignore(body) => Repeats(body, env, s, c)
    case Global(body) => Repeats(body, env, Enter(s), c)
    case WithTx(alive, body) => AccessRepeats(body, true, alive, env, if s.tx.Some? then s else Enter(s))
    case UsingDb(alive, body) => AccessRepeats(body, false, alive, env, s)
  }

  ghost predicate AccessRepeats(body: Block, inTx: bool, alive: bool, env: Env, s: State)
    requires (s.tx.Some? ==> s.tx.value.nesting > 0) && (inTx ==> s.tx.Some?)
    decreases body, 2
  {
    var c := MasterConnection(s);
    var first := if alive then Attempt(body, inTx, env, s, c) else (s, None);
    if (!alive || first.1 == Some(ConnectionLost)) && env.replica then
      Written(first.0) != Written(s) || AttemptRepeats(body, inTx, env, first.0, Pool(Cache))
    else alive && AttemptRepeats(body, inTx, env, s, c)
  }

  ghost predicate AttemptRepeats(body: Block, inTx: bool, env: Env, s: State, c: Connection)
    requires Usable(s, c) && (inTx ==> s.tx.Some?)
    decreases body, 1
  {
    if inTx then Repeats(body, env, BeginOn(s, c), TxConnection) else Repeats(body, env, s, c)
  }

  /** What was gained over `before` is exactly the writes `due`, or those and more. */
  ghost predicate Gains(before: State, after: State, due: seq<Write>, more: bool) {
    && Written(before) <= Written(after)
    && var gained := Written(after)[|Written(before)|..];
       if more then |due| < |gained| && multiset(due) <= multiset(gained) else gained == due
  }

  lemma GainsTwice(s: State, s1: State, s2: State, a: seq<Write>, b: seq<Write>, m: bool, n: bool)
    requires Gains(s, s1, a, m) && Gains(s1, s2, b, n)
    ensures Gains(s, s2, a + b, m || n)
  {
    var x, y, z := Written(s), Written(s1), Written(s2);
    var g, h := y[|x|..], z[|y|..];
    assert y == x + g && z == y + h;
    assert z[|x|..] == g + h;
    assert multiset(a + b) == multiset(a) + multiset(b) && multiset(g + h) == multiset(g) + multiset(h);
  }

  /** An attempt that wrote in vain, and the one that succeeded. */
  lemma GainsAgain(s: State, s1: State, s2: State, due: seq<Write>, more: bool)
    requires Written(s) <= Written(s1) && Gains(s1, s2, due, more)
    ensures Gains(s, s2, due, more || Written(s1) != Written(s))
  {
    var x, y, z := Written(s), Written(s1), Written(s2);
    var g, h := y[|x|..], z[|y|..];
    assert y == x + g && z == y + h;
    assert z[|x|..] == g + h;
    assert multiset(g + h) == multiset(g) + multiset(h);
    if y == x {
      assert g == [] && g + h == h;
    }
  }

  /** Writing only adds: an enclosed program takes nothing back, whether it succeeds or not. */
  lemma {:induction false} WritingOnlyAdds(p: Block, env: Env, s: State, c: Connection, k: bool)
    requires Usable(s, c) && Enclosed(p, k) && (k ==> Begun(s) && c != Pool(Master))
    ensures Written(s) <= Written(Run(p, env, s, c).0)
    decreases p, 0
  {
    if s.tx.Some? {
      NothingVisibleBeforeCommit(p, env, s, c, k);
      PendingOnlyGrows(s, Run(p, env, s, c).0);
    } else {
      match p
      case Put(_) =>
      case Raise(_) =>
      case Probe =>
      case Seq(first, second) =>
        WritingOnlyAdds(first, env, s, c, k);
        var (s1, o1) := Run(first, env, s, c);
        if o1.None? {
          WritingOnlyAdds(second, env, s1, c, k);
        }
      case Ignore(body) => WritingOnlyAdds(body, env, s, c, k);
      case Global(body) => NothingVisibleBeforeCommit(body, env, Enter(s), c, false);
      case WithTx(alive, body) => AccessInvisible(body, true, alive, env, Enter(s), true);
      case UsingDb(alive, body) =>
        var first := if alive then Attempt(body, false, env, s, Pool(Master)) else (s, None);
        if alive {
          AttemptOnlyAdds(body, false, env, s, Pool(Master), false);
        }
        AttemptOnlyAdds(body, false, env, first.0, Pool(Cache), false);
        assert Run(p, env, s, c).0 in {first.0, Attempt(body, false, env, first.0, Pool(Cache)).0};
    }
  }

  lemma PendingOnlyGrows(s: State, s': State)
    requires s.tx.Some? && Continues(s, s') && s'.committed == s.committed
    ensures Written(s) <= Written(s')
  {}

  /** An attempt inside an access, seen as a run of its closure. */
  lemma AttemptGains(body: Block, inTx: bool, env: Env, s: State, c: Connection, k: bool)
    requires Usable(s, c) && (inTx ==> s.tx.Some?) && Enclosed(body, k) && Honest(body)
    requires k ==> inTx || (Begun(s) && c != Pool(Master))
    requires Attempt(body, inTx, env, s, c).1.None?
    ensures Gains(s, Attempt(body, inTx, env, s, c).0, Reached(body, env), AttemptRepeats(body, inTx, env, s, c))
    decreases body, 1
  {
    if inTx {
      SuccessGains(body, env, BeginOn(s, c), TxConnection, k);
    } else {
      SuccessGains(body, env, s, c, k);
    }
  }

  lemma AttemptOnlyAdds(body: Block, inTx: bool, env: Env, s: State, c: Connection, k: bool)
    requires Usable(s, c) && (inTx ==> s.tx.Some?) && Enclosed(body, k)
    requires k ==> inTx || (Begun(s) && c != Pool(Master))
    ensures Written(s) <= Written(Attempt(body, inTx, env, s, c).0)
    decreases body, 1
  {
    if inTx {
      WritingOnlyAdds(body, env, BeginOn(s, c), TxConnection, k);
    } else {
      WritingOnlyAdds(body, env, s, c, k);
    }
  }

  /** The second attempt of an access whose first left the state `first`. */
  lemma RetryGains(body: Block, inTx: bool, env: Env, s: State, first: State, k: bool)
    requires Usable(first, Pool(Cache)) && (inTx ==> first.tx.Some?) && Enclosed(body, k) && Honest(body)
    requires (k ==> inTx || Begun(first)) && Written(s) <= Written(first)
    requires Attempt(body, inTx, env, first, Pool(Cache)).1.None?
    ensures Gains(s, Attempt(body, inTx, env, first, Pool(Cache)).0, Reached(body, env),
                  AttemptRepeats(body, inTx, env, first, Pool(Cache)) || Written(first) != Written(s))
    decreases body, 2
  {
    AttemptGains(body, inTx, env, first, Pool(Cache), k);
    GainsAgain(s, first, Attempt(body, inTx, env, first, Pool(Cache)).0, Reached(body, env),
               AttemptRepeats(body, inTx, env, first, Pool(Cache)));
  }

  /** An access that calls its closure once, or not at all. */
  lemma SingleGains(body: Block, inTx: bool, alive: bool, env: Env, s: State, k: bool)
    requires (s.tx.Some? ==> s.tx.value.nesting > 0) && (inTx ==> s.tx.Some?)
    requires Enclosed(body, k) && Honest(body) && (k ==> inTx || Begun(s))
    requires !env.replica || (alive && Attempt(body, inTx, env, s, MasterConnection(s)).1 != Some(ConnectionLost))
    requires Access(body, inTx, alive, env, s).1.None?
    ensures Gains(s, Access(body, inTx, alive, env, s).0, if alive || env.replica then Reached(body, env) else [],
                  AccessRepeats(body, inTx, alive, env, s))
    decreases body, 2
  {
    if alive {
      AttemptGains(body, inTx, env, s, MasterConnection(s), k);
    }
  }

  lemma FirstAttemptAdds(body: Block, inTx: bool, alive: bool, env: Env, s: State, k: bool) returns (first: State)
    requires (s.tx.Some? ==> s.tx.value.nesting > 0) && (inTx ==> s.tx.Some?)
    requires Enclosed(body, k) && (k ==> inTx || Begun(s))
    ensures first == if alive then Attempt(body, inTx, env, s, MasterConnection(s)).0 else s
    ensures Usable(first, Pool(Cache)) && (inTx ==> first.tx.Some?) && (k ==> inTx || Begun(first))
    ensures Written(s) <= Written(first)
  {
    first := s;
    if alive {
      AttemptOnlyAdds(body, inTx, env, s, MasterConnection(s), k);
      first := Attempt(body, inTx, env, s, MasterConnection(s)).0;
    }
  }

  lemma AccessGains(body: Block, inTx: bool, alive: bool, env: Env, s: State, k: bool)
    requires (s.tx.Some? ==> s.tx.value.nesting > 0) && (inTx ==> s.tx.Some?)
    requires Enclosed(body, k) && Honest(body) && (k ==> inTx || Begun(s))
    requires Access(body, inTx, alive, env, s).1.None?
    ensures Gains(s, Access(body, inTx, alive, env, s).0, if alive || env.replica then Reached(body, env) else [],
                  AccessRepeats(body, inTx, alive, env, s))
    decreases body, 3
  {
    if env.replica && (!alive || Attempt(body, inTx, env, s, MasterConnection(s)).1 == Some(ConnectionLost)) {
      var first := FirstAttemptAdds(body, inTx, alive, env, s, k);
      RetryGains(body, inTx, env, s, first, k);
    } else {
      SingleGains(body, inTx, alive, env, s, k);
    }
  }

  /**
   A program that returns nil, in an open context or outside any, has stored exactly the writes of the
   accesses that were made, or more if an access wrote, lost its connection and was repeated.
   */
  lemma {:induction false} SuccessGains(p: Block, env: Env, s: State, c: Connection, k: bool)
    requires Usable(s, c) && Enclosed(p, k) && Honest(p) && (k ==> Begun(s) && c != Pool(Master))
    requires Run(p, env, s, c).1.None?
    ensures Gains(s, Run(p, env, s, c).0, Reached(p, env), Repeats(p, env, s, c))
    decreases p, 0
  {
    match p
    case Put(w) => PutGains(s, w, c);
    case Raise(_) =>
    case Probe =>
    case Seq(first, second) =>
      SuccessGains(first, env, s, c, k);
      var s1 := Run(first, env, s, c).0;
      SuccessGains(second, env, s1, c, k);
      GainsTwice(s, s1, Run(second, env, s1, c).0, Reached(first, env), Reached(second, env),
                 Repeats(first, env, s, c), Repeats(second, env, s1, c));
    case Ignore(_) =>
    case Global(body) =>
      SuccessGains(body, env, Enter(s), c, k);
      LeaveKeeps(Run(body, env, Enter(s), c).0, env);
    case WithTx(alive, body) =>
      var s1 := if s.tx.Some? then s else Enter(s);
      AccessGains(body, true, alive, env, s1, true);
      if s.tx.None? {
        LeaveKeeps(Access(body, true, alive, env, s1).0, env);
      }
    case UsingDb(alive, body) => AccessGains(body, false, alive, env, s, k);
  }

  /** The end of a block that succeeds keeps all that was written. */
  lemma LeaveKeeps(s: State, env: Env)
    requires s.tx.Some? && s.tx.value.nesting > 0
    ensures Leave(s, None, env).1.None? ==> Written(Leave(s, None, env).0) == Written(s)
  {
    assert forall t: State :: t.tx.None? ==> Written(t) == t.committed;
  }

  lemma PutGains(s: State, w: Write, c: Connection)
    requires Usable(s, c) && c == TxConnection && s.tx.value.txCnn.value.node.Master?
    ensures Gains(s, PutOn(s, w, c).0, [w], false)
  {
    assert s.committed + (Pending(s) + [w]) == Written(s) + [w];
  }

  lemma {:induction false} ReachedIffNoSkip(p: Block, env: Env)
    ensures |Reached(p, env)| <= |AllWrites(p)|
    ensures Reached(p, env) == AllWrites(p) <==> !SkipsWrite(p, env)
    ensures |Reached(p, env)| == |AllWrites(p)| ==> Reached(p, env) == AllWrites(p)
    ensures env.replica ==> !SkipsWrite(p, env)
  {
    match p
    case Put(_) =>
    case Raise(_) =>
    case Probe =>
    case Seq(first, second) =>
      ReachedIffNoSkip(first, env);
      ReachedIffNoSkip(second, env);
    case Ignore(body) => ReachedIffNoSkip(body, env);
    case Global(body) => ReachedIffNoSkip(body, env);
    case WithTx(_, body) => ReachedIffNoSkip(body, env);
    case UsingDb(_, body) => ReachedIffNoSkip(body, env);
  }

  /** Without a cache nothing is repeated. */
  lemma {:induction false} NoCacheNoRepeat(p: Block, env: Env, s: State, c: Connection)
    requires Usable(s, c) && !env.replica
    ensures !Repeats(p, env, s, c)
    decreases p
  {
    match p
    case Put(_) =>
    case Raise(_) =>
    case Probe =>
    case Seq(first, second) =>
      NoCacheNoRepeat(first, env, s, c);
      if Run(first, env, s, c).1.None? {
        NoCacheNoRepeat(second, env, Run(first, env, s, c).0, c);
      }
    case Ignore(body) => NoCacheNoRepeat(body, env, s, c);
    case Global(body) => NoCacheNoRepeat(body, env, Enter(s), c);
    case WithTx(alive, body) =>
      var s1 := if s.tx.Some? then s else Enter(s);
      NoCacheNoRepeat(body, env, BeginOn(s1, MasterConnection(s1)), TxConnection);
      assert !AttemptRepeats(body, true, env, s1, MasterConnection(s1));
      assert !AccessRepeats(body, true, alive, env, s1);
    case UsingDb(alive, body) =>
      NoCacheNoRepeat(body, env, s, MasterConnection(s));
      assert !AttemptRepeats(body, false, env, s, MasterConnection(s));
      assert !AccessRepeats(body, false, alive, env, s);
  }

  /**
   For every program whose writes are enclosed and whose errors are not swallowed, run in an open context
   or outside any: when it returns nil, each of its writes is stored, in order and once, iff none stands in
   an access made with the master reported down and no cache, and no access was repeated after writing.
   A write is missing exactly in the first case; in the second all are there and some twice.
   */
  lemma NilMeansStoredIff(p: Block, env: Env, s: State, c: Connection)
    requires Usable(s, c) && Enclosed(p, false) && Honest(p) && Run(p, env, s, c).1.None?
    ensures var s' := Run(p, env, s, c).0;
            && Written(s) <= Written(s')
            && var gained := Written(s')[|Written(s)|..];
               && (gained == AllWrites(p) <==> !SkipsWrite(p, env) && !Repeats(p, env, s, c))
               && (multiset(AllWrites(p)) <= multiset(gained) <==> !SkipsWrite(p, env))
               && (|gained| > |AllWrites(p)| <==> Repeats(p, env, s, c))
  {
    SuccessGains(p, env, s, c, false);
    ReachedIffNoSkip(p, env);
    if !env.replica {
      NoCacheNoRepeat(p, env, s, c);
      var gained := Written(Run(p, env, s, c).0)[|Written(s)|..];
      assert |multiset(AllWrites(p))| == |AllWrites(p)| && |multiset(gained)| == |gained|;
      if multiset(AllWrites(p)) <= multiset(gained) {
        SmallerMultiset(multiset(AllWrites(p)), multiset(gained));
      }
    }
  }

  /** Among the writes gained is none that the program does not contain, swallowed errors or not. */
  predicate Within(before: State, after: State, writes: seq<Write>) {
    && Written(before) <= Written(after)
    && forall i :: |Written(before)| <= i < |Written(after)| ==> Written(after)[i] in writes
  }

  lemma WithinTwice(s: State, s1: State, s2: State, a: seq<Write>, b: seq<Write>)
    requires Within(s, s1, a) && Within(s1, s2, b)
    ensures Within(s, s2, a + b)
  {}

  lemma AttemptWithin(body: Block, inTx: bool, env: Env, s: State, c: Connection, k: bool)
    requires Usable(s, c) && (inTx ==> s.tx.Some?) && Enclosed(body, k)
    requires k ==> inTx || (Begun(s) && c != Pool(Master))
    ensures Within(s, Attempt(body, inTx, env, s, c).0, AllWrites(body))
    decreases body, 1
  {
    if inTx {
      NothingElseIsStored(body, env, BeginOn(s, c), TxConnection, k);
    } else {
      NothingElseIsStored(body, env, s, c, k);
    }
  }

  lemma AccessWithin(body: Block, inTx: bool, alive: bool, env: Env, s: State, k: bool)
    requires (s.tx.Some? ==> s.tx.value.nesting > 0) && (inTx ==> s.tx.Some?)
    requires Enclosed(body, k) && (k ==> inTx || Begun(s))
    ensures Within(s, Access(body, inTx, alive, env, s).0, AllWrites(body))
    decreases body, 2
  {
    var first := s;
    if alive {
      AttemptWithin(body, inTx, env, s, MasterConnection(s), k);
      first := Attempt(body, inTx, env, s, MasterConnection(s)).0;
    }
    AttemptWithin(body, inTx, env, first, Pool(Cache), k);
    WithinTwice(s, first, Attempt(body, inTx, env, first, Pool(Cache)).0, AllWrites(body), AllWrites(body));
  }

  /** Leaving a block publishes what was written in it, takes it back, or changes nothing. */
  lemma LeaveWithin(s: State, inner: State, err: Outcome, env: Env, writes: seq<Write>)
    requires inner.tx.Some? && inner.tx.value.nesting > 0 && Within(Enter(s), inner, writes)
    requires inner.tx.value.nesting == Enter(s).tx.value.nesting && inner.committed == s.committed
    requires s.tx.Some? ==> s.tx.value.nesting > 0
    ensures Within(s, Leave(inner, err, env).0, writes)
  {
    var after := Leave(inner, err, env).0;
    assert Written(Enter(s)) == Written(s);
    if s.tx.None? {
      assert Written(s) == s.committed && Written(after) == after.committed;
      assert after.committed == s.committed || Written(after) == Written(inner);
    } else {
      assert Written(after) == Written(inner);
    }
  }

  /**
   For every enclosed program, in an open context or outside any, whatever fails or is swallowed: what is
   stored by it are writes it contains.
   */
  lemma {:induction false} NothingElseIsStored(p: Block, env: Env, s: State, c: Connection, k: bool)
    requires Usable(s, c) && Enclosed(p, k) && (k ==> Begun(s) && c != Pool(Master))
    ensures Within(s, Run(p, env, s, c).0, AllWrites(p))
    decreases p, 0
  {
    match p
    case Put(w) =>
    case Raise(_) =>
    case Probe =>
    case Seq(first, second) =>
      NothingElseIsStored(first, env, s, c, k);
      var (s1, o1) := Run(first, env, s, c);
      if o1.None? {
        NothingElseIsStored(second, env, s1, c, k);
        WithinTwice(s, s1, Run(second, env, s1, c).0, AllWrites(first), AllWrites(second));
      }
    case Ignore(body) => NothingElseIsStored(body, env, s, c, k);
    case Global(body) =>
      NothingElseIsStored(body, env, Enter(s), c, k);
      NothingVisibleBeforeCommit(body, env, Enter(s), c, k);
      var (s1, o1) := Run(body, env, Enter(s), c);
      LeaveWithin(s, s1, o1, env, AllWrites(body));
    case WithTx(alive, body) =>
      if s.tx.Some? {
        AccessWithin(body, true, alive, env, s, true);
      } else {
        AccessWithin(body, true, alive, env, Enter(s), true);
        AccessInvisible(body, true, alive, env, Enter(s), true);
        var (s1, o1) := Access(body, true, alive, env, Enter(s));
        LeaveWithin(s, s1, o1, env, AllWrites(body));
      }
    case UsingDb(alive, body) => AccessWithin(body, false, alive, env, s, k);
  }

  lemma SmallerMultiset(a: multiset<Write>, b: multiset<Write>)
    requires a <= b
    ensures |a| <= |b|
  {
    assert b == a + (b - a);
  }

  /**
   A single write through WithTx, in an open context or outside any, reports success without being stored
   in exactly one situation: the master is reported down and there is no cache, so that UsingDb never calls
   the closure.
   */
  lemma LostWriteIff(alive: bool, w: Write, env: Env, s: State, c: Connection)
    requires Usable(s, c)
    ensures var (s', o) := Run(WithTx(alive, Put(w)), env, s, c);
            && (o.None? && Written(s') != Written(s) + [w] <==> !alive && !env.replica)
            && (o.None? ==> Written(s') == Written(s) || Written(s') == Written(s) + [w])
  {
    if Run(WithTx(alive, Put(w)), env, s, c).1.None? {
      SuccessGains(WithTx(alive, Put(w)), env, s, c, false);
      SinglePutIsNotRepeated(alive, w, env, s, c);
      var due := Reached(WithTx(alive, Put(w)), env);
      GainedIs(s, Run(WithTx(alive, Put(w)), env, s, c).0, due);
      assert Reached(Put(w), env) == [w];
      assert |Written(s) + due| == |Written(s)| + |due| && Written(s) + [] == Written(s);
    }
  }

  lemma GainedIs(s: State, s': State, due: seq<Write>)
    requires Gains(s, s', due, false)
    ensures Written(s') == Written(s) + due
  {}

  lemma SinglePutIsNotRepeated(alive: bool, w: Write, env: Env, s: State, c: Connection)
    requires Usable(s, c)
    ensures !Repeats(WithTx(alive, Put(w)), env, s, c)
  {
    var s1 := if s.tx.Some? then s else Enter(s);
    var on := if alive then MasterConnection(s1) else Pool(Cache);
    assert Attempt(Put(w), true, env, s1, on) == PutOn(BeginOn(s1, on), w, TxConnection);
    assert !AttemptRepeats(Put(w), true, env, s1, on);
    assert !AccessRepeats(Put(w), true, alive, env, s1);
  }

  /** The input for a repeated access: its retry on the cache runs the inner WithTx again on the master's session. */
  lemma RetryStoresTwice(env: Env, s: State, w: Write)
    requires s.tx.None? && env.replica && env.commit.None?
    ensures var body := UsingDb(true, Seq(WithTx(true, Put(w)), Probe));
            Run(Global(body), env, s, Pool(Master))
            == (s.(committed := s.committed + [w, w], log := s.log + [Begin(Master), Commit]), None)
  {
    var inner := Seq(WithTx(true, Put(w)), Probe);
    var s1 := Enter(s);
    var begun := BeginOn(s1, Pool(Master));
    var once := PutOn(begun, w, TxConnection).0;
    var twice := PutOn(once, w, TxConnection).0;
    assert Run(Put(w), env, begun, TxConnection) == (once, None);
    assert Attempt(Put(w), true, env, s1, Pool(Master)) == (once, None);
    assert Access(Put(w), true, true, env, s1) == (once, None);
    assert Run(WithTx(true, Put(w)), env, s1, Pool(Master)) == (once, None);
    assert Run(inner, env, s1, Pool(Master)) == (once, Some(ConnectionLost));
    assert Run(Put(w), env, once, TxConnection) == (twice, None);
    assert Attempt(Put(w), true, env, once, TxConnection) == (twice, None);
    assert Access(Put(w), true, true, env, once) == (twice, None);
    assert Run(WithTx(true, Put(w)), env, once, Pool(Cache)) == (twice, None);
    assert Run(inner, env, once, Pool(Cache)) == (twice, None);
    assert Attempt(inner, false, env, s1, Pool(Master)) == (once, Some(ConnectionLost));
    assert Attempt(inner, false, env, once, Pool(Cache)) == (twice, None);
    assert Access(inner, false, true, env, s1) == (twice, None);
    assert [] + [w] + [w] == [w, w];
    assert s.log + [Begin(Master)] + [Commit] == s.log + [Begin(Master), Commit];
  }

  // ---------------------------------------------------------------------------------------------
  // Which error a caller sees
  // ---------------------------------------------------------------------------------------------

  /** errors.Is: the error is the target or a failed rollback was named after it. */
  predicate Is(e: Error, target: Error) {
    e == target || (e.RollingBack? && Is(e.original, target))
  }

  lemma {:induction false} RootIs(e: Error, target: Error)
    requires !target.RollingBack?
    ensures Is(e, target) <==> Root(e) == target
  {
    if e.RollingBack? {
      RootIs(e.original, target);
    }
  }

  /**
   What a caller of UsingDb gets while the master is down: the replica's answer, a refused write as the
   master's unavailability for updates, a missing row as missing in the cache, and any other error as
   unavailability.
   */
  lemma ReplicaAnswers(body: Block, env: Env, s: State, c: Connection)
    requires env.replica && Usable(s, c)
    ensures var (after, o) := Run(UsingDb(false, body), env, s, c);
            var (s1, answer) := Run(body, env, s, Pool(Cache));
            && after == s1
            && (o.None? <==> answer.None?)
            && (answer.Some? ==>
                  && (o == Some(UnavailableForUpdate) <==> Is(answer.value, ReadOnly))
                  && (o == Some(NotFoundInCache) <==> Is(answer.value, NotFound) || Is(answer.value, NotFoundInCache))
                  && o.value in {UnavailableForUpdate, NotFoundInCache, Unavailable})
  {
    var second := Run(body, env, s, Pool(Cache));
    var answer := second.1;
    assert Attempt(body, false, env, s, Pool(Cache)) == second;
    assert Access(body, false, false, env, s) == (second.0, CacheOutcome(answer));
    if answer.Some? {
      RootIs(answer.value, ReadOnly);
      RootIs(answer.value, NotFound);
      RootIs(answer.value, NotFoundInCache);
    }
  }

  /** Outside a context a write is refused for the time being, and changes nothing. */
  lemma WriteWhileDown(w: Write, env: Env, s: State, c: Connection)
    requires env.replica && s.tx.None? && Usable(s, c)
    ensures Run(UsingDb(false, Put(w)), env, s, c) == (s, Some(UnavailableForUpdate))
    ensures Run(UsingDb(false, Raise(NotFound)), env, s, c) == (s, Some(NotFoundInCache))
    ensures Run(UsingDb(false, Raise(Application)), env, s, c) == (s, Some(Unavailable))
  {
    ReplicaAnswers(Put(w), env, s, c);
    ReplicaAnswers(Raise(NotFound), env, s, c);
    ReplicaAnswers(Raise(Application), env, s, c);
    assert Run(Put(w), env, s, Pool(Cache)) == (s, Some(ReadOnly));
    assert Run(Raise(NotFound), env, s, Pool(Cache)) == (s, Some(NotFound));
    assert Run(Raise(Application), env, s, Pool(Cache)) == (s, Some(Application));
  }

  /** While the master answers, its error reaches the caller as it is, a lost connection only without a replica. */
  lemma MasterAnswers(body: Block, env: Env, s: State, c: Connection)
    requires s.tx.None? && Usable(s, c)
    ensures var r := Run(body, env, s, Pool(Master));
            r.1 != Some(ConnectionLost) || !env.replica ==> Run(UsingDb(true, body), env, s, c) == r
  {
    assert Attempt(body, false, env, s, Pool(Master)) == Run(body, env, s, Pool(Master));
  }

  /**
   An outermost block whose body fails after its transaction began reports that error, wrapped if the
   rollback failed too; either way nothing of the transaction is stored.
   */
  lemma FailedBlockReports(body: Block, env: Env, s: State, c: Connection)
    requires s.tx.None? && Usable(s, c)
    ensures var (inner, o) := Run(body, env, s.(tx := Some(Tx(1, None))), c);
            o.Some? && inner.tx.value.txCnn.Some? ==>
              Run(Global(body), env, s, c)
              == (State(inner.committed, None, inner.log + [Rollback]),
                  Some(if env.rollbackOk then o.value else RollingBack(o.value)))
  {}

  // ---------------------------------------------------------------------------------------------
  // The objects that do it
  // ---------------------------------------------------------------------------------------------

  class TransactionContext {
    var nesting: nat
    var txCnn: Option<Session>

    constructor ()
      ensures nesting == 1 && txCnn == None
    {
      nesting, txCnn := 1, None;
    }
  }

  class BaseDao {
    var committed: seq<Write>
    var log: seq<Event>
    const env: Env

    constructor (env: Env)
      ensures committed == [] && log == [] && this.env == env
    {
      committed, log, this.env := [], [], env;
    }

    function View(ctx: TransactionContext?): State
      reads this, ctx
    {
      State(committed, if ctx == null then None else Some(Tx(ctx.nesting, ctx.txCnn)), log)
    }

    method Begin(ctx: TransactionContext, c: Connection)
      requires c == TxConnection ==> ctx.txCnn.Some?
      modifies this, ctx
      ensures View(ctx) == BeginOn(old(View(ctx)), c)
    {
      if ctx.txCnn.None? {
        ctx.txCnn := Some(Session(c.node, []));
        log := log + [Event.Begin(c.node)];
      }
    }

    method CommitTx(ctx: TransactionContext) returns (err: Outcome)
      modifies this, ctx
      ensures ctx.txCnn == None && ctx.nesting == old(ctx.nesting)
      ensures old(ctx.txCnn).None? ==> err == None && committed == old(committed) && log == old(log)
      ensures old(ctx.txCnn).Some? ==>
                && log == old(log) + [Commit]
                && err == env.commit
                && committed == (if env.commit.None? then old(committed) + old(ctx.txCnn).value.pending
                                 else old(committed))
    {
      if ctx.txCnn.None? { return None; }
      err := env.commit;
      if err.None? {
        committed := committed + ctx.txCnn.value.pending;
      }
      log := log + [Commit];
      ctx.txCnn := None;
    }

    method RollbackTx(ctx: TransactionContext) returns (err: Outcome)
      modifies this, ctx
      ensures err == if old(ctx.txCnn).None? || env.rollbackOk then None else Some(RollbackFailed)
      ensures ctx.txCnn == None && ctx.nesting == old(ctx.nesting) && committed == old(committed)
      ensures log == if old(ctx.txCnn).None? then old(log) else old(log) + [Rollback]
    {
      if ctx.txCnn.None? { return None; }
      log := log + [Rollback];
      ctx.txCnn := None;
      err := if env.rollbackOk then None else Some(RollbackFailed);
    }

    /** WithTransactionContextValue: opens a context, or nests in the one already open. */
    method WithTransactionContext(ctx: TransactionContext?, body: Block, c: Connection) returns (err: Outcome)
      requires Usable(View(ctx), c)
      modifies this, if ctx == null then {} else {ctx}
      ensures (View(ctx), err) == Run(Global(body), env, old(View(ctx)), c)
      decreases body, 3
    {
      var tx: TransactionContext;
      if ctx == null {
        tx := new TransactionContext();
      } else {
        tx := ctx;
        tx.nesting := tx.nesting + 1;
      }
      err := Execute(tx, body, c);
      err := Finish(ctx, tx, err);
    }

    /** What follows the call of the body in WithTransactionContextValue. */
    method Finish(ctx: TransactionContext?, tx: TransactionContext, bodyErr: Outcome) returns (err: Outcome)
      requires tx.nesting > 0
      requires if ctx == null then tx.nesting == 1 else tx == ctx && tx.nesting > 1
      modifies this, tx
      ensures (View(ctx), err) == Leave(old(View(tx)), bodyErr, env)
    {
      if tx.nesting > 1 {
        tx.nesting := tx.nesting - 1;
        return bodyErr;
      }
      if bodyErr.None? {
        err := CommitTx(tx);
      } else {
        var failure := RollbackTx(tx);
        err := if failure.Some? then Some(RollingBack(bodyErr.value)) else bodyErr;
      }
    }

    method UsingDb(ctx: TransactionContext?, body: Block, inTx: bool, alive: bool) returns (err: Outcome)
      requires (ctx != null ==> ctx.nesting > 0) && (inTx ==> ctx != null)
      modifies this, if ctx == null then {} else {ctx}
      ensures (View(ctx), err) == Access(body, inTx, alive, env, old(View(ctx)))
      decreases body, 2
    {
      var executedOnMaster := false;
      err := None;
      if alive {
        var c := Pool(Master);
        if ctx != null && ctx.txCnn.Some? {
          c := TxConnection;
        }
        executedOnMaster := true;
        err := Call(ctx, body, inTx, c);
      }
      if (!executedOnMaster || err == Some(ConnectionLost)) && env.replica {
        err := Call(ctx, body, inTx, Pool(Cache));
        err := CacheOutcome(err);
      }
    }

    /** One call of the closure: the one of WithTx begins the transaction first. */
    method Call(ctx: TransactionContext?, body: Block, inTx: bool, c: Connection) returns (err: Outcome)
      requires Usable(View(ctx), c) && (inTx ==> ctx != null)
      modifies this, if ctx == null then {} else {ctx}
      ensures (View(ctx), err) == Attempt(body, inTx, env, old(View(ctx)), c)
      decreases body, 1
    {
      if inTx {
        Begin(ctx, c);
        err := Execute(ctx, body, TxConnection);
      } else {
        err := Execute(ctx, body, c);
      }
    }

    method WithTx(ctx: TransactionContext?, body: Block, alive: bool) returns (err: Outcome)
      requires ctx != null ==> ctx.nesting > 0
      modifies this, if ctx == null then {} else {ctx}
      ensures forall c :: Usable(old(View(ctx)), c) ==>
                (View(ctx), err) == Run(Block.WithTx(alive, body), env, old(View(ctx)), c)
      decreases body, 3
    {
      if ctx == null {
        var tx := new TransactionContext();
        err := UsingDb(tx, body, true, alive);
        err := Finish(null, tx, err);
      } else {
        err := UsingDb(ctx, body, true, alive);
      }
    }

    /** Runs a body in context `ctx` with connection `c` in hand. */
    method Execute(ctx: TransactionContext?, p: Block, c: Connection) returns (err: Outcome)
      requires Usable(View(ctx), c)
      modifies this, if ctx == null then {} else {ctx}
      ensures (View(ctx), err) == Run(p, env, old(View(ctx)), c)
      decreases p, 0
    {
      match p
      case Put(w) =>
        var (s, o) := PutOn(View(ctx), w, c);
        committed, err := s.committed, o;
        if ctx != null {
          ctx.txCnn := s.tx.value.txCnn;
        }
      case Raise(e) => err := Some(e);
      case Probe => err := if ConnectionNode(View(ctx), c).Master? then Some(ConnectionLost) else None;
      case Seq(first, second) =>
        err := Execute(ctx, first, c);
        if err.None? {
          err := Execute(ctx, second, c);
        }
      case Ignore(body) =>
        var _ := Execute(ctx, body, c);
        err := None;
      case Global(body) => err := WithTransactionContext(ctx, body, c);
      case WithTx(alive, body) => err := WithTx(ctx, body, alive);
      case UsingDb(alive, body) => err := UsingDb(ctx, body, false, alive);
    }
  }
}
