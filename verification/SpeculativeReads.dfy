/**
 What a speculation truly reads, against what its cached result records: apps/mirage-rs/src/replay.rs.
 Results of EVM runs record no reads, and the storage baseline of a context outlives an invalidation for writes.
 */
module SpeculativeReads {
  import opened Prelude
  import opened ForkTypes
  import opened SpeculativeKey
  import opened Speculative
  import Dirty
  import Cow
  import Scenarios

  // ---- True reads ----

  /** The slots and account data an execution looks at, and whether it looks at the block environment. */
  datatype Touched = Touched(slots: set<Cell>, infos: set<Address>, env: bool)

  type Looks = (View, Call) -> Touched

  function SlotOf(v: View, cell: Cell): Option<Word> {
    if cell.0 in v.layer.accounts then Lookup(v.layer.accounts[cell.0].storage, cell.1) else None
  }

  function InfoOf(v: View, a: Address): Option<DirtyAccount> {
    if a in v.layer.accounts then Some(v.layer.accounts[a].(storage := map[])) else None
  }

  function FrameOf(v: View): View { v.(layer := Dirty.EMPTY_LAYER) }

  ghost predicate SeesSame(t: Touched, v: View, w: View) {
    && (t.env ==> FrameOf(v) == FrameOf(w))
    && (forall cell :: cell in t.slots ==> SlotOf(v, cell) == SlotOf(w, cell))
    && (forall a :: a in t.infos ==> InfoOf(v, a) == InfoOf(w, a))
  }

  /** Execution depends on what it reads and on nothing else. */
  ghost predicate Depends(engine: Engine, looks: Looks) {
    forall v, w, c :: SeesSame(looks(v, c), v, w) ==> engine.run(v, c) == engine.run(w, c)
  }

  /** And its result shows all of it. */
  ghost predicate Exposes(engine: Engine, looks: Looks) {
    forall v, w, c :: SeesSame(looks(v, c), v, w) <==> engine.run(v, c) == engine.run(w, c)
  }

  // ---- Where each cached result comes from ----

  /** `seen` is the view each cached result was computed on. */
  datatype Traced = Traced(exec: Exec, seen: map<(Hash, nat), View>)

  function TracedStep(engine: Engine, t: Traced, op: Op): Traced {
    var e := Step(engine, t.exec, op);
    Traced(e, map k | k in e.cache ::
      if op.Speculate? && k !in Prepare(t.exec, ContextOf(op.view)).cache then
        SpecView(op.view, CellsFor(Prepare(t.exec, ContextOf(op.view)), op.view))
      else if k in t.seen then t.seen[k] else Scenarios.View(Dirty.EMPTY_LAYER, false, 0, NO_ENV))
  }

  const NO_ENV := Scenarios.Env(0, 0, 0, 0, 0, {}, false, false, false)

  function TracedAfter(engine: Engine, ops: seq<Op>): Traced {
    if ops == [] then Traced(EMPTY, map[])
    else TracedStep(engine, TracedAfter(engine, ops[..|ops| - 1]), ops[|ops| - 1])
  }

  /** Operation `i` asked for the cached result `k`, and the view on record is the one it was computed on. */
  ghost predicate Computed(engine: Engine, ops: seq<Op>, t: Traced, k: (Hash, nat), i: nat) {
    && k in t.seen && k in t.exec.cache && i < |ops| && Sends(ops[i]) && k.0 == Key(engine, ops[i].request)
    && engine.run(t.seen[k], CallOf(ops[i].request)) == Ok(t.exec.cache[k].diff)
    && t.exec.cache[k].readSet == ReadSetOf(t.exec.cache[k].diff)
  }

  ghost predicate Recorded(engine: Engine, ops: seq<Op>, t: Traced) {
    t.seen.Keys == t.exec.cache.Keys
    && forall k :: k in t.exec.cache ==> exists i: nat :: Computed(engine, ops, t, k, i)
  }

  lemma ComputedEarlier(engine: Engine, ops: seq<Op>, op: Op, t: Traced, k: (Hash, nat), i: nat)
    requires Computed(engine, ops, t, k, i)
    requires var u := TracedStep(engine, t, op);
             k in u.exec.cache && k in u.seen && u.exec.cache[k] == t.exec.cache[k] && u.seen[k] == t.seen[k]
    ensures Computed(engine, ops + [op], TracedStep(engine, t, op), k, i)
  {
    assert (ops + [op])[i] == ops[i];
    hide TracedStep;
  }

  /** A result the step did not compute was there before. */
  lemma OldResult(engine: Engine, t: Traced, op: Op, k: (Hash, nat))
    requires t.seen.Keys == t.exec.cache.Keys && k in Step(engine, t.exec, op).cache
    requires op.Speculate? ==> k in Prepare(t.exec, ContextOf(op.view)).cache
    ensures var u := TracedStep(engine, t, op);
            k in t.exec.cache && u.exec.cache[k] == t.exec.cache[k] && u.seen[k] == t.seen[k]
  {
    hide SpecView, CellsFor, Key, CallOf, ReadSetOf;
  }

  lemma NewResult(engine: Engine, ops: seq<Op>, t: Traced, op: Op, k: (Hash, nat))
    requires k in Step(engine, t.exec, op).cache && op.Speculate? && k !in Prepare(t.exec, ContextOf(op.view)).cache
    ensures Computed(engine, ops + [op], TracedStep(engine, t, op), k, |ops|)
  {
    hide SpecView, CellsFor, Key, CallOf, ReadSetOf, Execute, Prepare;
    assert (ops + [op])[|ops|] == op;
    NewView(engine, t, op, k);
    hide TracedStep;
    StepCaches(engine, t, op);
    NewlyCached(engine, t.exec, op.view, op.request, k);
  }

  lemma NewView(engine: Engine, t: Traced, op: Op, k: (Hash, nat))
    requires k in Step(engine, t.exec, op).cache && op.Speculate? && k !in Prepare(t.exec, ContextOf(op.view)).cache
    ensures var u := TracedStep(engine, t, op);
            k in u.seen && u.seen[k] == SpecView(op.view, CellsFor(Prepare(t.exec, ContextOf(op.view)), op.view))
  {
    hide SpecView, CellsFor, Execute, Prepare;
  }

  lemma StepCaches(engine: Engine, t: Traced, op: Op)
    ensures TracedStep(engine, t, op).exec == Step(engine, t.exec, op)
  {
    hide SpecView, CellsFor, Execute, Prepare;
  }

  lemma NewlyCached(engine: Engine, e: Exec, v: View, r: Request, k: (Hash, nat))
    requires var p := Prepare(e, ContextOf(v)); k in Execute(engine, e, v, r).0.cache && k !in p.cache
    ensures r.from.Some? && k.0 == Key(engine, r)
    ensures var p, s := Prepare(e, ContextOf(v)), Execute(engine, e, v, r).0.cache[k];
            engine.run(SpecView(v, CellsFor(p, v)), CallOf(r)) == Ok(s.diff) && s.readSet == ReadSetOf(s.diff)
  {
    hide SpecView, CellsFor, Key, CallOf, ReadSetOf, Prepare;
  }

  lemma {:induction false} RunsAreRecorded(engine: Engine, ops: seq<Op>)
    ensures Recorded(engine, ops, TracedAfter(engine, ops)) && TracedAfter(engine, ops).exec == After(engine, ops)
  {
    if ops != [] {
      var front, op := ops[..|ops| - 1], ops[|ops| - 1];
      assert ops == front + [op];
      RunsAreRecorded(engine, front);
      var t := TracedAfter(engine, front);
      var u := TracedStep(engine, t, op);
      forall k | k in u.exec.cache ensures exists i: nat :: Computed(engine, ops, u, k, i) {
        if op.Speculate? && k !in Prepare(t.exec, ContextOf(op.view)).cache {
          NewResult(engine, front, t, op, k);
        } else {
          OldResult(engine, t, op, k);
          var i: nat :| Computed(engine, front, t, k, i);
          ComputedEarlier(engine, front, op, t, k, i);
        }
      }
    }
  }

  // ---- When an execution is fresh ----

  function Reported(o: Result<StateDiff, string>): Result<Speculated, string> {
    if o.Ok? then Ok(Speculated(o.value, ReadSetOf(o.value))) else Err(o.error)
  }

  /** The view an execution of this request would be answered from: the one behind the cached result, or the
      baseline's. */
  function AnsweredFrom(engine: Engine, t: Traced, v: View, r: Request): View
    requires r.from.Some?
  {
    var p := Prepare(t.exec, ContextOf(v));
    var k := (Key(engine, r), v.localBlock);
    if k in p.cache && k in t.seen then t.seen[k] else SpecView(v, CellsFor(p, v))
  }

  lemma AnswerIsRun(engine: Engine, ops: seq<Op>, v: View, r: Request)
    requires r.from.Some? && KeysDistinct(engine, ops + [Speculate(v, r)])
    ensures Execute(engine, After(engine, ops), v, r).1
            == Reported(engine.run(AnsweredFrom(engine, TracedAfter(engine, ops), v, r), CallOf(r)))
  {
    hide SpecView, CellsFor, TracedAfter, After, Key, CallOf, ReadSetOf, KeysDistinct, Computed;
    RunsAreRecorded(engine, ops);
    var t := TracedAfter(engine, ops);
    var k := (Key(engine, r), v.localBlock);
    if k in Prepare(t.exec, ContextOf(v)).cache {
      assert k in t.exec.cache;
      CachedIsRun(engine, ops, t, v, r, k);
    }
  }

  lemma CachedIsRun(engine: Engine, ops: seq<Op>, t: Traced, v: View, r: Request, k: (Hash, nat))
    requires r.from.Some? && KeysDistinct(engine, ops + [Speculate(v, r)]) && Recorded(engine, ops, t)
    requires k in t.exec.cache && k.0 == Key(engine, r)
    ensures k in t.seen && Ok(t.exec.cache[k]) == Reported(engine.run(t.seen[k], CallOf(r)))
  {
    hide Key, CallOf, ReadSetOf;
    var i: nat :| Computed(engine, ops, t, k, i);
    var all := ops + [Speculate(v, r)];
    assert all[i] == ops[i] && all[|ops|] == Speculate(v, r) && Sends(all[i]) && Sends(all[|ops|]);
  }

  /**
   After any run, an execution returns what a new executor would exactly when the view it is answered from and
   the present state agree on everything the request truly reads.
   */
  lemma ExecuteIsFreshIff(engine: Engine, looks: Looks, ops: seq<Op>, v: View, r: Request)
    requires Exposes(engine, looks) && r.from.Some? && KeysDistinct(engine, ops + [Speculate(v, r)])
    ensures Execute(engine, After(engine, ops), v, r).1 == Fresh(engine, v, r)
            <==> SeesSame(looks(Lenient(v), CallOf(r)), Lenient(v),
              AnsweredFrom(engine, TracedAfter(engine, ops), v, r))
  {
    AnswerIsRun(engine, ops, v, r);
    FreshIsDirect(engine, v, r);
    hide Execute, After, TracedAfter, AnsweredFrom, SeesSame, Lenient, CallOf, ReadSetOf;
  }

  /** For any execution that depends only on what it reads, that agreement is enough. */
  lemma ExecuteIsFreshIfUnchanged(engine: Engine, looks: Looks, ops: seq<Op>, v: View, r: Request)
    requires Depends(engine, looks) && r.from.Some? && KeysDistinct(engine, ops + [Speculate(v, r)])
    requires SeesSame(looks(Lenient(v), CallOf(r)), Lenient(v), AnsweredFrom(engine, TracedAfter(engine, ops), v, r))
    ensures Execute(engine, After(engine, ops), v, r).1 == Fresh(engine, v, r)
  {
    AnswerIsRun(engine, ops, v, r);
    FreshIsDirect(engine, v, r);
    hide Execute, After, TracedAfter, AnsweredFrom, SeesSame, Lenient, CallOf, ReadSetOf;
  }

  // ---- The state changes within a context ----

  /** A dirty slot whose value the baseline does not hold. */
  predicate Outdated(v: View, cells: Cells, cell: Cell) {
    SlotOf(v, cell).Some? && Lookup(cells, cell) != SlotOf(v, cell)
  }

  /** Through a baseline everything but its outdated slots is seen as it is. */
  lemma BaselineSees(v: View, cells: Cells, cell: Cell, a: Address)
    ensures SlotOf(SpecView(v, cells), cell) == SlotOf(Lenient(v), cell) <==> !Outdated(v, cells, cell)
    ensures InfoOf(SpecView(v, cells), a) == InfoOf(Lenient(v), a) && FrameOf(SpecView(v, cells)) == FrameOf(Lenient(v))
  {
    assert cell == (cell.0, cell.1);
  }

  lemma BaselineSeesIff(t: Touched, v: View, cells: Cells)
    ensures SeesSame(t, Lenient(v), SpecView(v, cells))
            <==> forall cell :: cell in t.slots ==> !Outdated(v, cells, cell)
  {
    hide SlotOf, InfoOf, FrameOf, SpecView, Lenient, Outdated;
    BaselineSees(v, cells, (0, 0), 0);
    forall cell | cell in t.slots
      ensures SlotOf(Lenient(v), cell) == SlotOf(SpecView(v, cells), cell) <==> !Outdated(v, cells, cell)
    {
      BaselineSees(v, cells, cell, 0);
    }
    forall a | a in t.infos ensures InfoOf(Lenient(v), a) == InfoOf(SpecView(v, cells), a) {
      BaselineSees(v, cells, (0, 0), a);
    }
  }

  /** What invalidations for writes and for requests leave: some of the results, and the baseline as it was. */
  ghost predicate Thinned(e: Exec, e': Exec) {
    && e'.context == e.context && e'.baseline == e.baseline
    && forall k :: k in e'.cache ==> k in e.cache && e'.cache[k] == e.cache[k]
  }

  lemma InvalidationsThin(engine: Engine, e: Exec, e': Exec, writes: set<Cell>, r: Request)
    requires Thinned(e, e')
    ensures Thinned(e, DropWrites(e', writes)) && Thinned(e, DropRequest(engine, e', r))
  {
    hide Key;
  }

  /** The executor before the first execution of a request in the context of `v`. */
  ghost predicate FirstAsk(engine: Engine, p: Exec, v: View, r: Request) {
    r.from.Some? && p == Prepare(p, ContextOf(v)) && (Key(engine, r), v.localBlock) !in p.cache
  }

  lemma SecondExecution(engine: Engine, p: Exec, v: View, r: Request, e': Exec, v': View)
    requires FirstAsk(engine, p, v, r) && ContextOf(v') == ContextOf(v) && Thinned(Execute(engine, p, v, r).0, e')
    ensures var cells := CellsFor(p, v);
            var start := if (Key(engine, r), v.localBlock) in e'.cache then v else v';
            Execute(engine, e', v', r).1 == Reported(engine.run(SpecView(start, cells), CallOf(r)))
  {
    hide SpecView, ReadSetOf, Key, CallOf, Cow.CellsOf;
  }

  /**
   A request is executed, the state changes within its context, any writes and requests are invalidated, and the
   request is executed again. The second answer is fresh exactly when: if the first result is still cached, nothing
   the request truly reads has changed since; if not, no dirty slot it truly reads differs from the baseline of
   the context.
   */
  lemma FreshAfterChangeIff(engine: Engine, looks: Looks, p: Exec, v: View, r: Request, e': Exec, v': View)
    requires Exposes(engine, looks) && FirstAsk(engine, p, v, r)
    requires ContextOf(v') == ContextOf(v) && Thinned(Execute(engine, p, v, r).0, e')
    ensures var cells, seen := CellsFor(p, v), looks(Lenient(v'), CallOf(r));
            Execute(engine, e', v', r).1 == Fresh(engine, v', r)
            <==> if (Key(engine, r), v.localBlock) in e'.cache then SeesSame(seen, Lenient(v'), SpecView(v, cells))
                 else forall cell :: cell in seen.slots ==> !Outdated(v', cells, cell)
  {
    hide Execute, Prepare, CellsFor, SpecView, SeesSame, Lenient, CallOf, ReadSetOf, Outdated, Key, Thinned;
    SecondExecution(engine, p, v, r, e', v');
    FreshIsDirect(engine, v', r);
    BaselineSeesIff(looks(Lenient(v'), CallOf(r)), v', CellsFor(p, v));
  }

  /** For any execution that depends only on what it reads, that condition is enough. */
  lemma FreshAfterChangeIfUnseen(engine: Engine, looks: Looks, p: Exec, v: View, r: Request, e': Exec, v': View)
    requires Depends(engine, looks) && FirstAsk(engine, p, v, r)
    requires ContextOf(v') == ContextOf(v) && Thinned(Execute(engine, p, v, r).0, e')
    requires var cells, seen := CellsFor(p, v), looks(Lenient(v'), CallOf(r));
             if (Key(engine, r), v.localBlock) in e'.cache then SeesSame(seen, Lenient(v'), SpecView(v, cells))
             else forall cell :: cell in seen.slots ==> !Outdated(v', cells, cell)
    ensures Execute(engine, e', v', r).1 == Fresh(engine, v', r)
  {
    hide Execute, Prepare, CellsFor, SpecView, SeesSame, Lenient, CallOf, ReadSetOf, Outdated, Key, Thinned;
    SecondExecution(engine, p, v, r, e', v');
    FreshIsDirect(engine, v', r);
    BaselineSeesIff(looks(Lenient(v'), CallOf(r)), v', CellsFor(p, v));
  }

  /** In particular it is fresh when every result that depends on a change is dropped and the baseline is current. */
  lemma DroppedAndCurrentIsFresh(engine: Engine, looks: Looks, p: Exec, v: View, r: Request, e': Exec, v': View)
    requires Depends(engine, looks) && FirstAsk(engine, p, v, r)
    requires ContextOf(v') == ContextOf(v) && Thinned(Execute(engine, p, v, r).0, e')
    requires var seen := looks(Lenient(v'), CallOf(r));
             (Key(engine, r), v.localBlock) in e'.cache ==> SeesSame(seen, Lenient(v'), SpecView(v, CellsFor(p, v)))
    requires Cow.Current(v'.layer.accounts, CellsFor(p, v))
    ensures Execute(engine, e', v', r).1 == Fresh(engine, v', r)
  {
    hide Execute, Depends, SeesSame, Lenient, Key, Thinned, FirstAsk, CellsFor, SpecView;
    var cells := CellsFor(p, v);
    forall cell: Cell ensures !Outdated(v', cells, cell) {
      assert cell == (cell.0, cell.1);
    }
    FreshAfterChangeIfUnseen(engine, looks, p, v, r, e', v');
  }

  /**
   No invalidation for writes or for requests helps a request that truly reads a slot rewritten within its context:
   whatever is announced, the second answer is not the fresh one.
   */
  lemma NoInvalidationHelps(engine: Engine, looks: Looks, p: Exec, v: View, r: Request, e': Exec, v': View, cell: Cell)
    requires Exposes(engine, looks) && FirstAsk(engine, p, v, r)
    requires ContextOf(v') == ContextOf(v) && Thinned(Execute(engine, p, v, r).0, e')
    requires cell in looks(Lenient(v'), CallOf(r)).slots && Outdated(v', CellsFor(p, v), cell)
    ensures Execute(engine, e', v', r).1 != Fresh(engine, v', r)
  {
    hide Execute, CellsFor, SpecView, SlotOf, Lenient, CallOf, Outdated, Key, Thinned, FirstAsk, Exposes;
    FreshAfterChangeIff(engine, looks, p, v, r, e', v');
    OldValueSeen(v, v', CellsFor(p, v), cell);
  }

  lemma OldValueSeen(v: View, v': View, cells: Cells, cell: Cell)
    requires Outdated(v', cells, cell)
    ensures SlotOf(Lenient(v'), cell) != SlotOf(SpecView(v, cells), cell)
  {
    assert cell == (cell.0, cell.1);
  }

  /** An invalidation for the block does help, always: the next execution in that block is fresh. */
  lemma BlockInvalidationRefreshes(engine: Engine, ops: seq<Op>, v: View, r: Request)
    ensures Execute(engine, DropBlock(After(engine, ops), v.localBlock), v, r).1 == Fresh(engine, v, r)
  {
    hide After, SpecView, ReadSetOf, Key, CallOf, Cow.CellsOf;
  }

  // ---- The promise that fails ----

  /** An engine that reads slot 3 of account 7 and, as revm runs do, records no read of it. */
  const READER := Engine((v: View, c: Call) => Ok(StateDiff(map[], [], Shown(SlotOf(v, (7, 3))), true, "")),
                         (bytes: seq<nat>) => 0)

  function Shown(w: Option<Word>): nat { if w.Some? then w.value + 1 else 0 }

  function Holding(n: Word): View {
    Scenarios.View(Dirty.Layer(map[7 := NO_OVERRIDES.(storage := map[3 := n])], map[], {}, 0), false, 1, NO_ENV)
  }

  const ASK := Request(Some(1), Some(7), None, None, None)

  const LOOKER: Looks := (v: View, c: Call) => Touched({(7, 3)}, {}, false)

  lemma ReaderExposes()
    ensures Exposes(READER, LOOKER)
  {
  }

  /**
   The slot goes from one to two within a block and the write is announced. The cached result survives; and even with
   the request itself invalidated the next execution runs on the old baseline.
   */
  lemma WritesDoNotRefresh()
    ensures var e := Execute(READER, EMPTY, Holding(1), ASK).0;
            && Execute(READER, DropWrites(e, {(7, 3)}), Holding(2), ASK).1 != Fresh(READER, Holding(2), ASK)
            && Execute(READER, DropRequest(READER, e, ASK), Holding(2), ASK).1 != Fresh(READER, Holding(2), ASK)
  {
    var v, v' := Holding(1), Holding(2);
    var p := Prepare(EMPTY, ContextOf(v));
    ReaderExposes();
    OldBaseline(p);
    hide Execute, SpecView, ReadSetOf, Fresh, SlotOf, Exposes, CellsFor, Outdated, Holding, Thinned, DropWrites,
      DropRequest;
    var e := Execute(READER, p, v, ASK).0;
    SameExecution(v);
    ThinnedSelf(e);
    InvalidationsThin(READER, e, e, {(7, 3)}, ASK);
    NoInvalidationHelps(READER, LOOKER, p, v, ASK, DropWrites(e, {(7, 3)}), v', (7, 3));
    NoInvalidationHelps(READER, LOOKER, p, v, ASK, DropRequest(READER, e, ASK), v', (7, 3));
  }

  lemma OldBaseline(p: Exec)
    requires p == Prepare(EMPTY, ContextOf(Holding(1)))
    ensures Outdated(Holding(2), CellsFor(p, Holding(1)), (7, 3)) && FirstAsk(READER, p, Holding(1), ASK)
    ensures ContextOf(Holding(2)) == ContextOf(Holding(1))
  {
    hide Key, CallOf;
    var cells := Cow.CellsOf(Holding(1).layer.accounts);
    assert (7, 3) in cells && cells[(7, 3)] == 1;
  }

  lemma SameExecution(v: View)
    ensures Execute(READER, EMPTY, v, ASK) == Execute(READER, Prepare(EMPTY, ContextOf(v)), v, ASK)
  {
    hide Key, CallOf, SpecView, CellsFor, ReadSetOf;
  }

  lemma ThinnedSelf(e: Exec)
    ensures Thinned(e, e)
  {
  }

  // ---- Wrong answers, exhibited ----

  /** Creations cost more than calls. */
  const PRICED :=
    Engine((v: View, c: Call) => Ok(StateDiff(map[], [], if c.to.None? then 53_000 else 21_000, true, "")),
           (bytes: seq<nat>) => |bytes|)

  /** The call to the zero address is answered with the price of the creation. */
  lemma CreationAnswersZeroCall(v: View)
    ensures var create := Request(Some(1), None, None, None, None);
            var call := create.(to := Some(ZERO_ADDRESS));
            Execute(PRICED, Execute(PRICED, EMPTY, v, create).0, v, call).1 != Fresh(PRICED, v, call)
  {
    CreationHidesZeroCall(PRICED, EMPTY, v, Request(Some(1), None, None, None, None));
  }

  /** Transfers refused by a strict fork whose sender is poor. */
  const STRICT := Engine((v: View, c: Call) => if v.env.strictBalance && Scenarios.BalanceIn(v, c.from) < c.value
                                              then Err("insufficient balance")
                                              else Ok(StateDiff(map[], [], 21_000, true, "")),
                         (bytes: seq<nat>) => |bytes|)

  /** Speculation accepts what the strict fork itself refuses. */
  lemma StrictForkDisagrees(v: View, r: Request)
    requires r.from.Some? && v.env.strictBalance && Scenarios.BalanceIn(v, r.from.value) < CallOf(r).value
    ensures Fresh(STRICT, v, r).Ok? && STRICT.run(v, CallOf(r)).Err?
  {
    FreshIsDirect(STRICT, v, r);
  }

  /** An engine that tells one view from all others. */
  function Only(v: View): Engine {
    Engine((w: View, c: Call) => if w == v then Ok(StateDiff(map[], [], 0, true, "")) else Err("another view"),
           (bytes: seq<nat>) => 0)
  }

  /** Speculation answers as the fork itself, whatever the execution, exactly when none of the strictness flags is
      set. */
  lemma FreshIsTheForksIff(v: View, r: Request)
    requires r.from.Some?
    ensures (forall engine: Engine :: Fresh(engine, v, r) == Reported(engine.run(v, CallOf(r))))
            <==> !v.env.strictNonce && !v.env.strictBalance && !v.env.verifySignatures
  {
    hide Fresh, CallOf, ReadSetOf;
    forall engine: Engine ensures Fresh(engine, v, r) == Reported(engine.run(Lenient(v), CallOf(r))) {
      FreshIsDirect(engine, v, r);
    }
    if !v.env.strictNonce && !v.env.strictBalance && !v.env.verifySignatures {
      assert Lenient(v) == v;
    } else {
      assert Lenient(v).env != v.env;
      assert Only(v).run(Lenient(v), CallOf(r)).Err? && Only(v).run(v, CallOf(r)).Ok?;
      assert Fresh(Only(v), v, r) != Reported(Only(v).run(v, CallOf(r)));
    }
  }
}
