/** What the result cache of `SpeculativeExecutor` holds after any run: apps/mirage-rs/src/replay.rs. */
module SpeculativeCache {
  import opened Prelude
  import opened ForkTypes
  import opened SpeculativeKey
  import opened Speculative
  import Cow

  // ---- What a request asks for, and what a result has on record ----

  function Given<T>(o: Option<T>, default_: T): T { if o.Some? then o.value else default_ }

  /** The request's own sender, target and data; value, gas and data have their defaults. */
  function Asked(r: Request): Call
    requires r.from.Some?
  {
    Call(r.from.value, r.to, Given(r.value, 0), Given(r.gas, 30_000_000), Given(r.data, []))
  }

  function KeyOf(engine: Engine, r: Request): Hash
    requires r.from.Some?
  {
    engine.hash(KeyBytes(Asked(r)))
  }

  /** A slot a diff reads or writes; a change to the account itself counts as slot 0. */
  predicate OnRecord(diff: StateDiff, cell: Cell) {
    && cell.0 in diff.accounts
    && var d := diff.accounts[cell.0];
    cell.1 in d.storageRead || cell.1 in d.storageWritten || (d.infoChanged && cell.1 == 0)
  }

  ghost predicate Recorded(s: Speculated) { forall cell: Cell :: cell in s.readSet <==> OnRecord(s.diff, cell) }

  lemma AskedIsRun(engine: Engine, r: Request)
    requires r.from.Some?
    ensures CallOf(r) == Asked(r) && Key(engine, r) == KeyOf(engine, r)
  {
    hide KeyBytes;
  }

  lemma ReadSetIsRecorded(diff: StateDiff)
    ensures Recorded(Speculated(diff, ReadSetOf(diff)))
  {
  }

  /** A new executor runs the request as it was made, on the state without its strictness flags. */
  lemma FreshRunsTheRequest(engine: Engine, v: View, r: Request)
    ensures var answer := Fresh(engine, v, r);
            if r.from.None? then answer == Err("missing from")
            else match engine.run(Lenient(v), Asked(r))
              case Ok(diff) => answer.Ok? && answer.value.diff == diff && Recorded(answer.value)
              case Err(error) => answer == Err(error)
  {
    if r.from.Some? {
      AskedIsRun(engine, r);
      FreshIsDirect(engine, v, r);
      hide CallOf, Asked, Fresh, ReadSetOf, Recorded;
      var o := engine.run(Lenient(v), Asked(r));
      if o.Ok? {
        ReadSetIsRecorded(o.value);
      }
    }
  }

  // ---- The cache as a function of the run ----

  /** Step `i` answers `s` for what is cached under `k`. */
  ghost predicate Answers(engine: Engine, ops: seq<Op>, i: nat, k: (Hash, nat), s: Speculated) {
    && i < |ops| && ops[i].Speculate? && ops[i].request.from.Some?
    && k == (KeyOf(engine, ops[i].request), ops[i].view.localBlock)
    && Execute(engine, After(engine, ops[..i]), ops[i].view, ops[i].request).1 == Ok(s)
  }

  /**
   A result goes when another block or timestamp is speculated on, when its block or its request is invalidated, or
   when a slot it has on record is written.
   */
  ghost predicate Drops(engine: Engine, op: Op, c: Context, k: (Hash, nat), s: Speculated) {
    match op
    case Speculate(v, _) => v.localBlock != c.block || v.env.timestamp != c.timestamp
    case Writes(cells) => exists cell: Cell :: cell in cells && OnRecord(s.diff, cell)
    case Block(block) => block == k.1
    case Included(r) => r.from.Some? && KeyOf(engine, r) == k.0
  }

  /** Step `i` answers it, and nothing drops it afterwards. */
  ghost predicate Kept(engine: Engine, ops: seq<Op>, i: nat, k: (Hash, nat), s: Speculated) {
    Answers(engine, ops, i, k, s) && Undropped(engine, ops, i, ContextOf(ops[i].view), k, s)
  }

  ghost predicate Undropped(engine: Engine, ops: seq<Op>, i: nat, c: Context, k: (Hash, nat), s: Speculated) {
    forall j: nat :: i < j < |ops| ==> !Drops(engine, ops[j], c, k, s)
  }

  ghost predicate Holds(e: Exec, k: (Hash, nat), s: Speculated) { k in e.cache && e.cache[k] == s }

  lemma ExecuteHolds(engine: Engine, e: Exec, v: View, r: Request, k: (Hash, nat), s: Speculated)
    ensures var (e', answer) := Execute(engine, e, v, r);
            && e'.context == Some(ContextOf(v))
            && (Holds(e', k, s) <==>
                  || (r.from.Some? && k == (KeyOf(engine, r), v.localBlock) && answer == Ok(s))
                  || (Holds(e, k, s) && (e.context.Some? ==> e.context.value == ContextOf(v))))
  {
    hide SpecView, ReadSetOf, KeyBytes, CellsFor;
    if r.from.Some? {
      AskedIsRun(engine, r);
    }
  }

  /** Every cached result carries the slots it has on record. */
  lemma CachedIsRecorded(engine: Engine, ops: seq<Op>, k: (Hash, nat))
    requires k in After(engine, ops).cache
    ensures Recorded(After(engine, ops).cache[k])
    ensures After(engine, ops).context.Some? && After(engine, ops).context.value.block == k.1
  {
    hide After, CellsKnown, SpecView, Key, ReadSetOf, Recorded;
    var e := After(engine, ops);
    EveryEntryIsExplained(engine, ops);
    assert EntryKnown(engine, ops, e.context.value, k.0, e.cache[k]);
    var i: nat, j: nat :| ComputedBy(engine, ops, i, j, e.context.value, k.0, e.cache[k]);
    ReadSetIsRecorded(e.cache[k].diff);
  }

  lemma InvalidationHolds(engine: Engine, e: Exec, op: Op, c: Context, k: (Hash, nat), s: Speculated)
    requires !op.Speculate? && Recorded(s)
    requires Holds(e, k, s) ==> e.context.Some? && e.context.value.block == k.1
    ensures var e' := Step(engine, e, op);
            && (Holds(e', k, s) <==> Holds(e, k, s) && !Drops(engine, op, c, k, s))
            && (Holds(e', k, s) ==> e'.context == e.context)
  {
    hide KeyBytes, OnRecord;
    if op.Included? && op.request.from.Some? {
      AskedIsRun(engine, op.request);
    }
    if op.Writes? && Drops(engine, op, c, k, s) {
      var cell: Cell :| cell in op.writes && OnRecord(s.diff, cell);
      assert cell in s.readSet;
    }
  }

  lemma KeptLonger(engine: Engine, front: seq<Op>, op: Op, i: nat, k: (Hash, nat), s: Speculated)
    requires i < |front|
    ensures Kept(engine, front + [op], i, k, s)
            <==> Kept(engine, front, i, k, s) && !Drops(engine, op, ContextOf(front[i].view), k, s)
  {
    hide Answers, Undropped, ContextOf;
    var ops := front + [op];
    assert ops[i] == front[i];
    AnswersLater(engine, front, op, i, k, s);
    if front[i].Speculate? {
      UndroppedLater(engine, front, op, i, ContextOf(front[i].view), k, s);
    }
  }

  lemma AnswersLater(engine: Engine, front: seq<Op>, op: Op, i: nat, k: (Hash, nat), s: Speculated)
    requires i < |front|
    ensures Answers(engine, front + [op], i, k, s) <==> Answers(engine, front, i, k, s)
    ensures Answers(engine, front, i, k, s) ==> front[i].Speculate?
  {
    hide Execute, After, KeyOf;
    assert (front + [op])[i] == front[i] && (front + [op])[..i] == front[..i];
  }

  lemma UndroppedLater(
    engine: Engine, front: seq<Op>, op: Op, i: nat, c: Context, k: (Hash, nat), s: Speculated)
    requires i < |front|
    ensures Undropped(engine, front + [op], i, c, k, s)
            <==> Undropped(engine, front, i, c, k, s) && !Drops(engine, op, c, k, s)
  {
    hide Drops;
    var ops := front + [op];
    assert ops[|front|] == op;
    if Undropped(engine, ops, i, c, k, s) {
      forall j: nat | i < j < |front| ensures !Drops(engine, front[j], c, k, s) {
        assert ops[j] == front[j];
      }
    }
  }

  lemma {:induction false} KeptIsHeld(engine: Engine, ops: seq<Op>, i: nat, k: (Hash, nat), s: Speculated)
    requires Kept(engine, ops, i, k, s)
    ensures Holds(After(engine, ops), k, s) && After(engine, ops).context == Some(ContextOf(ops[i].view))
    decreases |ops|
  {
    hide Execute, DropWrites, DropBlock, DropRequest, ContextOf, KeyOf, Recorded, Holds;
    var front, op := ops[..|ops| - 1], ops[|ops| - 1];
    assert ops == front + [op];
    if i == |front| {
      ExecuteHolds(engine, After(engine, front), op.view, op.request, k, s);
    } else {
      KeptLonger(engine, front, op, i, k, s);
      KeptIsHeld(engine, front, i, k, s);
      OneMoreHeld(engine, front, op, ContextOf(ops[i].view), k, s);
    }
  }

  lemma OneMoreHeld(engine: Engine, front: seq<Op>, op: Op, c: Context, k: (Hash, nat), s: Speculated)
    requires Holds(After(engine, front), k, s) && After(engine, front).context == Some(c)
    requires !Drops(engine, op, c, k, s)
    ensures var e := Step(engine, After(engine, front), op); Holds(e, k, s) && e.context == Some(c)
  {
    hide Execute, DropWrites, DropBlock, DropRequest, After, KeyOf, Recorded;
    CachedIsRecorded(engine, front, k);
    var e := After(engine, front);
    if op.Speculate? {
      ExecuteHolds(engine, e, op.view, op.request, k, s);
    } else {
      InvalidationHolds(engine, e, op, c, k, s);
    }
  }

  lemma {:induction false} HeldIsKept(engine: Engine, ops: seq<Op>, k: (Hash, nat), s: Speculated) returns (i: nat)
    requires Holds(After(engine, ops), k, s)
    ensures Kept(engine, ops, i, k, s)
    decreases |ops|
  {
    hide Execute, DropWrites, DropBlock, DropRequest, ContextOf, KeyOf, Recorded, Kept;
    assert ops != [];
    var front, op := ops[..|ops| - 1], ops[|ops| - 1];
    assert ops == front + [op];
    if Answers(engine, ops, |front|, k, s) {
      LastIsKept(engine, ops, k, s);
      i := |front|;
    } else {
      HeldBefore(engine, front, op, k, s);
      i := HeldIsKept(engine, front, k, s);
      KeptInFront(engine, front, i, k, s);
      KeptIsHeld(engine, front, i, k, s);
      HeldThenUndropped(engine, front, op, ContextOf(front[i].view), k, s);
      KeptLonger(engine, front, op, i, k, s);
    }
  }

  lemma LastIsKept(engine: Engine, ops: seq<Op>, k: (Hash, nat), s: Speculated)
    requires ops != [] && Answers(engine, ops, |ops| - 1, k, s)
    ensures Kept(engine, ops, |ops| - 1, k, s)
  {
    hide Answers, Drops;
  }

  lemma KeptInFront(engine: Engine, ops: seq<Op>, i: nat, k: (Hash, nat), s: Speculated)
    requires Kept(engine, ops, i, k, s)
    ensures i < |ops| && ops[i].Speculate?
  {
    hide Execute, Drops, After, KeyOf;
  }

  /** What is held and was not just answered was held before. */
  lemma HeldBefore(engine: Engine, front: seq<Op>, op: Op, k: (Hash, nat), s: Speculated)
    requires Holds(Step(engine, After(engine, front), op), k, s)
    requires !Answers(engine, front + [op], |front|, k, s)
    ensures Holds(After(engine, front), k, s)
  {
    hide Execute, After, KeyOf, SpecView, Key;
    var e := After(engine, front);
    assert (front + [op])[..|front|] == front;
    if op.Speculate? {
      ExecuteHolds(engine, e, op.view, op.request, k, s);
    }
  }

  lemma HeldThenUndropped(engine: Engine, front: seq<Op>, op: Op, c: Context, k: (Hash, nat), s: Speculated)
    requires Holds(After(engine, front), k, s) && After(engine, front).context == Some(c)
    requires Holds(Step(engine, After(engine, front), op), k, s)
    requires !Answers(engine, front + [op], |front|, k, s)
    ensures !Drops(engine, op, c, k, s)
  {
    hide Execute, DropWrites, DropBlock, DropRequest, After, KeyOf, Recorded;
    assert (front + [op])[..|front|] == front;
    CachedIsRecorded(engine, front, k);
    var e := After(engine, front);
    if op.Speculate? {
      ExecuteHolds(engine, e, op.view, op.request, k, s);
    } else {
      InvalidationHolds(engine, e, op, c, k, s);
    }
  }

  /**
   After any run a result is cached exactly when some step of the run answered it and nothing dropped it since: no
   speculation on another block or timestamp, no invalidation of its block or request, no write to a slot it records.
   */
  lemma CacheHoldsIff(engine: Engine, ops: seq<Op>, k: (Hash, nat), s: Speculated)
    ensures k in After(engine, ops).cache && After(engine, ops).cache[k] == s
            <==> exists i: nat :: Kept(engine, ops, i, k, s)
  {
    hide Kept, After;
    if Holds(After(engine, ops), k, s) {
      var i := HeldIsKept(engine, ops, k, s);
    }
    if i: nat :| Kept(engine, ops, i, k, s) {
      KeptIsHeld(engine, ops, i, k, s);
    }
  }

  /** So right after an invalidation its request is run again, on the state or the baseline of the block. */
  lemma InvalidatedIsRunAgain(engine: Engine, ops: seq<Op>, v: View, r: Request)
    requires r.from.Some?
    ensures var e := After(engine, ops + [Included(r)]);
            && (forall block :: (KeyOf(engine, r), block) !in e.cache)
            && var cells := CellsFor(Prepare(e, ContextOf(v)), v);
            var o := engine.run(SpecView(v, cells), Asked(r));
            Execute(engine, e, v, r).1
            == if o.Ok? then Ok(Speculated(o.value, ReadSetOf(o.value))) else Err(o.error)
  {
    hide SpecView, ReadSetOf, CellsFor, KeyOf;
    assert (ops + [Included(r)])[..|ops|] == ops;
    AskedIsRun(engine, r);
  }
}
