/** Speculative execution and its result cache: `SpeculativeExecutor` in apps/mirage-rs/src/replay.rs. */
module SpeculativeKey {
  import opened Prelude
  import opened ForkTypes

  /** A request with its defaults filled in. `to` is absent for a contract creation. */
  datatype Call = Call(from: Address, to: Option<Address>, value: Word, gas: nat, data: seq<nat>)

  function Pow256(width: nat): nat { if width == 0 then 1 else 256 * Pow256(width - 1) }

  function BigEndian(n: nat, width: nat): (bytes: seq<nat>)
    ensures |bytes| == width
  {
    if width == 0 then [] else BigEndian(n / 256, width - 1) + [n % 256]
  }

  lemma {:induction false} BigEndianInjective(n: nat, m: nat, width: nat)
    requires n < Pow256(width) && m < Pow256(width) && BigEndian(n, width) == BigEndian(m, width)
    ensures n == m
  {
    if width > 0 {
      var a, b := BigEndian(n / 256, width - 1), BigEndian(m / 256, width - 1);
      assert BigEndian(n, width)[..width - 1] == a && BigEndian(m, width)[..width - 1] == b;
      assert BigEndian(n, width)[width - 1] == n % 256 && BigEndian(m, width)[width - 1] == m % 256;
      BigEndianInjective(n / 256, m / 256, width - 1);
    }
  }

  /** A creation is hashed like a call to the zero address. */
  function Target(to: Option<Address>): Address { if to.Some? then to.value else ZERO_ADDRESS }

  /** The preimage of the cache key: fixed widths, then the data. */
  function KeyBytes(c: Call): seq<nat> {
    BigEndian(c.from, 20) + BigEndian(Target(c.to), 20) + BigEndian(c.value, 32) + BigEndian(c.gas, 8) + c.data
  }

  /** Every number fits its width. */
  predicate Sized(c: Call) {
    && c.from < Pow256(20) && (c.to.Some? ==> c.to.value < Pow256(20)) && c.value < Pow256(32) && c.gas < Pow256(8)
  }

  lemma FixedWidths(c: Call)
    ensures |KeyBytes(c)| == 80 + |c.data| && KeyBytes(c)[80..] == c.data
    ensures KeyBytes(c)[..20] == BigEndian(c.from, 20) && KeyBytes(c)[40..72] == BigEndian(c.value, 32)
    ensures KeyBytes(c)[20..40] == BigEndian(Target(c.to), 20)
    ensures KeyBytes(c)[72..80] == BigEndian(c.gas, 8)
  {
    hide BigEndian;
    var b := KeyBytes(c);
    var to := BigEndian(Target(c.to), 20);
    var f, v, g := BigEndian(c.from, 20), BigEndian(c.value, 32), BigEndian(c.gas, 8);
    assert b[..20] == f;
    assert b[20..40] == to;
    assert b[40..72] == v;
    assert b[72..80] == g;
  }

  lemma KeyBytesDetermine(c: Call, d: Call)
    requires Sized(c) && Sized(d) && KeyBytes(c) == KeyBytes(d)
    ensures c.from == d.from && Target(c.to) == Target(d.to) && c.value == d.value && c.gas == d.gas && c.data == d.data
  {
    hide BigEndian, Pow256, KeyBytes;
    FixedWidths(c);
    FixedWidths(d);
    BigEndianInjective(c.from, d.from, 20);
    BigEndianInjective(c.value, d.value, 32);
    BigEndianInjective(c.gas, d.gas, 8);
    Positive(20);
    BigEndianInjective(Target(c.to), Target(d.to), 20);
  }

  /** Two calls share a preimage exactly when they differ at most in creation against a call to the zero address. */
  lemma KeyBytesCollideIff(c: Call, d: Call)
    requires Sized(c) && Sized(d)
    ensures KeyBytes(c) == KeyBytes(d)
            <==> c.(to := d.to) == d
                 && (c.to == d.to || (c.to in {None, Some(ZERO_ADDRESS)} && d.to in {None, Some(ZERO_ADDRESS)}))
  {
    hide BigEndian, Pow256, Sized;
    if KeyBytes(c) == KeyBytes(d) {
      KeyBytesDetermine(c, d);
    }
  }

  lemma {:induction false} Positive(width: nat)
    ensures Pow256(width) > 0
  {
    if width > 0 {
      Positive(width - 1);
    }
  }
}

module Speculative {
  import opened Prelude
  import opened ForkTypes
  import opened SpeculativeKey
  import Cow
  import Scenarios
  type View = Scenarios.View
  type Cell = Cow.Cell
  type Cells = map<Cell, Word>

  datatype Request = Request(
    from: Option<Address>, to: Option<Address>, value: Option<Word>, gas: Option<nat>, data: Option<seq<nat>>)

  /** Execution as a deterministic function of the view, and keccak. */
  datatype Engine = Engine(run: (View, Call) -> Result<StateDiff, string>, hash: seq<nat> -> Hash)

  datatype Speculated = Speculated(diff: StateDiff, readSet: set<Cell>)

  datatype Context = Context(block: nat, timestamp: nat)

  function ContextOf(v: View): Context { Context(v.localBlock, v.env.timestamp) }

  const DEFAULT_GAS: nat := 30_000_000

  function CallOf(r: Request): Call
    requires r.from.Some?
  {
    Call(r.from.value, r.to, if r.value.Some? then r.value.value else 0,
         if r.gas.Some? then r.gas.value else DEFAULT_GAS, if r.data.Some? then r.data.value else [])
  }

  function Key(engine: Engine, r: Request): Hash
    requires r.from.Some?
  {
    engine.hash(KeyBytes(CallOf(r)))
  }

  function SlotsOf(d: AccountDiff): set<Word> {
    d.storageRead + d.storageWritten.Keys + if d.infoChanged then {0} else {}
  }

  function ReadSetOf(diff: StateDiff): set<Cell> {
    set a, s | a in diff.accounts && s in SlotsOf(diff.accounts[a]) :: (a, s)
  }

  /** The fork a speculation runs on: storage through the branch, strictness flags back at their defaults. */
  function SpecView(v: View, cells: Cells): View {
    v.(layer := v.layer.(accounts := Cow.RebuildAll(v.layer.accounts, Cow.ReadOf(cells))),
       env := v.env.(strictNonce := false, strictBalance := false, verifySignatures := false))
  }

  // ---- The executor as a value ----

  datatype Exec = Exec(cache: map<(Hash, nat), Speculated>, context: Option<Context>,
    baseline: Option<(Context, Cells)>)

  const EMPTY := Exec(map[], None, None)

  function Prepare(e: Exec, c: Context): Exec {
    Exec(if e.context.Some? && e.context.value != c then map[] else e.cache, Some(c),
         if e.baseline.Some? && e.baseline.value.0 != c then None else e.baseline)
  }

  function CellsFor(e: Exec, v: View): Cells {
    if e.baseline.Some? && e.baseline.value.0 == ContextOf(v) then e.baseline.value.1 else Cow.CellsOf(v.layer.accounts)
  }

  function Execute(engine: Engine, e: Exec, v: View, r: Request): (Exec, Result<Speculated, string>) {
    var p := Prepare(e, ContextOf(v));
    if r.from.None? then (p, Err("missing from")) else
    var k := (Key(engine, r), v.localBlock);
    if k in p.cache then (p, Ok(p.cache[k])) else
    var q := p.(baseline := Some((ContextOf(v), CellsFor(p, v))));
    match engine.run(SpecView(v, CellsFor(p, v)), CallOf(r))
    case Err(error) => (q, Err(error))
    case Ok(diff) =>
      var s := Speculated(diff, ReadSetOf(diff));
      (q.(cache := q.cache[k := s]), Ok(s))
  }

  function DropWrites(e: Exec, writes: set<Cell>): Exec {
    e.(cache := map k | k in e.cache && e.cache[k].readSet !! writes :: e.cache[k])
  }

  function DropBlock(e: Exec, block: nat): Exec {
    Exec(map k | k in e.cache && k.1 != block :: e.cache[k],
         if e.context.Some? && e.context.value.block == block then None else e.context,
         if e.baseline.Some? && e.baseline.value.0.block == block then None else e.baseline)
  }

  function DropRequest(engine: Engine, e: Exec, r: Request): Exec {
    if r.from.None? then e else e.(cache := map k | k in e.cache && k.0 != Key(engine, r) :: e.cache[k])
  }

  // ---- The executor in place ----

  class SpeculativeExecutor {
    const engine: Engine
    var cache: map<(Hash, nat), Speculated>
    var cacheContext: Option<Context>
    var cowBaseline: Option<(Context, Cells)>

    function Value(): Exec
      reads this
    {
      Exec(cache, cacheContext, cowBaseline)
    }

    constructor (engine: Engine)
      ensures Value() == EMPTY && this.engine == engine
    {
      this.engine := engine;
      cache, cacheContext, cowBaseline := map[], None, None;
    }

    method PrepareContext(v: View)
      modifies this
      ensures Value() == Prepare(old(Value()), ContextOf(v))
    {
      var context := ContextOf(v);
      if cacheContext.Some? && cacheContext.value != context {
        cache := map[];
      }
      if cowBaseline.Some? && cowBaseline.value.0 != context {
        cowBaseline := None;
      }
      cacheContext := Some(context);
    }

    method EnsureCowBaseline(v: View) returns (cells: Cells)
      modifies this
      ensures cells == CellsFor(old(Value()), v)
      ensures Value() == old(Value()).(baseline := Some((ContextOf(v), cells)))
    {
      if cowBaseline.Some? && cowBaseline.value.0 == ContextOf(v) {
        return cowBaseline.value.1;
      }
      cells := Cow.FreezeCells(v.layer.accounts);
      cowBaseline := Some((ContextOf(v), cells));
    }

    /** Storage as the branch reads it, its own writes included. */
    method BuildSpeculativeState(v: View, cow: Cow.CowState) returns (w: View)
      ensures w == SpecView(v, cow.Cells())
    {
      var accounts := Cow.Materialize(v.layer.accounts, cow);
      w := v.(layer := v.layer.(accounts := accounts),
              env := v.env.(strictNonce := false, strictBalance := false, verifySignatures := false));
    }

    method DoExecute(v: View, r: Request) returns (result: Result<Speculated, string>)
      modifies this
      ensures (Value(), result) == Execute(engine, old(Value()), v, r)
    {
      hide SpecView, ReadSetOf, Key, CallOf, CellsFor;
      PrepareContext(v);
      if r.from.None? {
        return Err("missing from");
      }
      var key := (Key(engine, r), v.localBlock);
      if key in cache {
        return Ok(cache[key]);
      }
      var cells := EnsureCowBaseline(v);
      var cow := new Cow.CowState.Branch(cells);
      var fork := BuildSpeculativeState(v, cow);
      match engine.run(fork, CallOf(r)) {
        case Err(error) => result := Err(error);
        case Ok(diff) =>
          var s := Speculated(diff, ReadSetOf(diff));
          cache := cache[key := s];
          result := Ok(s);
      }
    }

    method InvalidateForWrites(writes: set<Cell>)
      modifies this
      ensures Value() == DropWrites(old(Value()), writes)
    {
      cache := map k | k in cache && cache[k].readSet !! writes :: cache[k];
    }

    method InvalidateForBlock(block: nat)
      modifies this
      ensures Value() == DropBlock(old(Value()), block)
    {
      cache := map k | k in cache && k.1 != block :: cache[k];
      if cacheContext.Some? && cacheContext.value.block == block {
        cacheContext := None;
      }
      if cowBaseline.Some? && cowBaseline.value.0.block == block {
        cowBaseline := None;
      }
    }

    method InvalidateForRequest(r: Request)
      modifies this
      ensures Value() == DropRequest(engine, old(Value()), r)
    {
      if r.from.None? {
        return;
      }
      var h := Key(engine, r);
      cache := map k | k in cache && k.0 != h :: cache[k];
    }
  }

  // ---- Runs ----

  datatype Op =
    | Speculate(view: View, request: Request)
    | Writes(writes: set<Cell>)
    | Block(block: nat)
    | Included(request: Request)

  function Step(engine: Engine, e: Exec, op: Op): Exec {
    match op
    case Speculate(v, r) => Execute(engine, e, v, r).0
    case Writes(w) => DropWrites(e, w)
    case Block(b) => DropBlock(e, b)
    case Included(r) => DropRequest(engine, e, r)
  }

  function After(engine: Engine, ops: seq<Op>): Exec {
    if ops == [] then EMPTY else Step(engine, After(engine, ops[..|ops| - 1]), ops[|ops| - 1])
  }

  /** Operation `i` is an execution in context `c`. */
  ghost predicate Ran(ops: seq<Op>, i: nat, c: Context) {
    i < |ops| && ops[i].Speculate? && ContextOf(ops[i].view) == c
  }

  /** `cells` were frozen by execution `j`. */
  ghost predicate FrozenBy(ops: seq<Op>, j: nat, c: Context, cells: Cells) {
    Ran(ops, j, c) && cells == Cow.CellsOf(ops[j].view.layer.accounts)
  }

  /** `s` is what execution `i` computed, on the baseline that execution `j` froze. */
  ghost predicate ComputedBy(engine: Engine, ops: seq<Op>, i: nat, j: nat, c: Context, k: Hash, s: Speculated) {
    && Ran(ops, i, c) && Ran(ops, j, c) && ops[i].request.from.Some? && k == Key(engine, ops[i].request)
    && engine.run(SpecView(ops[i].view, Cow.CellsOf(ops[j].view.layer.accounts)), CallOf(ops[i].request)) == Ok(s.diff)
    && s.readSet == ReadSetOf(s.diff)
  }

  ghost predicate CellsKnown(ops: seq<Op>, c: Context, cells: Cells) { exists j: nat :: FrozenBy(ops, j, c, cells) }

  ghost predicate EntryKnown(engine: Engine, ops: seq<Op>, c: Context, k: Hash, s: Speculated) {
    exists i: nat, j: nat :: ComputedBy(engine, ops, i, j, c, k, s)
  }

  /** Everything the executor holds was computed in this run, under the context it holds. */
  ghost predicate Explained(engine: Engine, ops: seq<Op>, e: Exec) {
    && (e.baseline.Some? ==>
       e.context == Some(e.baseline.value.0) && CellsKnown(ops, e.baseline.value.0, e.baseline.value.1))
    && (forall k :: k in e.cache ==>
          e.context.Some? && k.1 == e.context.value.block && EntryKnown(engine, ops, e.context.value, k.0, e.cache[k]))
  }

  lemma CellsKnownLater(ops: seq<Op>, op: Op, c: Context, cells: Cells)
    requires CellsKnown(ops, c, cells)
    ensures CellsKnown(ops + [op], c, cells)
  {
    var j: nat :| FrozenBy(ops, j, c, cells);
    assert (ops + [op])[j] == ops[j] && FrozenBy(ops + [op], j, c, cells);
  }

  lemma EntryKnownLater(engine: Engine, ops: seq<Op>, op: Op, c: Context, k: Hash, s: Speculated)
    requires EntryKnown(engine, ops, c, k, s)
    ensures EntryKnown(engine, ops + [op], c, k, s)
  {
    hide ComputedBy;
    var i: nat, j: nat :| ComputedBy(engine, ops, i, j, c, k, s);
    ComputedLater(engine, ops, op, i, j, c, k, s);
  }

  lemma ComputedLater(engine: Engine, ops: seq<Op>, op: Op, i: nat, j: nat, c: Context, k: Hash, s: Speculated)
    requires ComputedBy(engine, ops, i, j, c, k, s)
    ensures ComputedBy(engine, ops + [op], i, j, c, k, s)
  {
    hide Key, SpecView, CallOf, ReadSetOf, ContextOf, Cow.CellsOf;
    assert (ops + [op])[i] == ops[i] && (ops + [op])[j] == ops[j];
  }

  lemma ExplainedLater(engine: Engine, ops: seq<Op>, op: Op, e: Exec)
    requires Explained(engine, ops, e)
    ensures Explained(engine, ops + [op], e)
  {
    hide CellsKnown, EntryKnown;
    if e.baseline.Some? {
      CellsKnownLater(ops, op, e.baseline.value.0, e.baseline.value.1);
    }
    forall k | k in e.cache ensures EntryKnown(engine, ops + [op], e.context.value, k.0, e.cache[k]) {
      EntryKnownLater(engine, ops, op, e.context.value, k.0, e.cache[k]);
    }
  }

  lemma PrepareExplained(engine: Engine, ops: seq<Op>, e: Exec, c: Context)
    requires Explained(engine, ops, e)
    ensures Explained(engine, ops, Prepare(e, c))
  {
    hide CellsKnown, EntryKnown;
  }

  lemma InvalidateExplained(engine: Engine, ops: seq<Op>, e: Exec, op: Op)
    requires Explained(engine, ops, e) && !op.Speculate?
    ensures Explained(engine, ops, Step(engine, e, op))
  {
    hide CellsKnown, EntryKnown, Key;
  }

  lemma BaselineExplained(engine: Engine, ops: seq<Op>, e: Exec, n: nat)
    requires Explained(engine, ops, e) && n < |ops| && ops[n].Speculate? && e.context == Some(ContextOf(ops[n].view))
    ensures var v := ops[n].view; CellsKnown(ops, ContextOf(v), CellsFor(e, v))
  {
    hide EntryKnown;
    var v := ops[n].view;
    if e.baseline.None? {
      assert FrozenBy(ops, n, ContextOf(v), CellsFor(e, v));
    }
  }

  lemma MissExplained(engine: Engine, ops: seq<Op>, n: nat, cells: Cells)
    requires n < |ops| && ops[n].Speculate? && ops[n].request.from.Some?
    requires CellsKnown(ops, ContextOf(ops[n].view), cells)
    ensures var o := engine.run(SpecView(ops[n].view, cells), CallOf(ops[n].request));
            o.Ok? ==> EntryKnown(engine, ops, ContextOf(ops[n].view), Key(engine, ops[n].request),
                                 Speculated(o.value, ReadSetOf(o.value)))
  {
    var c := ContextOf(ops[n].view);
    var j: nat :| FrozenBy(ops, j, c, cells);
    var o := engine.run(SpecView(ops[n].view, cells), CallOf(ops[n].request));
    if o.Ok? {
      assert ComputedBy(engine, ops, n, j, c, Key(engine, ops[n].request), Speculated(o.value, ReadSetOf(o.value)));
    }
  }

  lemma ExecuteExplained(engine: Engine, ops: seq<Op>, e: Exec, n: nat)
    requires Explained(engine, ops, e) && n < |ops| && ops[n].Speculate?
    ensures Explained(engine, ops, Execute(engine, e, ops[n].view, ops[n].request).0)
  {
    hide CellsKnown, EntryKnown, Key, SpecView, CellsFor, ReadSetOf;
    var v, r := ops[n].view, ops[n].request;
    var p := Prepare(e, ContextOf(v));
    PrepareExplained(engine, ops, e, ContextOf(v));
    BaselineExplained(engine, ops, p, n);
    if r.from.Some? {
      MissExplained(engine, ops, n, CellsFor(p, v));
    }
  }

  /** Provenance: in every run, each cached result was computed under the current context by an operation of the run. */
  lemma {:induction false} EveryEntryIsExplained(engine: Engine, ops: seq<Op>)
    ensures Explained(engine, ops, After(engine, ops))
  {
    if ops != [] {
      var n := |ops| - 1;
      var before, op := ops[..n], ops[n];
      assert before + [op] == ops;
      hide Explained, Execute, DropWrites, DropBlock, DropRequest;
      EveryEntryIsExplained(engine, before);
      ExplainedLater(engine, before, op, After(engine, before));
      if op.Speculate? {
        ExecuteExplained(engine, ops, After(engine, before), n);
      } else {
        InvalidateExplained(engine, ops, After(engine, before), op);
      }
    } else {
      assert Explained(engine, ops, EMPTY);
    }
  }

  // ---- Coherence ----

  /** Speculation with nothing cached: what a new executor returns. */
  function Fresh(engine: Engine, v: View, r: Request): Result<Speculated, string> { Execute(engine, EMPTY, v, r).1 }

  /** The state itself, without its strictness flags. */
  function Lenient(v: View): View {
    v.(env := v.env.(strictNonce := false, strictBalance := false, verifySignatures := false))
  }

  /** A fresh speculation is an execution on the state itself, except for the strictness flags. */
  lemma FreshIsDirect(engine: Engine, v: View, r: Request)
    requires r.from.Some?
    ensures var direct := engine.run(Lenient(v), CallOf(r));
            Fresh(engine, v, r)
            == if direct.Ok? then Ok(Speculated(direct.value, ReadSetOf(direct.value))) else Err(direct.error)
  {
    hide Key, ReadSetOf, Cow.CellsOf, Cow.RebuildAll, Cow.ReadOf, ContextOf;
    Cow.FrozenCellsRebuild(v.layer.accounts);
    assert SpecView(v, Cow.CellsOf(v.layer.accounts)) == Lenient(v);
    assert CellsFor(Prepare(EMPTY, ContextOf(v)), v) == Cow.CellsOf(v.layer.accounts);
  }

  /** States of the same context are the same, strictness flags apart. */
  ghost predicate ContextsAgree(ops: seq<Op>) {
    forall i: nat, j: nat | i < |ops| && j < |ops| && ops[i].Speculate? && ops[j].Speculate? ::
      ContextOf(ops[i].view) == ContextOf(ops[j].view) ==> Lenient(ops[i].view) == Lenient(ops[j].view)
  }

  predicate Sends(op: Op) { op.Speculate? && op.request.from.Some? }

  /** Different requests have different keys. */
  ghost predicate KeysDistinct(engine: Engine, ops: seq<Op>) {
    forall i: nat, j: nat | i < |ops| && j < |ops| && Sends(ops[i]) && Sends(ops[j]) ::
      Key(engine, ops[i].request) == Key(engine, ops[j].request) ==> CallOf(ops[i].request) == CallOf(ops[j].request)
  }

  lemma SameFrozenView(v: View, w: View)
    requires Lenient(v) == Lenient(w)
    ensures SpecView(v, Cow.CellsOf(w.layer.accounts)) == Lenient(v)
  {
    assert v.layer == w.layer;
    Cow.FrozenCellsRebuild(v.layer.accounts);
  }

  lemma HitIsFresh(engine: Engine, ops: seq<Op>, i: nat, j: nat, n: nat, s: Speculated)
    requires ContextsAgree(ops) && KeysDistinct(engine, ops)
    requires n < |ops| && ops[n].Speculate? && ops[n].request.from.Some?
    requires ComputedBy(engine, ops, i, j, ContextOf(ops[n].view), Key(engine, ops[n].request), s)
    ensures Fresh(engine, ops[n].view, ops[n].request) == Ok(s)
  {
    var v, r := ops[n].view, ops[n].request;
    assert Lenient(ops[i].view) == Lenient(v) && Lenient(ops[i].view) == Lenient(ops[j].view);
    assert CallOf(ops[i].request) == CallOf(r);
    SameFrozenView(ops[i].view, ops[j].view);
    FreshIsDirect(engine, v, r);
  }

  lemma MissIsFresh(engine: Engine, ops: seq<Op>, n: nat, p: Exec)
    requires ContextsAgree(ops) && n < |ops| && ops[n].Speculate? && ops[n].request.from.Some?
    requires Explained(engine, ops, p) && p.context == Some(ContextOf(ops[n].view))
    ensures SpecView(ops[n].view, CellsFor(p, ops[n].view)) == Lenient(ops[n].view)
  {
    hide EntryKnown, CellsFor;
    BaselineExplained(engine, ops, p, n);
    var j: nat :| FrozenBy(ops, j, ContextOf(ops[n].view), CellsFor(p, ops[n].view));
    SameFrozenView(ops[n].view, ops[j].view);
  }

  /** After any run of executions and invalidations, the next execution returns what a new executor would. */
  lemma ExecuteIsFresh(engine: Engine, ops: seq<Op>, v: View, r: Request)
    requires ContextsAgree(ops + [Speculate(v, r)]) && KeysDistinct(engine, ops + [Speculate(v, r)])
    ensures Execute(engine, After(engine, ops), v, r).1 == Fresh(engine, v, r)
  {
    hide FrozenBy, ComputedBy, After, KeysDistinct, ContextsAgree, CellsKnown, CellsFor, SpecView, Key;
    var all := ops + [Speculate(v, r)];
    var n := |ops|;
    var e := After(engine, ops);
    EveryEntryIsExplained(engine, ops);
    ExplainedLater(engine, ops, all[n], e);
    var p := Prepare(e, ContextOf(v));
    PrepareExplained(engine, all, e, ContextOf(v));
    if r.from.Some? {
      var k := (Key(engine, r), v.localBlock);
      if k in p.cache {
        assert EntryKnown(engine, all, ContextOf(v), k.0, p.cache[k]);
        var i: nat, j: nat :| ComputedBy(engine, all, i, j, ContextOf(v), k.0, p.cache[k]);
        HitIsFresh(engine, all, i, j, n, p.cache[k]);
      } else {
        MissIsFresh(engine, all, n, p);
        FreshIsDirect(engine, v, r);
      }
    }
  }

  // ---- When keys are distinct ----

  /** No request in the run names the zero address, and every number has its width. */
  ghost predicate NoZeroTargets(ops: seq<Op>) {
    forall i: nat | i < |ops| && Sends(ops[i]) ::
      ops[i].request.to != Some(ZERO_ADDRESS) && Sized(CallOf(ops[i].request))
  }

  ghost predicate Injective(hash: seq<nat> -> Hash) { forall x, y :: hash(x) == hash(y) ==> x == y }

  lemma NoZeroTargetsNoCollisions(engine: Engine, ops: seq<Op>)
    requires Injective(engine.hash) && NoZeroTargets(ops)
    ensures KeysDistinct(engine, ops)
  {
    forall i: nat, j: nat | i < |ops| && j < |ops| && Sends(ops[i]) && Sends(ops[j])
      && Key(engine, ops[i].request) == Key(engine, ops[j].request)
      ensures CallOf(ops[i].request) == CallOf(ops[j].request)
    {
      hide KeyBytes, Sized;
      var c, d := CallOf(ops[i].request), CallOf(ops[j].request);
      assert engine.hash(KeyBytes(c)) == engine.hash(KeyBytes(d));
      KeyBytesCollideIff(c, d);
    }
  }

  /** Speculative cache coherence, from what a caller can check. */
  lemma SpeculationIsCoherent(engine: Engine, ops: seq<Op>, v: View, r: Request)
    requires Injective(engine.hash) && NoZeroTargets(ops + [Speculate(v, r)]) && ContextsAgree(ops + [Speculate(v, r)])
    ensures Execute(engine, After(engine, ops), v, r).1 == Fresh(engine, v, r)
  {
    NoZeroTargetsNoCollisions(engine, ops + [Speculate(v, r)]);
    ExecuteIsFresh(engine, ops, v, r);
  }

  // ---- The restrictions are needed ----

  /** A creation and the same call to the zero address share a key: the second gets the first one's result. */
  lemma CreationHidesZeroCall(engine: Engine, e: Exec, v: View, r: Request)
    requires r.from.Some? && r.to.None?
    ensures var (e', first) := Execute(engine, e, v, r);
            first.Ok? ==> Execute(engine, e', v, r.(to := Some(ZERO_ADDRESS))).1 == first
  {
    hide Key, CallOf, SpecView, ReadSetOf, CellsFor;
    SameKey(engine, r);
  }

  lemma SameKey(engine: Engine, r: Request)
    requires r.from.Some? && r.to.None?
    ensures Key(engine, r.(to := Some(ZERO_ADDRESS))) == Key(engine, r)
  {
    hide BigEndian;
    assert KeyBytes(CallOf(r)) == KeyBytes(CallOf(r.(to := Some(ZERO_ADDRESS))));
  }

  /** On a miss, a baseline of the same context is harmless exactly when it still holds every dirty slot. */
  lemma BaselineIsExactIff(v: View, cells: Cells)
    ensures SpecView(v, cells) == Lenient(v) <==> Cow.Current(v.layer.accounts, cells)
  {
    Cow.RebuildIffCurrent(v.layer.accounts, cells);
  }

  /** Strictness flags never reach a speculation, so it may accept what the fork itself rejects. */
  lemma StrictnessIsIgnored(engine: Engine, v: View, r: Request)
    ensures Fresh(engine, v, r) == Fresh(engine, Lenient(v), r)
  {
    if r.from.Some? {
      FreshIsDirect(engine, v, r);
      FreshIsDirect(engine, Lenient(v), r);
    }
  }

  // ---- Invalidation ----

  /** What survives an invalidation for writes has none of them among its recorded reads and writes. */
  lemma SurvivorsAreUntouched(engine: Engine, ops: seq<Op>, writes: set<Cell>, k: (Hash, nat), a: Address, s: Word)
    requires k in DropWrites(After(engine, ops), writes).cache && (a, s) in writes
    ensures var d := After(engine, ops).cache[k].diff;
            a in d.accounts ==> s !in d.accounts[a].storageWritten && s !in d.accounts[a].storageRead
                                && !(d.accounts[a].infoChanged && s == 0)
  {
    hide After, CellsKnown, SpecView, Key;
    var e := After(engine, ops);
    EveryEntryIsExplained(engine, ops);
    assert k in e.cache && e.cache[k].readSet !! writes;
    assert EntryKnown(engine, ops, e.context.value, k.0, e.cache[k]);
    var i: nat, j: nat :| ComputedBy(engine, ops, i, j, e.context.value, k.0, e.cache[k]);
    var d := e.cache[k].diff;
    assert (a, s) !in ReadSetOf(d);
  }
}
