/** Copy-on-write storage branches: `CowState` in apps/mirage-rs/src/cow.rs. */
module Cow {
  import opened Prelude
  import opened ForkTypes

  type Cell = (Address, Word)

  class CowState {
    const baseline: map<Cell, Word>
    var overlay: map<Cell, Word>

    constructor Branch(baseline: map<Cell, Word>)
      ensures this.baseline == baseline && overlay == map[]
    {
      this.baseline := baseline;
      overlay := map[];
    }

    /** The branch's own writes hide the baseline. */
    function Read(a: Address, s: Word): Option<Word>
      reads this
    {
      if (a, s) in overlay then Some(overlay[(a, s)]) else Lookup(baseline, (a, s))
    }

    /** All the cells of the branch, its own writes over the baseline. */
    ghost function Cells(): (cells: map<Cell, Word>)
      reads this
      ensures overlay == map[] ==> cells == baseline
      ensures forall a: Address, s: Word :: Lookup(cells, (a, s)) == Read(a, s)
    {
      baseline + overlay
    }

    method Write(a: Address, s: Word, value: Word)
      modifies this
      ensures overlay == old(overlay)[(a, s) := value]
      ensures forall b: Address, t: Word :: Read(b, t) == if (b, t) == (a, s) then Some(value) else old(Read(b, t))
    {
      overlay := overlay[(a, s) := value];
    }
  }

  /** All dirty cells of a fork, frozen. */
  function CellsOf(m: Accounts): map<Cell, Word> {
    map a, s | a in m && s in m[a].storage :: (a, s) := m[a].storage[s]
  }

  /** The cells of every account outside `left`. */
  ghost predicate Frozen(cells: map<Cell, Word>, m: Accounts, left: set<Address>) {
    forall b, s :: Lookup(cells, (b, s)) == if b in m && b !in left then Lookup(m[b].storage, s) else None
  }

  /** `after` is `before` with the slots of one account, outside `left`, written over it. */
  ghost predicate Overwritten(before: map<Cell, Word>, after: map<Cell, Word>, a: Address, storage: map<Word, Word>,
                              left: set<Word>)
  {
    forall b, s :: Lookup(after, (b, s)) ==
      if b == a && s in storage && s !in left then Some(storage[s]) else Lookup(before, (b, s))
  }

  method FreezeAccount(before: map<Cell, Word>, a: Address, storage: map<Word, Word>) returns (cells: map<Cell, Word>)
    ensures Overwritten(before, cells, a, storage, {})
  {
    cells := before;
    var slots := storage.Keys;
    while slots != {}
      invariant slots <= storage.Keys && Overwritten(before, cells, a, storage, slots)
    {
      var s :| s in slots;
      cells := cells[(a, s) := storage[s]];
      slots := slots - {s};
    }
  }

  lemma FreezeStep(before: map<Cell, Word>, after: map<Cell, Word>, m: Accounts, left: set<Address>, a: Address)
    requires Frozen(before, m, left) && a in m && a in left && Overwritten(before, after, a, m[a].storage, {})
    ensures Frozen(after, m, left - {a})
  {
    forall b, s
      ensures Lookup(after, (b, s)) == if b in m && b !in left - {a} then Lookup(m[b].storage, s) else None
    {
      assert Lookup(before, (b, s)) == if b in m && b !in left then Lookup(m[b].storage, s) else None;
    }
  }

  lemma FreezeEnd(cells: map<Cell, Word>, m: Accounts)
    requires Frozen(cells, m, {})
    ensures cells == CellsOf(m)
  {
    var all := CellsOf(m);
    forall c | c in cells ensures c in all && all[c] == cells[c] {
      assert c == (c.0, c.1) && Lookup(cells, (c.0, c.1)) == Some(cells[c]);
    }
    forall c | c in all ensures c in cells {
      assert Lookup(cells, (c.0, c.1)) == Lookup(m[c.0].storage, c.1);
    }
  }

  method FreezeCells(m: Accounts) returns (cells: map<Cell, Word>)
    ensures cells == CellsOf(m)
  {
    hide Overwritten, CellsOf;
    cells := map[];
    var left := m.Keys;
    while left != {}
      invariant left <= m.Keys && Frozen(cells, m, left)
    {
      var a :| a in left;
      var next := FreezeAccount(cells, a, m[a].storage);
      FreezeStep(cells, next, m, left, a);
      cells := next;
      left := left - {a};
    }
    FreezeEnd(cells, m);
  }

  /** Account metadata from the template, slots through the branch. */
  function Rebuild(acc: DirtyAccount, a: Address, read: (Address, Word) -> Option<Word>): DirtyAccount {
    acc.(storage := map s | s in acc.storage && read(a, s).Some? :: read(a, s).value)
  }

  function RebuildAll(m: Accounts, read: (Address, Word) -> Option<Word>): Accounts {
    map a | a in m :: Rebuild(m[a], a, read)
  }

  function ReadOf(cells: map<Cell, Word>): (Address, Word) -> Option<Word> {
    (a: Address, s: Word) => Lookup(cells, (a, s))
  }

  /** The slots of `storage` outside `left`, as the branch reads them. */
  ghost predicate Reread(r: map<Word, Word>, storage: map<Word, Word>, a: Address, cells: map<Cell, Word>,
      left: set<Word>) {
    forall s :: Lookup(r, s) == if s in storage && s !in left then Lookup(cells, (a, s)) else None
  }

  method RereadAccount(a: Address, storage: map<Word, Word>, cow: CowState) returns (r: map<Word, Word>)
    ensures Reread(r, storage, a, cow.Cells(), {})
  {
    r := map[];
    var slots := storage.Keys;
    while slots != {}
      invariant slots <= storage.Keys && Reread(r, storage, a, cow.Cells(), slots)
    {
      var s :| s in slots;
      var value := cow.Read(a, s);
      if value.Some? {
        r := r[s := value.value];
      }
      slots := slots - {s};
    }
  }

  lemma SameLookups(m: map<Word, Word>, n: map<Word, Word>)
    requires forall s :: Lookup(m, s) == Lookup(n, s)
    ensures m == n
  {
    forall s ensures s in m <==> s in n
    ensures s in m ==> m[s] == n[s]
    {
      assert Lookup(m, s) == Lookup(n, s);
    }
  }

  lemma RebuiltLookup(acc: DirtyAccount, a: Address, cells: map<Cell, Word>)
    ensures Reread(Rebuild(acc, a, ReadOf(cells)).storage, acc.storage, a, cells, {})
  {
  }

  lemma RereadIsRebuild(acc: DirtyAccount, a: Address, cells: map<Cell, Word>, r: map<Word, Word>)
    requires Reread(r, acc.storage, a, cells, {})
    ensures acc.(storage := r) == Rebuild(acc, a, ReadOf(cells))
  {
    RebuiltLookup(acc, a, cells);
    SameLookups(r, Rebuild(acc, a, ReadOf(cells)).storage);
  }

  method Materialize(m: Accounts, cow: CowState) returns (r: Accounts)
    ensures r == RebuildAll(m, ReadOf(cow.Cells()))
  {
    hide Reread, Rebuild, ReadOf;
    r := map[];
    var left := m.Keys;
    while left != {}
      invariant left <= m.Keys
      invariant r == map a | a in m && a !in left :: Rebuild(m[a], a, ReadOf(cow.Cells()))
    {
      var a :| a in left;
      var storage := RereadAccount(a, m[a].storage, cow);
      RereadIsRebuild(m[a], a, cow.Cells(), storage);
      r := r[a := m[a].(storage := storage)];
      left := left - {a};
    }
  }

  /** `cells` hold every dirty slot of every account, with its current value. */
  ghost predicate Current(m: Accounts, cells: map<Cell, Word>) {
    forall a, s :: a in m && s in m[a].storage ==> Lookup(cells, (a, s)) == Some(m[a].storage[s])
  }

  lemma RebuiltSlots(acc: DirtyAccount, a: Address, read: (Address, Word) -> Option<Word>)
    ensures Rebuild(acc, a, read) == acc <==> forall s :: s in acc.storage ==> read(a, s) == Some(acc.storage[s])
  {
    var r := Rebuild(acc, a, read).storage;
    if forall s :: s in acc.storage ==> read(a, s) == Some(acc.storage[s]) {
      assert r == acc.storage;
    }
    if r == acc.storage {
      forall s | s in acc.storage ensures read(a, s) == Some(acc.storage[s]) {
        assert s in r;
      }
    }
  }

  /** Rebuilding over frozen cells gives the accounts back exactly when the cells still hold every dirty slot. */
  lemma RebuildIffCurrent(m: Accounts, cells: map<Cell, Word>)
    ensures RebuildAll(m, ReadOf(cells)) == m <==> Current(m, cells)
  {
    var read := ReadOf(cells);
    forall a | a in m
      ensures RebuildAll(m, read)[a] == m[a]
              <==> forall s :: s in m[a].storage ==> Lookup(cells, (a, s)) == Some(m[a].storage[s])
    {
      RebuiltSlots(m[a], a, read);
    }
    hide Rebuild;
  }

  lemma FrozenCellsRebuild(m: Accounts)
    ensures RebuildAll(m, ReadOf(CellsOf(m))) == m
  {
    RebuildIffCurrent(m, CellsOf(m));
  }
}

/** Scenario sets and their two run modes: apps/mirage-rs/src/scenario.rs. */
module Scenarios {
  import opened Prelude
  import opened MapSum
  import opened ForkTypes
  import Dirty
  import Cow
  import Classifier

  /** Block environment and execution flags; no transaction changes them. */
  datatype Env = Env(timestamp: nat, baseFee: nat, coinbase: Address, prevRandao: Hash, chainId: nat,
                     impersonated: set<Address>, strictNonce: bool, strictBalance: bool, verifySignatures: bool)

  /** `ledger` stands for the receipt, transaction and block indexes, `extras` for filters and fork metadata. */
  datatype Fork = Fork(store: Dirty.Store, demote: bool, localBlock: nat, env: Env, ledger: seq<string>, extras: string)

  /** Everything execution depends on. */
  datatype View = View(layer: Dirty.Layer, demote: bool, localBlock: nat, env: Env)

  function ViewOf(f: Fork): View { View(f.store.layer, f.demote, f.localBlock, f.env) }

  datatype Request = Request(from: Option<Address>, to: Option<Address>, value: Word, gas: Option<nat>, data: string)

  /** `Failed` with `lost` is an EVM-level error: the placeholder database stays behind. */
  datatype Outcome = Done(layer: Dirty.Layer, localBlock: nat, diff: StateDiff)
                   | Failed(error: string, layer: Dirty.Layer, lost: bool)

  /** Execution, balance reads and fixture assertions, as deterministic functions of the view. */
  datatype World = World(
    transact: (View, Request) -> Outcome,
    balance: (View, Address) -> Word,
    assess: (View, Scenario) -> (Dirty.Layer, Option<string>),
    config: Classifier.Config)

  datatype Scenario = Scenario(
    id: string, name: string, transactions: seq<Request>, track: set<Address>, maxGas: Option<nat>, assertions: string)

  datatype Status = Success | Reverted | GasExceeded | Timeout | Error(message: string)

  datatype ScenarioResult = ScenarioResult(
    id: string, name: string, status: Status, gasUsed: nat, pnl: int, diffAccounts: nat, diffSlots: nat,
    finalBalances: map<Address, Word>, logs: seq<string>, revertReason: Option<string>)

  const I128_MAX: int := 0x7FFF_FFFF_FFFF_FFFF_FFFF_FFFF_FFFF_FFFF

  function Balances(world: World, v: View, track: set<Address>): map<Address, Word> {
    map a | a in track :: world.balance(v, a)
  }

  /** A saturating fold over the values, clamped to i128. */
  ghost function Clamped(balances: map<Address, Word>): int { Min(Min(Sum(balances), WORD_MAX), I128_MAX) }

  /** The fold visits the values in any order and saturates on the way; the total is the same. */
  method FoldBalances(balances: map<Address, Word>) returns (total: nat)
    ensures total == Min(Sum(balances), WORD_MAX)
  {
    total := 0;
    var rest := balances;
    ghost var seen: nat := 0;
    while rest != map[]
      invariant total == Min(seen, WORD_MAX) && seen + Sum(rest) == Sum(balances)
      decreases |rest|
    {
      var a :| a in rest;
      SumRemove(rest, a);
      Smaller(rest, a);
      total := SatAdd(total, rest[a]);
      seen := seen + rest[a];
      rest := rest - {a};
    }
  }

  method BalanceDelta(initial: map<Address, Word>, final: map<Address, Word>) returns (delta: int)
    ensures delta == Clamped(final) - Clamped(initial)
    ensures 0 - I128_MAX <= delta <= I128_MAX
  {
    var i := FoldBalances(initial);
    var f := FoldBalances(final);
    delta := Min(f, I128_MAX) - Min(i, I128_MAX);
  }

  // ---- One scenario ----

  /** `lost` remembers that the database was replaced by its placeholder. */
  datatype Progress = Progress(
    fork: Fork, status: Status, gasUsed: nat, logs: seq<string>, diffAccounts: nat, diffSlots: nat,
    revertReason: Option<string>, lost: bool)

  const U64: nat := U64_MAX

  function Sizes(diff: StateDiff): map<Address, nat> { map a | a in diff.accounts :: |diff.accounts[a].storageWritten| }

  ghost function WrittenCount(diff: StateDiff): nat { Sum(Sizes(diff)) }

  function Context(f: Fork): Classifier.Context { Classifier.Context(f.store.layer.unwatchList, f.demote) }

  /**
   What a run does not choose: the order in which it happens to iterate the accounts of the diff of transaction i,
   and whether its deadline has passed when transaction i is over.
   */
  datatype Pick = Pick(order: (nat, StateDiff) -> seq<Address>, late: nat -> bool)

  ghost predicate VisitsAll(pick: Pick) {
    forall i: nat, diff: StateDiff :: Classifier.Visits(pick.order(i, diff), diff.accounts.Keys)
  }

  /** Two runs that time out alike; in particular two runs that never time out. */
  ghost predicate Matched(pick: Pick, pick': Pick) {
    VisitsAll(pick) && VisitsAll(pick') && forall i: nat :: pick.late(i) == pick'.late(i)
  }

  ghost function OneTx(world: World, p: Progress, r: Request, i: nat, maxGas: Option<nat>, pick: Pick): Progress {
    if r.from.None? then p.(status := Error("missing from")) else
    match world.transact(ViewOf(p.fork), r)
    case Failed(error, layer, lost) =>
      var store := if lost then Dirty.Store(Dirty.EMPTY_LAYER, map[], 0) else p.fork.store.(layer := layer);
      p.(fork := p.fork.(store := store, demote := p.fork.demote && !lost),
         status := Error(error), revertReason := Some(error), lost := lost)
    case Done(layer, localBlock, diff) =>
      var after := p.fork.(store := p.fork.store.(layer := layer), localBlock := localBlock,
                           ledger := p.fork.ledger + [r.data]);
      var gas := Min(p.gasUsed + diff.gasUsed, U64);
      if !diff.success then
        p.(fork := after, status := Reverted, revertReason := Some(diff.output), gasUsed := gas,
           logs := p.logs + diff.logs)
      else
        var watched := Classifier.Apply(world.config, Context(after), layer.watchList, diff, localBlock,
          pick.order(i, diff)).0;
        p.(fork := after.(store := after.store.(layer := layer.(watchList := watched))),
           status := if maxGas.Some? && gas > maxGas.value then GasExceeded
                     else if pick.late(i) then Timeout else Success,
           gasUsed := gas, logs := p.logs + diff.logs,
           diffAccounts := p.diffAccounts + |diff.accounts|, diffSlots := p.diffSlots + WrittenCount(diff))
  }

  /** The transactions from number `i` on, until one ends the scenario. */
  ghost function Txs(world: World, p: Progress, s: Scenario, i: nat, pick: Pick): Progress
    requires i <= |s.transactions|
    decreases |s.transactions| - i
  {
    if i == |s.transactions| || p.status != Success then p
    else Txs(world, OneTx(world, p, s.transactions[i], i, s.maxGas, pick), s, i + 1, pick)
  }

  function Begin(f: Fork): Progress { Progress(f, Success, 0, [], 0, 0, None, false) }

  ghost function Played(world: World, f: Fork, s: Scenario, pick: Pick): Progress { Txs(world, Begin(f), s, 0, pick) }

  /** Assertions run only after full success and may memoise token slots. */
  ghost function Judged(world: World, p: Progress, s: Scenario): Progress {
    if p.status != Success then p else
    var (layer, failure) := world.assess(ViewOf(p.fork), s);
    var q := p.(fork := p.fork.(store := p.fork.store.(layer := layer)));
    if failure.Some? then q.(status := Error(failure.value), revertReason := failure) else q
  }

  ghost function ResultOf(world: World, before: View, p: Progress, s: Scenario): ScenarioResult {
    var final := Balances(world, ViewOf(p.fork), s.track);
    ScenarioResult(s.id, s.name, p.status, p.gasUsed, Clamped(final) - Clamped(Balances(world, before, s.track)),
                   p.diffAccounts, p.diffSlots, final, p.logs, p.revertReason)
  }

  ghost function ExecuteScenario(world: World, f: Fork, s: Scenario, pick: Pick): (Progress, ScenarioResult) {
    var p := Judged(world, Played(world, f, s, pick), s);
    (p, ResultOf(world, ViewOf(f), p, s))
  }

  method CountWritten(diff: StateDiff) returns (count: nat)
    ensures count == WrittenCount(diff)
  {
    count := 0;
    var rest := Sizes(diff);
    while rest != map[]
      invariant count + Sum(rest) == WrittenCount(diff)
      decreases |rest|
    {
      var a :| a in rest;
      SumRemove(rest, a);
      Smaller(rest, a);
      count := count + rest[a];
      rest := rest - {a};
    }
  }

  /** The body of the loop over transactions. */
  method RunTx(world: World, p: Progress, r: Request, i: nat, maxGas: Option<nat>, pick: Pick) returns (q: Progress)
    ensures q == OneTx(world, p, r, i, maxGas, pick)
  {
    hide Classifier.Apply, WrittenCount;
    if r.from.None? {
      return p.(status := Error("missing from"));
    }
    match world.transact(ViewOf(p.fork), r) {
      case Failed(error, layer, lost) =>
        var store := if lost then Dirty.Store(Dirty.EMPTY_LAYER, map[], 0) else p.fork.store.(layer := layer);
        q := p.(fork := p.fork.(store := store, demote := p.fork.demote && !lost),
                status := Error(error), revertReason := Some(error), lost := lost);
      case Done(layer, localBlock, diff) =>
        q := p.(fork := p.fork.(store := p.fork.store.(layer := layer), localBlock := localBlock,
                                ledger := p.fork.ledger + [r.data]),
                gasUsed := Min(p.gasUsed + diff.gasUsed, U64), logs := p.logs + diff.logs);
        if !diff.success {
          return q.(status := Reverted, revertReason := Some(diff.output));
        }
        var watched := Classifier.Apply(world.config, Context(q.fork), layer.watchList, diff, localBlock,
          pick.order(i, diff)).0;
        var written := CountWritten(diff);
        q := q.(fork := q.fork.(store := q.fork.store.(layer := layer.(watchList := watched))), status := Success,
                diffAccounts := q.diffAccounts + |diff.accounts|, diffSlots := q.diffSlots + written);
        if maxGas.Some? && q.gasUsed > maxGas.value {
          return q.(status := GasExceeded);
        }
        if pick.late(i) {
          q := q.(status := Timeout);
        }
    }
  }

  method RunScenario(world: World, f: Fork, s: Scenario, pick: Pick) returns (p: Progress, result: ScenarioResult)
    ensures (p, result) == ExecuteScenario(world, f, s, pick)
  {
    hide OneTx, Clamped, Balances;
    var initial := Balances(world, ViewOf(f), s.track);
    p := Begin(f);
    var i := 0;
    while i < |s.transactions| && p.status == Success
      invariant i <= |s.transactions|
      invariant Txs(world, p, s, i, pick) == Played(world, f, s, pick)
    {
      p := RunTx(world, p, s.transactions[i], i, s.maxGas, pick);
      i := i + 1;
    }
    if p.status == Success {
      var (layer, failure) := world.assess(ViewOf(p.fork), s);
      p := p.(fork := p.fork.(store := p.fork.store.(layer := layer)));
      if failure.Some? {
        p := p.(status := Error(failure.value), revertReason := failure);
      }
    }
    var final := Balances(world, ViewOf(p.fork), s.track);
    var delta := BalanceDelta(initial, final);
    result := ScenarioResult(s.id, s.name, p.status, p.gasUsed, delta, p.diffAccounts, p.diffSlots, final, p.logs,
                             p.revertReason);
  }

  // ---- Same view, same result ----

  /** Whenever the classifier runs, its outcome does not depend on the iteration order. */
  ghost predicate RoomOnTheList(world: World, p: Progress, s: Scenario, i: nat, pick: Pick)
    requires i <= |s.transactions|
    decreases |s.transactions| - i
  {
    i == |s.transactions| || p.status != Success || s.transactions[i].from.None? ||
    (var o := world.transact(ViewOf(p.fork), s.transactions[i]);
     && (o.Done? && o.diff.success ==>
           var c := Classifier.Context(o.layer.unwatchList, p.fork.demote);
           Classifier.Fits(world.config, c, o.layer.watchList, o.diff)
             || |o.layer.watchList| >= world.config.maxWatched)
     && RoomOnTheList(world, OneTx(world, p, s.transactions[i], i, s.maxGas, pick), s, i + 1, pick))
  }

  ghost predicate Roomy(world: World, f: Fork, s: Scenario, pick: Pick) { RoomOnTheList(world, Begin(f), s, 0, pick) }

  /** Progress seen through the view: forks may differ in snapshots, ledger and extras only. */
  ghost predicate Alike(p: Progress, q: Progress) {
    && ViewOf(p.fork) == ViewOf(q.fork) && p.status == q.status && p.gasUsed == q.gasUsed && p.logs == q.logs
    && p.diffAccounts == q.diffAccounts && p.diffSlots == q.diffSlots && p.revertReason == q.revertReason
       && p.lost == q.lost
  }

  lemma OneTxAlike(world: World, p: Progress, q: Progress, r: Request, i: nat, maxGas: Option<nat>, pick: Pick,
      pick': Pick)
    requires Alike(p, q) && Matched(pick, pick')
    requires var o := world.transact(ViewOf(p.fork), r);
             r.from.Some? && o.Done? && o.diff.success ==>
               var c := Classifier.Context(o.layer.unwatchList, p.fork.demote);
               Classifier.Fits(world.config, c, o.layer.watchList, o.diff)
                 || |o.layer.watchList| >= world.config.maxWatched
    ensures Alike(OneTx(world, p, r, i, maxGas, pick), OneTx(world, q, r, i, maxGas, pick'))
  {
    var o := world.transact(ViewOf(p.fork), r);
    if r.from.Some? && o.Done? && o.diff.success {
      var c := Classifier.Context(o.layer.unwatchList, p.fork.demote);
      Classifier.OrderFreeIffFits(world.config, c, o.layer.watchList, o.diff, o.localBlock);
      assert Classifier.Visits(pick.order(i, o.diff), o.diff.accounts.Keys)
        && Classifier.Visits(pick'.order(i, o.diff), o.diff.accounts.Keys);
      assert Classifier.Apply(world.config, c, o.layer.watchList, o.diff, o.localBlock, pick.order(i, o.diff))
          == Classifier.Apply(world.config, c, o.layer.watchList, o.diff, o.localBlock, pick'.order(i, o.diff));
    }
  }

  lemma {:induction false} TxsAlike(world: World, p: Progress, q: Progress, s: Scenario, i: nat, pick: Pick,
      pick': Pick)
    requires i <= |s.transactions| && Alike(p, q) && Matched(pick, pick')
    requires RoomOnTheList(world, p, s, i, pick)
    ensures Alike(Txs(world, p, s, i, pick), Txs(world, q, s, i, pick'))
    decreases |s.transactions| - i
  {
    if i < |s.transactions| && p.status == Success {
      var r := s.transactions[i];
      hide OneTx;
      OneTxAlike(world, p, q, r, i, s.maxGas, pick, pick');
      if r.from.Some? {
        TxsAlike(world, OneTx(world, p, r, i, s.maxGas, pick), OneTx(world, q, r, i, s.maxGas, pick'), s, i + 1, pick,
          pick');
      } else {
        MissingFromEnds(world, p, r, i, s.maxGas, pick);
        MissingFromEnds(world, q, r, i, s.maxGas, pick');
      }
    }
  }

  lemma MissingFromEnds(world: World, p: Progress, r: Request, i: nat, maxGas: Option<nat>, pick: Pick)
    requires r.from.None?
    ensures OneTx(world, p, r, i, maxGas, pick).status != Success
  {
  }

  lemma JudgedAlike(world: World, p: Progress, q: Progress, s: Scenario, before: View)
    requires Alike(p, q)
    ensures Alike(Judged(world, p, s), Judged(world, q, s))
    ensures ResultOf(world, before, Judged(world, p, s), s) == ResultOf(world, before, Judged(world, q, s), s)
  {
    hide Clamped, Balances;
  }

  /** Forks with equal views give equal results, whatever orders their hash maps iterate in, if they time out alike. */
  lemma SameViewSameResult(world: World, f: Fork, g: Fork, s: Scenario, pick: Pick, pick': Pick)
    requires ViewOf(f) == ViewOf(g) && Matched(pick, pick') && Roomy(world, f, s, pick)
    ensures ExecuteScenario(world, f, s, pick).1 == ExecuteScenario(world, g, s, pick').1
    ensures Alike(ExecuteScenario(world, f, s, pick).0, ExecuteScenario(world, g, s, pick').0)
  {
    hide Txs, ResultOf, Judged, VisitsAll, Matched, RoomOnTheList;
    TxsAlike(world, Begin(f), Begin(g), s, 0, pick, pick');
    JudgedAlike(world, Played(world, f, s, pick), Played(world, g, s, pick'), s, ViewOf(f));
  }

  // ---- The two run modes ----

  datatype ScenarioSet = ScenarioSet(baselineSnapshotId: nat, baselineFork: Option<Fork>, scenarios: seq<Scenario>)

  function SnapshotFork(f: Fork): Fork { f.(store := Dirty.TakeSnapshot(f.store, f.localBlock, |f.ledger|)) }

  /** The result of `revert` is ignored; a dead id changes nothing. */
  function RevertFork(f: Fork, id: nat): Fork {
    var (store, at) := Dirty.Revert(f.store, id);
    if at.Some? then f.(store := store, localBlock := at.value.0) else f
  }

  /** The fork a parallel task runs on: account data from the template, storage through a copy-on-write branch. */
  function FromTemplateAndCow(t: Fork, cells: map<Cow.Cell, Word>): Fork {
    var layer := t.store.layer.(accounts := Cow.RebuildAll(t.store.layer.accounts, Cow.ReadOf(cells)));
    Fork(Dirty.Store(layer, map[], 0), t.demote, t.localBlock, t.env, t.ledger, "")
  }

  /** The copy-on-write fork reproduces the template's dirty layer and flags exactly. */
  lemma CowForkSameView(t: Fork)
    ensures ViewOf(FromTemplateAndCow(t, Cow.CellsOf(t.store.layer.accounts))) == ViewOf(t)
  {
    Cow.FrozenCellsRebuild(t.store.layer.accounts);
  }

  /** What the parallel task of one scenario reports. */
  ghost function Task(world: World, t: Fork, s: Scenario, pick: Pick): ScenarioResult {
    ExecuteScenario(world, FromTemplateAndCow(t, Cow.CellsOf(t.store.layer.accounts)), s, pick).1
  }

  /** `cells` are frozen once; every task branches off them and materialises its own fork. */
  method RunTask(world: World, t: Fork, cells: map<Cow.Cell, Word>, s: Scenario, pick: Pick) returns (r: ScenarioResult)
    requires cells == Cow.CellsOf(t.store.layer.accounts)
    ensures r == Task(world, t, s, pick)
  {
    hide ExecuteScenario;
    var cow := new Cow.CowState.Branch(cells);
    var accounts := Cow.Materialize(t.store.layer.accounts, cow);
    var fork := Fork(Dirty.Store(t.store.layer.(accounts := accounts), map[], 0), t.demote, t.localBlock, t.env,
      t.ledger, "");
    var p: Progress;
    p, r := RunScenario(world, fork, s, pick);
  }

  method RunParallel(world: World, live: Fork, set_: ScenarioSet, picks: nat -> Pick)
    returns (results: seq<ScenarioResult>)
    ensures results == Parallel(world, live, set_, 0, picks)
  {
    hide Task;
    var t := if set_.baselineFork.Some? then set_.baselineFork.value else live;
    var cells := Cow.FreezeCells(t.store.layer.accounts);
    results := [];
    for i := 0 to |set_.scenarios|
      invariant results + Parallel(world, live, set_, i, picks) == Parallel(world, live, set_, 0, picks)
    {
      var r := RunTask(world, t, cells, set_.scenarios[i], picks(i));
      assert results + Parallel(world, live, set_, i, picks)
        == results + [r] + Parallel(world, live, set_, i + 1, picks);
      results := results + [r];
    }
  }

  ghost function Parallel(world: World, live: Fork, set_: ScenarioSet, i: nat, picks: nat -> Pick): seq<ScenarioResult>
    requires i <= |set_.scenarios|
    decreases |set_.scenarios| - i
  {
    if i == |set_.scenarios| then [] else
    var t := if set_.baselineFork.Some? then set_.baselineFork.value else live;
    [Task(world, t, set_.scenarios[i], picks(i))] + Parallel(world, live, set_, i + 1, picks)
  }

  /** One turn of the sequential loop; the result and the fork the next turn starts from. */
  ghost function Turn(world: World, working: Fork, set_: ScenarioSet, i: nat, pick: Pick): (Fork, ScenarioResult)
    requires i < |set_.scenarios|
  {
    var start := if set_.baselineFork.Some? then set_.baselineFork.value else working;
    if set_.baselineSnapshotId == 0 then
      var (p, r) := ExecuteScenario(world, SnapshotFork(start), set_.scenarios[i], pick);
      (RevertFork(p.fork, start.store.nextId), r)
    else
      var (p, r) := ExecuteScenario(world, start, set_.scenarios[i], pick);
      (p.fork, r)
  }

  ghost function Sequential(world: World, working: Fork, set_: ScenarioSet, i: nat, picks: nat -> Pick)
    : seq<ScenarioResult>
    requires i <= |set_.scenarios|
    decreases |set_.scenarios| - i
  {
    if i == |set_.scenarios| then [] else
    var (next, r) := Turn(world, working, set_, i, picks(i));
    [r] + Sequential(world, next, set_, i + 1, picks)
  }

  /** The fork the live state adopts once turns `i` onward are over. */
  ghost function SequentialEnd(world: World, working: Fork, set_: ScenarioSet, i: nat, picks: nat -> Pick): Fork
    requires i <= |set_.scenarios|
    decreases |set_.scenarios| - i
  {
    if i == |set_.scenarios| then working
    else SequentialEnd(world, Turn(world, working, set_, i, picks(i)).0, set_, i + 1, picks)
  }

  method RunTurn(world: World, working: Fork, set_: ScenarioSet, i: nat, pick: Pick)
    returns (next: Fork, r: ScenarioResult)
    requires i < |set_.scenarios|
    ensures (next, r) == Turn(world, working, set_, i, pick)
  {
    hide ExecuteScenario;
    next := if set_.baselineFork.Some? then set_.baselineFork.value else working;
    var id := set_.baselineSnapshotId;
    if set_.baselineSnapshotId == 0 {
      id := next.store.nextId;
      next := SnapshotFork(next);
    }
    var p: Progress;
    p, r := RunScenario(world, next, set_.scenarios[i], pick);
    next := p.fork;
    if set_.baselineSnapshotId == 0 {
      next := RevertFork(next, id);
    }
  }

  /** The sequential loop, over the fork it is given or the baseline fork. */
  method RunSet(world: World, forkIn: Fork, set_: ScenarioSet, picks: nat -> Pick)
    returns (results: seq<ScenarioResult>, working: Fork)
    ensures var first := if set_.baselineFork.Some? then set_.baselineFork.value else forkIn;
            && results == Sequential(world, first, set_, 0, picks)
            && working == SequentialEnd(world, first, set_, 0, picks)
  {
    hide Turn;
    working := if set_.baselineFork.Some? then set_.baselineFork.value else forkIn;
    ghost var first := working;
    results := [];
    for i := 0 to |set_.scenarios|
      invariant results + Sequential(world, working, set_, i, picks) == Sequential(world, first, set_, 0, picks)
      invariant SequentialEnd(world, working, set_, i, picks) == SequentialEnd(world, first, set_, 0, picks)
    {
      ghost var before := working;
      var r: ScenarioResult;
      working, r := RunTurn(world, working, set_, i, picks(i));
      assert results + Sequential(world, before, set_, i, picks)
        == results + [r] + Sequential(world, working, set_, i + 1, picks);
      results := results + [r];
    }
  }

  /** A task on the copy-on-write fork reports what any fork with the template's view does. */
  lemma TaskIsFaithful(world: World, t: Fork, f: Fork, s: Scenario, pick: Pick, pick': Pick)
    requires ViewOf(f) == ViewOf(t) && Matched(pick, pick') && Roomy(world, t, s, pick)
    ensures ExecuteScenario(world, f, s, pick).1 == Task(world, t, s, pick')
    ensures Alike(ExecuteScenario(world, t, s, pick).0, ExecuteScenario(world, f, s, pick).0)
  {
    assert Matched(pick, pick);
    hide ExecuteScenario, Alike, Roomy, FromTemplateAndCow, ViewOf, VisitsAll, Matched;
    var cow := FromTemplateAndCow(t, Cow.CellsOf(t.store.layer.accounts));
    CowForkSameView(t);
    SameViewSameResult(world, t, cow, s, pick, pick');
    SameViewSameResult(world, t, f, s, pick, pick);
  }

  /** Both runs iterate maps in real orders and time out alike, and the watch list never runs tight. */
  ghost predicate Orderly(world: World, f: Fork, set_: ScenarioSet, picks: nat -> Pick, picks': nat -> Pick) {
    forall j: nat :: j < |set_.scenarios| ==>
      Matched(picks(j), picks'(j)) && Roomy(world, f, set_.scenarios[j], picks(j))
  }

  lemma BaselineTurn(world: World, working: Fork, set_: ScenarioSet, i: nat, pick: Pick, pick': Pick)
    requires i < |set_.scenarios| && set_.baselineFork.Some? && Matched(pick, pick')
    requires Roomy(world, set_.baselineFork.value, set_.scenarios[i], pick)
    ensures Turn(world, working, set_, i, pick).1 == Task(world, set_.baselineFork.value, set_.scenarios[i], pick')
  {
    var b := set_.baselineFork.value;
    assert ViewOf(SnapshotFork(b)) == ViewOf(b);
    hide ExecuteScenario, Task, VisitsAll, Matched, Roomy, Alike, ViewOf, RevertFork, SnapshotFork;
    var start := if set_.baselineSnapshotId == 0 then SnapshotFork(b) else b;
    TaskIsFaithful(world, b, start, set_.scenarios[i], pick, pick');
  }

  lemma BaselineStep(world: World, working: Fork, live: Fork, set_: ScenarioSet, i: nat,
                     picks: nat -> Pick, picks': nat -> Pick)
    requires i < |set_.scenarios| && set_.baselineFork.Some?
    requires Orderly(world, set_.baselineFork.value, set_, picks, picks')
    requires Sequential(world, Turn(world, working, set_, i, picks(i)).0, set_, i + 1, picks)
             == Parallel(world, live, set_, i + 1, picks')
    ensures Sequential(world, working, set_, i, picks) == Parallel(world, live, set_, i, picks')
  {
    hide Turn, Task, VisitsAll, Matched, Roomy;
    BaselineTurn(world, working, set_, i, picks(i), picks'(i));
  }

  /** With a baseline fork the two modes agree on every scenario, for every snapshot id. */
  lemma {:induction false} BaselineModesAgree(world: World, working: Fork, live: Fork, set_: ScenarioSet, i: nat,
                                              picks: nat -> Pick, picks': nat -> Pick)
    requires i <= |set_.scenarios| && set_.baselineFork.Some?
    requires Orderly(world, set_.baselineFork.value, set_, picks, picks')
    ensures Sequential(world, working, set_, i, picks) == Parallel(world, live, set_, i, picks')
    decreases |set_.scenarios| - i
  {
    hide ExecuteScenario, Task, VisitsAll, Matched, Roomy, Alike, ViewOf, RevertFork, SnapshotFork, Played, Turn,
      Orderly;
    if i < |set_.scenarios| {
      var next := Turn(world, working, set_, i, picks(i)).0;
      BaselineModesAgree(world, next, live, set_, i + 1, picks, picks');
      BaselineStep(world, working, live, set_, i, picks, picks');
    }
  }

  // ---- When a database is lost ----

  /** The progress of a scenario before its transaction `k`. */
  ghost function Before(world: World, f: Fork, s: Scenario, pick: Pick, k: nat): Progress
    requires k <= |s.transactions|
  {
    if k == 0 then Begin(f) else
    var p := Before(world, f, s, pick, k - 1);
    if p.status == Success then OneTx(world, p, s.transactions[k - 1], k - 1, s.maxGas, pick) else p
  }

  /** Transaction `k` is reached, and the EVM refuses it. */
  ghost predicate LosesAt(world: World, f: Fork, s: Scenario, pick: Pick, k: nat) {
    && k < |s.transactions| && s.transactions[k].from.Some?
    && var p := Before(world, f, s, pick, k);
    p.status == Success && var o := world.transact(ViewOf(p.fork), s.transactions[k]); o.Failed? && o.lost
  }

  lemma {:induction false} PlayedFrom(world: World, f: Fork, s: Scenario, pick: Pick, k: nat)
    requires k <= |s.transactions|
    ensures Txs(world, Before(world, f, s, pick, k), s, k, pick) == Played(world, f, s, pick)
  {
    if k > 0 {
      PlayedFrom(world, f, s, pick, k - 1);
      hide OneTx;
      var p := Before(world, f, s, pick, k - 1);
      if p.status != Success {
        EndedStays(world, p, s, k, pick);
      }
    }
  }

  lemma EndedStays(world: World, p: Progress, s: Scenario, k: nat, pick: Pick)
    requires k <= |s.transactions| && p.status != Success
    ensures Txs(world, p, s, k, pick) == p
  {
  }

  lemma OneTxLosesIff(world: World, p: Progress, r: Request, i: nat, maxGas: Option<nat>, pick: Pick)
    requires p.status == Success && !p.lost
    ensures var o := world.transact(ViewOf(p.fork), r);
            OneTx(world, p, r, i, maxGas, pick).lost <==> r.from.Some? && o.Failed? && o.lost
  {
    hide Classifier.Apply, WrittenCount;
  }

  lemma OneTxLostEnds(world: World, p: Progress, r: Request, i: nat, maxGas: Option<nat>, pick: Pick)
    requires !p.lost && OneTx(world, p, r, i, maxGas, pick).lost
    ensures OneTx(world, p, r, i, maxGas, pick).status != Success
  {
    hide Classifier.Apply, WrittenCount;
  }

  lemma {:induction false} BeforeLostIff(world: World, f: Fork, s: Scenario, pick: Pick, k: nat)
    requires k <= |s.transactions|
    ensures var p := Before(world, f, s, pick, k);
            (p.lost <==> exists j: nat :: j < k && LosesAt(world, f, s, pick, j)) && (p.lost ==> p.status != Success)
  {
    hide LosesAt, OneTx;
    if k > 0 {
      BeforeLostIff(world, f, s, pick, k - 1);
      BeforeLostStep(world, f, s, pick, k - 1);
      hide Before;
    }
  }

  lemma BeforeLostStep(world: World, f: Fork, s: Scenario, pick: Pick, k: nat)
    requires k < |s.transactions|
            && (Before(world, f, s, pick, k).lost ==> Before(world, f, s, pick, k).status != Success)
    ensures var p, q := Before(world, f, s, pick, k), Before(world, f, s, pick, k + 1);
            (q.lost <==> p.lost || LosesAt(world, f, s, pick, k)) && (q.lost ==> q.status != Success)
  {
    hide OneTx;
    var p, r := Before(world, f, s, pick, k), s.transactions[k];
    if p.status == Success {
      OneTxLosesIff(world, p, r, k, s.maxGas, pick);
      if OneTx(world, p, r, k, s.maxGas, pick).lost {
        OneTxLostEnds(world, p, r, k, s.maxGas, pick);
      }
    }
  }

  /** A scenario loses the database exactly when it reaches a transaction that the EVM refuses with an error. */
  lemma LostIff(world: World, f: Fork, s: Scenario, pick: Pick)
    ensures ExecuteScenario(world, f, s, pick).0.lost
            <==> exists k: nat :: k < |s.transactions| && LosesAt(world, f, s, pick, k)
  {
    var n := |s.transactions|;
    PlayedFrom(world, f, s, pick, n);
    BeforeLostIff(world, f, s, pick, n);
    hide Before, LosesAt, OneTx;
  }

  // ---- A nonzero snapshot id instead of a baseline fork ----

  /** The scenario leaves the view as it found it. */
  ghost predicate LeavesView(world: World, f: Fork, s: Scenario, pick: Pick) {
    ViewOf(ExecuteScenario(world, f, s, pick).0.fork) == ViewOf(f)
  }

  /** Without any revert a turn still reports what its task does, and the next one starts right exactly if it left
      the view. */
  lemma UnrevertedTurn(world: World, working: Fork, live: Fork, set_: ScenarioSet, i: nat, pick: Pick, pick': Pick)
    requires i < |set_.scenarios| && set_.baselineFork.None? && set_.baselineSnapshotId != 0
    requires ViewOf(working) == ViewOf(live) && Matched(pick, pick') && Roomy(world, live, set_.scenarios[i], pick)
    ensures var (next, r) := Turn(world, working, set_, i, pick);
            && r == Task(world, live, set_.scenarios[i], pick')
            && (ViewOf(next) == ViewOf(live) <==> LeavesView(world, live, set_.scenarios[i], pick))
  {
    hide ExecuteScenario, Task, Matched, Roomy, ViewOf;
    TaskIsFaithful(world, live, working, set_.scenarios[i], pick, pick');
  }

  /** Every accepted transaction moves the local block number, as those of the fork engine do below the wrap. */
  ghost predicate Advances(world: World) {
    forall v, r :: world.transact(v, r).Done? ==> world.transact(v, r).localBlock > v.localBlock
  }

  /** A refused transaction and an assertion leave the layer as it was. */
  ghost predicate Tidy(world: World) {
    && (forall v, r :: world.transact(v, r).Failed? ==> world.transact(v, r).layer == v.layer)
    && (forall v, s :: world.assess(v, s).0 == v.layer)
  }

  /** Transaction `k` is reached, and accepted. */
  ghost predicate AcceptsAt(world: World, f: Fork, s: Scenario, pick: Pick, k: nat) {
    && k < |s.transactions| && s.transactions[k].from.Some?
    && var p := Before(world, f, s, pick, k);
    p.status == Success && world.transact(ViewOf(p.fork), s.transactions[k]).Done?
  }

  lemma OneTxMoves(world: World, p: Progress, r: Request, i: nat, maxGas: Option<nat>, pick: Pick)
    requires Advances(world)
    ensures var q, o := OneTx(world, p, r, i, maxGas, pick), world.transact(ViewOf(p.fork), r);
            if r.from.Some? && o.Done? then q.fork.localBlock > p.fork.localBlock
            else q.fork.localBlock == p.fork.localBlock && q.status != Success
                 && (Tidy(world) && !q.lost ==> ViewOf(q.fork) == ViewOf(p.fork))
  {
    hide Classifier.Apply, WrittenCount;
  }

  /** The local block number moves with the first accepted transaction, and until then nothing else does. */
  lemma {:induction false} BeforeMoves(world: World, f: Fork, s: Scenario, pick: Pick, k: nat)
    requires k <= |s.transactions| && Advances(world)
    ensures var p := Before(world, f, s, pick, k);
            && p.fork.localBlock >= f.localBlock
            && (p.fork.localBlock > f.localBlock <==> exists j: nat :: j < k && AcceptsAt(world, f, s, pick, j))
            && (Tidy(world) && !p.lost && p.fork.localBlock == f.localBlock ==> ViewOf(p.fork) == ViewOf(f))
  {
    hide AcceptsAt, OneTx, Advances, Tidy;
    if k > 0 {
      BeforeMoves(world, f, s, pick, k - 1);
      BeforeMovesStep(world, f, s, pick, k - 1);
      hide Before;
    }
  }

  lemma BeforeMovesStep(world: World, f: Fork, s: Scenario, pick: Pick, k: nat)
    requires k < |s.transactions| && Advances(world)
    ensures var p, q := Before(world, f, s, pick, k), Before(world, f, s, pick, k + 1);
            && (if AcceptsAt(world, f, s, pick, k) then q.fork.localBlock > p.fork.localBlock
                else q.fork.localBlock == p.fork.localBlock)
            && (Tidy(world) && !q.lost && !AcceptsAt(world, f, s, pick, k) ==>
               !p.lost && ViewOf(q.fork) == ViewOf(p.fork))
  {
    hide OneTx, Advances, Tidy;
    var p := Before(world, f, s, pick, k);
    if p.status == Success {
      OneTxMoves(world, p, s.transactions[k], k, s.maxGas, pick);
      BeforeLostIff(world, f, s, pick, k);
    }
  }

  lemma JudgedMoves(world: World, p: Progress, s: Scenario)
    ensures Judged(world, p, s).fork.localBlock == p.fork.localBlock && Judged(world, p, s).lost == p.lost
    ensures Tidy(world) ==> ViewOf(Judged(world, p, s).fork) == ViewOf(p.fork)
  {
  }

  /**
   A scenario that accepts any transaction moves the view; and one that accepts none and loses nothing leaves it, where
   refusals and assertions leave the layer alone.
   */
  lemma AcceptedMovesView(world: World, f: Fork, s: Scenario, pick: Pick)
    requires Advances(world)
    ensures (exists k: nat :: k < |s.transactions| && AcceptsAt(world, f, s, pick, k)) ==>
            !LeavesView(world, f, s, pick)
    ensures Tidy(world) && !ExecuteScenario(world, f, s, pick).0.lost ==>
              (LeavesView(world, f, s, pick)
               <==> forall k: nat :: k < |s.transactions| ==> !AcceptsAt(world, f, s, pick, k))
  {
    var n := |s.transactions|;
    PlayedFrom(world, f, s, pick, n);
    BeforeMoves(world, f, s, pick, n);
    JudgedMoves(world, Played(world, f, s, pick), s);
    hide AcceptsAt, Before, OneTx, Judged, Advances, Tidy;
  }

  /** Every scenario of the set, from `i` on and except the last, leaves the view. */
  ghost predicate AllButLastLeave(world: World, f: Fork, set_: ScenarioSet, i: nat, picks: nat -> Pick) {
    forall j: nat :: i <= j < |set_.scenarios| - 1 ==> LeavesView(world, f, set_.scenarios[j], picks(j))
  }

  /** Then the modes agree, whatever the nonzero id. */
  lemma {:induction false} UnrevertedModesAgree(world: World, working: Fork, live: Fork, set_: ScenarioSet, i: nat,
                                                picks: nat -> Pick, picks': nat -> Pick)
    requires i <= |set_.scenarios| && set_.baselineFork.None? && set_.baselineSnapshotId != 0
    requires i < |set_.scenarios| ==> ViewOf(working) == ViewOf(live)
    requires Orderly(world, live, set_, picks, picks') && AllButLastLeave(world, live, set_, i, picks)
    ensures Sequential(world, working, set_, i, picks) == Parallel(world, live, set_, i, picks')
    decreases |set_.scenarios| - i
  {
    hide ExecuteScenario, Task, VisitsAll, Matched, Roomy, Alike, ViewOf, Turn, Orderly, LeavesView;
    if i < |set_.scenarios| {
      OrderlyAt(world, live, set_, i, picks, picks');
      UnrevertedTurn(world, working, live, set_, i, picks(i), picks'(i));
      UnrevertedModesAgree(world, Turn(world, working, set_, i, picks(i)).0, live, set_, i + 1, picks, picks');
    }
  }

  lemma OrderlyAt(world: World, f: Fork, set_: ScenarioSet, i: nat, picks: nat -> Pick, picks': nat -> Pick)
    requires i < |set_.scenarios| && Orderly(world, f, set_, picks, picks')
    ensures Matched(picks(i), picks'(i)) && Roomy(world, f, set_.scenarios[i], picks(i))
  {
  }

  // ---- Snapshot and revert instead of a baseline fork ----

  /** Execution leaves the snapshot table alone, unless it loses the database. */
  ghost predicate KeepsSnapshots(f: Fork, p: Progress) {
    && p.fork.env == f.env
    && (!p.lost ==> p.fork.store.snapshots == f.store.snapshots && p.fork.store.nextId == f.store.nextId
                    && p.fork.demote == f.demote)
    && (p.lost ==> p.fork.store == Dirty.Store(Dirty.EMPTY_LAYER, map[], 0) && !p.fork.demote && p.status != Success)
  }

  lemma {:induction false} TxsKeepSnapshots(world: World, f: Fork, p: Progress, s: Scenario, i: nat, pick: Pick)
    requires i <= |s.transactions| && KeepsSnapshots(f, p)
    ensures KeepsSnapshots(f, Txs(world, p, s, i, pick))
    decreases |s.transactions| - i
  {
    if i < |s.transactions| && p.status == Success {
      OneTxKeepsSnapshots(world, f, p, s.transactions[i], i, s.maxGas, pick);
      hide OneTx;
      TxsKeepSnapshots(world, f, OneTx(world, p, s.transactions[i], i, s.maxGas, pick), s, i + 1, pick);
    }
  }

  lemma OneTxKeepsSnapshots(world: World, f: Fork, p: Progress, r: Request, i: nat, maxGas: Option<nat>, pick: Pick)
    requires KeepsSnapshots(f, p) && p.status == Success
    ensures KeepsSnapshots(f, OneTx(world, p, r, i, maxGas, pick))
  {
  }

  /**
   Snapshot, run, revert. The view is back where it was exactly when no EVM-level error lost the database,
   or the view was that of an empty database anyway.
   */
  lemma RevertRestoresIff(world: World, f: Fork, s: Scenario, pick: Pick)
    ensures var p := ExecuteScenario(world, SnapshotFork(f), s, pick).0;
            ViewOf(RevertFork(p.fork, f.store.nextId)) == ViewOf(f)
            <==> !p.lost || (f.store.layer == Dirty.EMPTY_LAYER && !f.demote && p.fork.localBlock == f.localBlock)
  {
    TxsKeepSnapshots(world, SnapshotFork(f), Begin(SnapshotFork(f)), s, 0, pick);
    var p := ExecuteScenario(world, SnapshotFork(f), s, pick).0;
    assert KeepsSnapshots(SnapshotFork(f), p);
  }

  /** No scenario of the set, run on this fork, ends in an EVM-level error. */
  ghost predicate NeverLost(world: World, f: Fork, set_: ScenarioSet, picks: nat -> Pick) {
    forall j: nat :: j < |set_.scenarios| ==> !Played(world, f, set_.scenarios[j], picks(j)).lost
  }

  lemma SnapshotTurn(world: World, working: Fork, live: Fork, set_: ScenarioSet, i: nat,
                     picks: nat -> Pick, picks': nat -> Pick)
    requires i < |set_.scenarios| && set_.baselineFork.None? && set_.baselineSnapshotId == 0
    requires ViewOf(working) == ViewOf(live) && NeverLost(world, live, set_, picks)
    requires Orderly(world, live, set_, picks, picks')
    ensures var (next, r) := Turn(world, working, set_, i, picks(i));
            r == Task(world, live, set_.scenarios[i], picks'(i)) && ViewOf(next) == ViewOf(live)
  {
    hide ExecuteScenario, Task, VisitsAll, Matched, Roomy, Alike, ViewOf, RevertFork, SnapshotFork, Played;
    TurnRestores(world, working, live, set_.scenarios[i], picks(i), picks'(i));
  }

  /** Without a baseline fork and with snapshot id 0, the modes agree and leave the live view as it was, if no
      database is lost. */
  lemma {:induction false} SnapshotModesAgree(world: World, working: Fork, live: Fork, set_: ScenarioSet, i: nat,
                                              picks: nat -> Pick, picks': nat -> Pick)
    requires i <= |set_.scenarios| && set_.baselineFork.None? && set_.baselineSnapshotId == 0
    requires ViewOf(working) == ViewOf(live) && NeverLost(world, live, set_, picks)
    requires Orderly(world, live, set_, picks, picks')
    ensures Sequential(world, working, set_, i, picks) == Parallel(world, live, set_, i, picks')
    ensures ViewOf(SequentialEnd(world, working, set_, i, picks)) == ViewOf(live)
    decreases |set_.scenarios| - i
  {
    hide ExecuteScenario, Task, VisitsAll, Matched, Roomy, Alike, ViewOf, RevertFork, SnapshotFork, Played, Turn,
      Orderly, NeverLost;
    if i < |set_.scenarios| {
      SnapshotTurn(world, working, live, set_, i, picks, picks');
      SnapshotModesAgree(world, Turn(world, working, set_, i, picks(i)).0, live, set_, i + 1, picks, picks');
    }
  }

  lemma TurnRestores(world: World, working: Fork, live: Fork, s: Scenario, pick: Pick, pick': Pick)
    requires ViewOf(working) == ViewOf(live) && Matched(pick, pick') && Roomy(world, live, s, pick)
    requires !Played(world, live, s, pick).lost
    ensures var (p, r) := ExecuteScenario(world, SnapshotFork(working), s, pick);
            r == Task(world, live, s, pick') && ViewOf(RevertFork(p.fork, working.store.nextId)) == ViewOf(live)
  {
    assert ViewOf(SnapshotFork(working)) == ViewOf(live);
    assert ExecuteScenario(world, live, s, pick).0.lost == Played(world, live, s, pick).lost;
    hide Roomy, VisitsAll, Matched, Task, Played, ExecuteScenario, SnapshotFork, RevertFork, ViewOf;
    TaskIsFaithful(world, live, SnapshotFork(working), s, pick, pick');
    RevertRestoresIff(world, working, s, pick);
  }

  // ---- The restrictions are needed ----

  const CONFIG := Classifier.Config(3, true, 64, true, 2)

  function BalanceIn(v: View, a: Address): Word {
    var b := Entry(v.layer.accounts, a).balance;
    if b.Some? then b.value else 0
  }

  /** A plain transfer, over an upstream that holds nothing. */
  function Pay(v: View, from: Address, to: Address, value: Word): Outcome {
    var f, t := BalanceIn(v, from), BalanceIn(v, to);
    if v.env.strictBalance && f < value then Failed("insufficient balance", v.layer, false) else
    var m := v.layer.accounts;
    var nonce := if Entry(m, from).nonce.Some? then Entry(m, from).nonce.value + 1 else 1;
    var paid := m[from := Entry(m, from).(balance := Some(SatSub(f, value)), nonce := Some(nonce))];
    var changes := map[from := AccountDiff(true, Some(SatSub(f, value)), Some(nonce), None, map[], {})]
                   [to := AccountDiff(true, Some(SatAdd(t, value)), None, None, map[], {})];
    Done(v.layer.(accounts := paid[to := Entry(paid, to).(balance := Some(SatAdd(t, value)))]), v.localBlock + 1,
         StateDiff(changes, [], 21_000, true, ""))
  }

  /** A call: refused by the EVM below the price of a transaction, else it logs the code it runs. */
  function Call(v: View, to: Address, gas: nat): Outcome {
    if gas < 21_000 then Failed("call gas cost exceeds the gas limit", v.layer, true) else
    var code := Entry(v.layer.accounts, to).code;
    Done(v.layer, v.localBlock + 1, StateDiff(map[], if code.Some? then [code.value] else [], 21_000, true, ""))
  }

  /** Accounts without written slots are never promoted. */
  lemma {:induction false} NothingToWatch(ctx: Classifier.Context, w: Classifier.WatchList, diff: StateDiff, block: nat,
                                          order: seq<Address>)
    requires forall a :: a in diff.accounts ==> diff.accounts[a].storageWritten == map[]
    ensures Classifier.Apply(CONFIG, ctx, w, diff, block, order) == (w, true)
    decreases |order|
  {
    if order != [] {
      NothingToWatch(ctx, w, diff, block, order[1..]);
    }
  }

  function Execute(v: View, r: Request): Outcome {
    if r.from.None? || r.to.None? then Failed("not modelled", v.layer, false)
    else if r.data == "" then Pay(v, r.from.value, r.to.value, r.value)
    else Call(v, r.to.value, if r.gas.Some? then r.gas.value else 21_000)
  }

  /** Transfers and calls over local overrides only. */
  const LOCAL := World((v: View, r: Request) => Execute(v, r), (v: View, a: Address) => BalanceIn(v, a),
                       (v: View, s: Scenario) => (v.layer, None), CONFIG)

  function Sends(to: Address, value: Word, gas: Option<nat>, data: string): Scenario {
    Scenario("s", "s", [Request(Some(1), Some(to), value, gas, data)], {to}, None, "")
  }

  lemma OnlyTx(f: Fork, s: Scenario, pick: Pick)
    requires |s.transactions| == 1 && s.transactions[0].from.Some? && s.transactions[0].to.Some? && s.maxGas.None?
    requires VisitsAll(pick)
    ensures var o := Execute(ViewOf(f), s.transactions[0]);
            var (p, r) := ExecuteScenario(LOCAL, f, s, pick);
            var after := ViewOf(p.fork);
            && r.finalBalances == Balances(LOCAL, after, s.track)
            && (o.Done? ==> r.logs == o.diff.logs && after == View(o.layer, f.demote, o.localBlock, f.env))
            && (o.Failed? && o.lost ==> after == View(Dirty.EMPTY_LAYER, false, f.localBlock, f.env))
  {
    var r := s.transactions[0];
    var o := Execute(ViewOf(f), r);
    assert LOCAL.transact(ViewOf(f), r) == o;
    if o.Done? {
      var layer := o.layer;
      NothingToWatch(Classifier.Context(layer.unwatchList, f.demote), layer.watchList, o.diff, o.localBlock,
        pick.order(0, o.diff));
      assert layer.(watchList := layer.watchList) == layer;
    }
    var p := OneTx(LOCAL, Begin(f), r, 0, None, pick);
    hide Execute;
    assert Played(LOCAL, f, s, pick) == Txs(LOCAL, p, s, 1, pick) == p;
    hide OneTx, Txs, Balances;
  }

  lemma SecondResults(world: World, f: Fork, set_: ScenarioSet, picks: nat -> Pick)
    requires |set_.scenarios| == 2 && set_.baselineFork.None?
    requires Turn(world, Turn(world, f, set_, 0, picks(0)).0, set_, 1, picks(1)).1
             != Task(world, f, set_.scenarios[1], picks(1))
    ensures Sequential(world, f, set_, 0, picks) != Parallel(world, f, set_, 0, picks)
  {
    hide Turn, Task;
    var s, p := Sequential(world, f, set_, 0, picks), Parallel(world, f, set_, 0, picks);
    var next := Turn(world, f, set_, 0, picks(0)).0;
    assert s[1..] == Sequential(world, next, set_, 1, picks) && p[1..] == Parallel(world, f, set_, 1, picks);
    assert s[1] == s[1..][0] && p[1] == p[1..][0];
  }

  /** What the task of a one-transaction scenario reports: the same as on the template itself. */
  lemma OnlyTask(f: Fork, s: Scenario, pick: Pick)
    requires |s.transactions| == 1 && s.transactions[0].from.Some? && s.transactions[0].to.Some? && s.maxGas.None?
    requires VisitsAll(pick)
    ensures var o := Execute(ViewOf(f), s.transactions[0]);
            var r := Task(LOCAL, f, s, pick);
            o.Done? ==> r.logs == o.diff.logs
                        && r.finalBalances == Balances(LOCAL, View(o.layer, f.demote, o.localBlock, f.env), s.track)
  {
    CowForkSameView(f);
    hide FromTemplateAndCow, ExecuteScenario, VisitsAll, Balances, Execute;
    OnlyTx(FromTemplateAndCow(f, Cow.CellsOf(f.store.layer.accounts)), s, pick);
  }

  /** Account 1 holds ten, and account 2 runs local code. */
  const START := Fork(
    Dirty.Store(Dirty.Layer(map[1 := NO_OVERRIDES.(balance := Some(10)), 2 := NO_OVERRIDES.(code := Some("60"))],
                            map[], {}, 0), map[], 0),
    false, 0, Env(0, 0, 0, 0, 1, {}, false, false, false), [], "")

  /**
   A nonzero snapshot id without a baseline fork: no revert, so the second of two equal transfers finds the first one's
   money already there.
   */
  lemma WithoutRevertStateLeaks(id: nat, picks: nat -> Pick)
    requires id != 0 && VisitsAll(picks(0)) && VisitsAll(picks(1))
    ensures var transfer := Sends(2, 1, None, "");
            var set_ := ScenarioSet(id, None, [transfer, transfer]);
            Sequential(LOCAL, START, set_, 0, picks) != Parallel(LOCAL, START, set_, 0, picks)
  {
    hide Execute, ExecuteScenario, Task, VisitsAll, Matched, Sequential, Parallel, Balances;
    var transfer := Sends(2, 1, None, "");
    var set_ := ScenarioSet(id, None, [transfer, transfer]);
    TwoTransfers();
    OnlyTx(START, transfer, picks(0));
    var next := Turn(LOCAL, START, set_, 0, picks(0)).0;
    OnlyTx(next, transfer, picks(1));
    OnlyTask(START, transfer, picks(1));
    assert Turn(LOCAL, next, set_, 1, picks(1)).1.finalBalances[2] == 2;
    assert Task(LOCAL, START, transfer, picks(1)).finalBalances[2] == 1;
    SecondResults(LOCAL, START, set_, picks);
  }

  lemma TwoTransfers()
    ensures var r := Sends(2, 1, None, "").transactions[0];
            var o := Execute(ViewOf(START), r);
            && o.Done?
            && var v := View(o.layer, START.demote, o.localBlock, START.env);
            && var q := Execute(v, r);
            && q.Done?
            && Balances(LOCAL, v, {2}) == map[2 := 1]
            && Balances(LOCAL, View(q.layer, START.demote, q.localBlock, START.env), {2}) == map[2 := 2]
  {
    var r := Sends(2, 1, None, "").transactions[0];
    var o := Execute(ViewOf(START), r);
    var v := View(o.layer, START.demote, o.localBlock, START.env);
    assert BalanceIn(v, 2) == 1;
    var q := Execute(v, r);
    assert BalanceIn(View(q.layer, START.demote, q.localBlock, START.env), 2) == 2;
  }

  /**
   Snapshot id 0 without a baseline fork: a call below the price of a transaction loses the database, and with it the
   local code that the next scenario would have run.
   */
  lemma LostDatabaseLeaks(picks: nat -> Pick)
    requires VisitsAll(picks(0)) && VisitsAll(picks(1))
    ensures var set_ := ScenarioSet(0, None, [Sends(2, 0, Some(1), "c"), Sends(2, 0, None, "c")]);
            Sequential(LOCAL, START, set_, 0, picks) != Parallel(LOCAL, START, set_, 0, picks)
  {
    var cheap, call := Sends(2, 0, Some(1), "c"), Sends(2, 0, None, "c");
    var set_ := ScenarioSet(0, None, [cheap, call]);
    hide Execute, ExecuteScenario, Task, VisitsAll, Matched, Sequential, Parallel, Dirty.Revert, Balances;
    CheapCallFails();
    var next := Turn(LOCAL, START, set_, 0, picks(0)).0;
    CheapTurn(set_, picks(0));
    OnlyTx(SnapshotFork(next), call, picks(1));
    OnlyTask(START, call, picks(1));
    SecondResults(LOCAL, START, set_, picks);
  }

  const LOST := View(Dirty.EMPTY_LAYER, false, 0, START.env)

  lemma CheapCallFails()
    ensures var o := Execute(ViewOf(START), Sends(2, 0, Some(1), "c").transactions[0]); o.Failed? && o.lost
    ensures var r := Sends(2, 0, None, "c").transactions[0];
            var o, q := Execute(ViewOf(START), r), Execute(LOST, r);
            o.Done? && q.Done? && o.diff.logs == ["60"] && q.diff.logs == []
  {
  }

  lemma CheapTurn(set_: ScenarioSet, pick: Pick)
    requires |set_.scenarios| == 2 && set_.scenarios[0] == Sends(2, 0, Some(1), "c") && VisitsAll(pick)
    requires set_.baselineFork.None? && set_.baselineSnapshotId == 0
    ensures ViewOf(SnapshotFork(Turn(LOCAL, START, set_, 0, pick).0)) == LOST
  {
    CheapCallFails();
    var snap := SnapshotFork(START);
    assert ViewOf(snap) == ViewOf(START);
    hide Execute, ExecuteScenario, VisitsAll, Balances;
    OnlyTx(snap, set_.scenarios[0], pick);
    var p := ExecuteScenario(LOCAL, snap, set_.scenarios[0], pick).0;
    EmptyRevert(p.fork);
  }

  /** A fork on the placeholder database: whatever a revert finds there, the layer is empty. */
  lemma EmptyRevert(f: Fork)
    requires ViewOf(f) == LOST
    requires forall id :: id in f.store.snapshots ==>
            f.store.snapshots[id].layer == Dirty.EMPTY_LAYER && f.store.snapshots[id].block == 0
    ensures forall id :: ViewOf(RevertFork(f, id)) == LOST && ViewOf(SnapshotFork(RevertFork(f, id))) == LOST
  {
  }
}
