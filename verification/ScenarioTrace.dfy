/** What a scenario reports, read off the outcomes of its transactions: apps/mirage-rs/src/scenario.rs. */
module ScenarioTrace {
  import opened Prelude
  import opened MapSum
  import opened ForkTypes
  import opened Scenarios
  import Dirty
  import Classifier

  // ---- The trace ----

  /** What execution sees before transaction `k`, if every one before it is accepted; the watch list is classified. */
  ghost function ViewAt(world: World, v: View, s: Scenario, pick: Pick, k: nat): View
    requires k <= |s.transactions|
  {
    if k == 0 then v else
    var u := ViewAt(world, v, s, pick, k - 1);
    match world.transact(u, s.transactions[k - 1])
    case Failed(_, _, _) => u
    case Done(layer, localBlock, diff) =>
      var context := Classifier.Context(layer.unwatchList, u.demote);
      var order := pick.order(k - 1, diff);
      var watched := Classifier.Apply(world.config, context, layer.watchList, diff, localBlock, order).0;
      View(layer.(watchList := watched), u.demote, localBlock, u.env)
  }

  ghost function At(world: World, v: View, s: Scenario, pick: Pick, k: nat): Outcome
    requires k < |s.transactions|
  {
    world.transact(ViewAt(world, v, s, pick, k), s.transactions[k])
  }

  /** The gas of the first `k` transactions, without a cap. */
  ghost function Spent(world: World, v: View, s: Scenario, pick: Pick, k: nat): nat
    requires k <= |s.transactions|
  {
    if k == 0 then 0 else
    var o := At(world, v, s, pick, k - 1);
    Spent(world, v, s, pick, k - 1) + if o.Done? then o.diff.gasUsed else 0
  }

  ghost function Logged(world: World, v: View, s: Scenario, pick: Pick, k: nat): seq<string>
    requires k <= |s.transactions|
  {
    if k == 0 then [] else
    var o := At(world, v, s, pick, k - 1);
    Logged(world, v, s, pick, k - 1) + if o.Done? then o.diff.logs else []
  }

  /** How many accounts the diffs of the first `k` transactions list, and how many slots they write. */
  ghost function Touched(world: World, v: View, s: Scenario, pick: Pick, k: nat): (nat, nat)
    requires k <= |s.transactions|
  {
    if k == 0 then (0, 0) else
    var (accounts, slots) := Touched(world, v, s, pick, k - 1);
    match At(world, v, s, pick, k - 1)
    case Failed(_, _, _) => (accounts, slots)
    case Done(_, _, diff) =>
      (accounts + |diff.accounts|, slots + Writes(diff))
  }

  ghost function SlotsOf(diff: StateDiff): map<Address, nat> {
    map a | a in diff.accounts :: |diff.accounts[a].storageWritten|
  }

  ghost function Writes(diff: StateDiff): nat { Sum(SlotsOf(diff)) }

  /** The transactions the fork has taken in. */
  function Sent(s: Scenario, k: nat): seq<string>
    requires k <= |s.transactions|
  {
    seq(k, i requires 0 <= i < k => s.transactions[i].data)
  }

  // ---- Which transaction ends the scenario, and how ----

  ghost predicate OverGas(world: World, v: View, s: Scenario, pick: Pick, k: nat)
    requires k < |s.transactions|
  {
    s.maxGas.Some? && Min(Spent(world, v, s, pick, k + 1), U64_MAX) > s.maxGas.value
  }

  /** Transaction `k` has a sender, succeeds, stays within the gas limit and is over in time. */
  ghost predicate Passes(world: World, v: View, s: Scenario, pick: Pick, k: nat)
    requires k < |s.transactions|
  {
    var o := At(world, v, s, pick, k);
    && s.transactions[k].from.Some? && o.Done? && o.diff.success
    && !OverGas(world, v, s, pick, k) && !pick.late(k)
  }

  ghost predicate AllPass(world: World, v: View, s: Scenario, pick: Pick, k: nat)
    requires k <= |s.transactions|
  {
    forall j: nat :: j < k ==> Passes(world, v, s, pick, j)
  }

  /** The status, reason and view a transaction that does not pass leaves. */
  ghost predicate EndsWith(
    world: World, v: View, s: Scenario, pick: Pick, k: nat, status: Status, reason: Option<string>, left: View)
    requires k < |s.transactions|
  {
    var u := ViewAt(world, v, s, pick, k);
    if s.transactions[k].from.None? then status == Error("missing from") && reason.None? && left == u
    else
      match At(world, v, s, pick, k)
      case Failed(error, layer, lost) =>
        && status == Error(error) && reason == Some(error)
        && left == if lost then View(Dirty.EMPTY_LAYER, false, u.localBlock, u.env) else u.(layer := layer)
      case Done(layer, localBlock, diff) =>
        if !diff.success then
          status == Reverted && reason == Some(diff.output) && left == View(layer, u.demote, localBlock, u.env)
        else
          && status == (if OverGas(world, v, s, pick, k) then GasExceeded else Timeout) && reason.None?
          && left == ViewAt(world, v, s, pick, k + 1)
  }

  /** Transaction `k` is executed and not refused. */
  ghost predicate Accepted(world: World, v: View, s: Scenario, pick: Pick, k: nat) {
    k < |s.transactions| && s.transactions[k].from.Some? && At(world, v, s, pick, k).Done?
  }

  ghost predicate Succeeds(world: World, v: View, s: Scenario, pick: Pick, k: nat) {
    Accepted(world, v, s, pick, k) && At(world, v, s, pick, k).diff.success
  }

  /** After `executed` accepted transactions, of which the first `counted` succeeded. */
  ghost predicate Tallied(
    world: World, f: Fork, s: Scenario, pick: Pick, p: Progress, executed: nat, counted: nat)
    requires counted <= executed <= |s.transactions|
  {
    var v := ViewOf(f);
    && p.gasUsed == Min(Spent(world, v, s, pick, executed), U64_MAX)
    && p.logs == Logged(world, v, s, pick, executed)
    && (p.diffAccounts, p.diffSlots) == Touched(world, v, s, pick, counted)
    && p.fork.ledger == f.ledger + Sent(s, executed)
  }

  // ---- The executor follows the trace ----

  ghost predicate OnTrace(world: World, f: Fork, s: Scenario, pick: Pick, k: nat)
    requires k <= |s.transactions|
  {
    var p := Before(world, f, s, pick, k);
    && p.status == Success && p.revertReason.None? && ViewOf(p.fork) == ViewAt(world, ViewOf(f), s, pick, k)
    && Tallied(world, f, s, pick, p, k, k)
  }

  lemma SentStep(s: Scenario, k: nat)
    requires k < |s.transactions|
    ensures Sent(s, k + 1) == Sent(s, k) + [s.transactions[k].data]
  {
  }

  lemma GasStep(spent: nat, gas: nat)
    ensures Min(Min(spent, U64_MAX) + gas, U64_MAX) == Min(spent + gas, U64_MAX)
  {
  }

  /** What one transaction adds to the figures. */
  lemma OneTxFigures(world: World, p: Progress, r: Request, i: nat, maxGas: Option<nat>, pick: Pick)
    ensures var q, o := OneTx(world, p, r, i, maxGas, pick), world.transact(ViewOf(p.fork), r);
            if r.from.None? || o.Failed? then
              q.gasUsed == p.gasUsed && q.logs == p.logs && q.fork.ledger == p.fork.ledger
              && q.diffAccounts == p.diffAccounts && q.diffSlots == p.diffSlots
            else
              && q.gasUsed == Min(p.gasUsed + o.diff.gasUsed, U64_MAX) && q.logs == p.logs + o.diff.logs
              && q.fork.ledger == p.fork.ledger + [r.data]
              && q.diffAccounts == p.diffAccounts + (if o.diff.success then |o.diff.accounts| else 0)
              && q.diffSlots == p.diffSlots + if o.diff.success then Writes(o.diff) else 0
  {
    hide Classifier.Apply;
    var o := world.transact(ViewOf(p.fork), r);
    if o.Done? {
      assert Sizes(o.diff) == SlotsOf(o.diff);
    }
  }

  lemma TallyStep(world: World, f: Fork, s: Scenario, pick: Pick, k: nat)
    requires k < |s.transactions| && OnTrace(world, f, s, pick, k)
    ensures Tallied(world, f, s, pick, Before(world, f, s, pick, k + 1),
                    if Accepted(world, ViewOf(f), s, pick, k) then k + 1 else k,
                    if Succeeds(world, ViewOf(f), s, pick, k) then k + 1 else k)
  {
    hide OneTx, ViewAt, Sent, Writes;
    SentStep(s, k);
    var p, o := Before(world, f, s, pick, k), At(world, ViewOf(f), s, pick, k);
    OneTxFigures(world, p, s.transactions[k], k, s.maxGas, pick);
    if o.Done? {
      GasStep(Spent(world, ViewOf(f), s, pick, k), o.diff.gasUsed);
      assert f.ledger + Sent(s, k) + [s.transactions[k].data] == f.ledger + Sent(s, k + 1);
    }
  }

  lemma StatusStep(world: World, f: Fork, s: Scenario, pick: Pick, k: nat)
    requires k < |s.transactions| && OnTrace(world, f, s, pick, k)
    ensures var v, q := ViewOf(f), Before(world, f, s, pick, k + 1);
            if Passes(world, v, s, pick, k) then
              q.status == Success && q.revertReason.None? && ViewOf(q.fork) == ViewAt(world, v, s, pick, k + 1)
            else q.status != Success && EndsWith(world, v, s, pick, k, q.status, q.revertReason, ViewOf(q.fork))
  {
    hide Classifier.Apply, WrittenCount, Logged, Touched, Sent;
    var v := ViewOf(f);
    var o := At(world, v, s, pick, k);
    if o.Done? {
      GasStep(Spent(world, v, s, pick, k), o.diff.gasUsed);
    }
  }

  lemma StartsOnTrace(world: World, f: Fork, s: Scenario, pick: Pick)
    ensures OnTrace(world, f, s, pick, 0)
  {
    assert Sent(s, 0) == [];
  }

  lemma {:induction false} PassingStaysOnTrace(world: World, f: Fork, s: Scenario, pick: Pick, k: nat)
    requires k <= |s.transactions| && AllPass(world, ViewOf(f), s, pick, k)
    ensures OnTrace(world, f, s, pick, k)
  {
    hide OneTx, At, Spent, Logged, Touched;
    if k > 0 {
      PassingStaysOnTrace(world, f, s, pick, k - 1);
      StatusStep(world, f, s, pick, k - 1);
      TallyStep(world, f, s, pick, k - 1);
      hide Before, Tallied, ViewAt, EndsWith;
    } else {
      StartsOnTrace(world, f, s, pick);
    }
  }

  lemma {:induction false} FirstFailing(world: World, v: View, s: Scenario, pick: Pick, k: nat) returns (j: nat)
    requires k <= |s.transactions|
    ensures j <= k && AllPass(world, v, s, pick, j) && (j < k ==> !Passes(world, v, s, pick, j))
  {
    hide Passes;
    if k == 0 {
      return 0;
    }
    j := FirstFailing(world, v, s, pick, k - 1);
    if j == k - 1 && Passes(world, v, s, pick, k - 1) {
      j := k;
    }
  }

  /** The sum of the tracked balances, clamped to i128. */
  ghost function Total(world: World, v: View, track: set<Address>): int {
    Min(Sum(map a | a in track :: world.balance(v, a)), I128_MAX)
  }

  /**
   The first transaction that does not pass ends the scenario and decides its status and reason; if all pass, the
   assertions do. What is reported counts the transactions up to there and no more.
   */
  lemma ScenarioReports(world: World, f: Fork, s: Scenario, pick: Pick) returns (k: nat)
    ensures k <= |s.transactions| && AllPass(world, ViewOf(f), s, pick, k)
    ensures k < |s.transactions| ==> !Passes(world, ViewOf(f), s, pick, k)
    ensures var (p, r) := ExecuteScenario(world, f, s, pick);
            var v := ViewOf(f);
            && (k < |s.transactions| ==> EndsWith(world, v, s, pick, k, r.status, r.revertReason, ViewOf(p.fork)))
            && (k == |s.transactions| ==>
                  var (layer, failure) := world.assess(ViewAt(world, v, s, pick, k), s);
                  && r.status == (if failure.Some? then Error(failure.value) else Success)
                  && r.revertReason == failure
                  && ViewOf(p.fork) == ViewAt(world, v, s, pick, k).(layer := layer))
            && Tallied(world, f, s, pick, p, if Accepted(world, v, s, pick, k) then k + 1 else k,
                       if Succeeds(world, v, s, pick, k) then k + 1 else k)
  {
    var n := |s.transactions|;
    k := FirstFailing(world, ViewOf(f), s, pick, n);
    PassingStaysOnTrace(world, f, s, pick, k);
    if k < n {
      StatusStep(world, f, s, pick, k);
      TallyStep(world, f, s, pick, k);
      PlayedFrom(world, f, s, pick, k + 1);
      EndedStays(world, Before(world, f, s, pick, k + 1), s, k + 1, pick);
    } else {
      PlayedFrom(world, f, s, pick, n);
    }
    hide Before, EndsWith, Passes, ViewAt, Spent, Logged, Touched, Sent, At, OneTx, Clamped, Balances;
  }

  /** The reported figures are those of the run, and the profit that of the tracked accounts. */
  lemma ReportedFigures(world: World, f: Fork, s: Scenario, pick: Pick)
    ensures var (p, r) := ExecuteScenario(world, f, s, pick);
            && r.id == s.id && r.name == s.name && r.gasUsed == p.gasUsed && r.logs == p.logs
            && r.diffAccounts == p.diffAccounts && r.diffSlots == p.diffSlots
            && r.pnl == Total(world, ViewOf(p.fork), s.track) - Total(world, ViewOf(f), s.track)
            && r.finalBalances == map a | a in s.track :: world.balance(ViewOf(p.fork), a)
  {
    hide Judged, Played;
  }

  /** A scenario is reported successful exactly when every transaction passes and the assertions hold. */
  lemma SuccessIff(world: World, f: Fork, s: Scenario, pick: Pick)
    ensures var n := |s.transactions|;
            ExecuteScenario(world, f, s, pick).1.status == Success
            <==> AllPass(world, ViewOf(f), s, pick, n)
                 && world.assess(ViewAt(world, ViewOf(f), s, pick, n), s).1.None?
  {
    var k := ScenarioReports(world, f, s, pick);
    hide ExecuteScenario, Passes, ViewAt, Tallied, At, Spent;
  }
}
