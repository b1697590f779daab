/** Contagion watch lists: `apply_contagion_watchers` and `watch_depth` in apps/mirage-rs/src/replay.rs. */
module ContagionWatch {
  import opened Prelude
  import opened ForkTypes
  import opened Classifier

  // ---- watch_depth ----

  /** Contagion hops from `a` until a root, an address outside the list, or an address already seen. */
  function Depth(w: WatchList, a: Address, seen: set<Address>): (d: nat)
    ensures d <= |w.Keys - seen|
    decreases |w.Keys - seen|
  {
    if a in seen || a !in w || !w[a].source.Contagion? then 0 else
    assert |w.Keys - (seen + {a})| < |w.Keys - seen| by {
      assert w.Keys - (seen + {a}) == (w.Keys - seen) - {a};
    }
    1 + Depth(w, w[a].source.parent, seen + {a})
  }

  /** Terminates on every map, cyclic ones included. */
  method WatchDepth(w: WatchList, address: Address) returns (depth: nat)
    ensures depth == Depth(w, address, {})
    ensures depth <= |w|
  {
    depth := 0;
    var current := address;
    var seen: set<Address> := {};
    while current !in seen
      invariant depth + Depth(w, current, seen) == Depth(w, address, {})
      decreases w.Keys - seen
    {
      ghost var before := seen;
      seen := seen + {current};
      if current !in w {
        break;
      }
      match w[current].source {
        case AutoClassified => break;
        case Manual => break;
        case Contagion(parent) =>
          depth := depth + 1;
          assert current in w.Keys - before && current !in w.Keys - seen;
          current := parent;
      }
    }
    assert w.Keys - {} == w.Keys;
  }

  // ---- Chains ----

  /** Following parents from `a` stays inside the list and reaches a root after exactly `n` hops. */
  ghost predicate Chain(w: WatchList, a: Address, n: nat)
    decreases n
  {
    a in w && if n == 0 then !w[a].source.Contagion? else w[a].source.Contagion? && Chain(w, w[a].source.parent, n - 1)
  }

  lemma {:induction false} ChainUnique(w: WatchList, a: Address, m: nat, n: nat)
    requires Chain(w, a, m) && Chain(w, a, n)
    ensures m == n
    decreases m
  {
    if m > 0 && n > 0 {
      ChainUnique(w, w[a].source.parent, m - 1, n - 1);
    }
  }

  lemma {:induction false} DepthOfChain(w: WatchList, a: Address, n: nat, seen: set<Address>)
    requires Chain(w, a, n)
    requires forall s: Address, m: nat :: s in seen && Chain(w, s, m) ==> m > n
    ensures Depth(w, a, seen) == n
    decreases n
  {
    if n > 0 {
      var p := w[a].source.parent;
      forall s: Address, m: nat | s in seen + {a} && Chain(w, s, m) ensures m > n - 1 {
        if s == a { ChainUnique(w, a, m, n); }
      }
      DepthOfChain(w, p, n - 1, seen + {a});
    }
  }

  /** For an address whose chain reaches a root, `watch_depth` is the length of that chain. */
  lemma DepthIsChainLength(w: WatchList, a: Address, n: nat)
    requires Chain(w, a, n)
    ensures Depth(w, a, {}) == n
  {
    DepthOfChain(w, a, n, {});
  }

  /** The address reached from `a` after `k` hops. */
  ghost function Ancestor(w: WatchList, a: Address, k: nat): Option<Address>
    decreases k
  {
    if k == 0 then Some(a)
    else if a in w && w[a].source.Contagion? then Ancestor(w, w[a].source.parent, k - 1)
    else None
  }

  lemma {:induction false} AncestorChain(w: WatchList, a: Address, n: nat, k: nat)
    requires Chain(w, a, n) && Ancestor(w, a, k).Some?
    ensures k <= n && Chain(w, Ancestor(w, a, k).value, n - k)
    decreases k
  {
    if k > 0 {
      AncestorChain(w, w[a].source.parent, n - 1, k - 1);
    }
  }

  lemma ChainsDiffer(w: WatchList, a: Address, n: nat, b: Address, m: nat)
    requires Chain(w, a, n) && Chain(w, b, m) && m != n
    ensures a != b
  {
    if a == b { ChainUnique(w, a, n, m); }
  }

  /** A chain that reaches a root never comes back to where it started. */
  lemma ChainIsAcyclic(w: WatchList, a: Address, n: nat, k: nat)
    requires Chain(w, a, n) && k > 0
    ensures Ancestor(w, a, k) != Some(a)
  {
    if Ancestor(w, a, k).Some? {
      AncestorChain(w, a, n, k);
      ChainsDiffer(w, a, n, Ancestor(w, a, k).value, n - k);
    }
  }

  /** Every entry reaches a root inside the list within `max` hops. */
  ghost predicate Rooted(w: WatchList, max: nat) {
    forall a :: a in w ==> exists n: nat :: n <= max && Chain(w, a, n)
  }

  ghost predicate Extends(w: WatchList, w': WatchList) {
    forall a :: a in w ==> a in w' && w'[a] == w[a]
  }

  lemma {:induction false} ChainExtends(w: WatchList, w': WatchList, a: Address, n: nat)
    requires Chain(w, a, n) && Extends(w, w')
    ensures Chain(w', a, n)
    decreases n
  {
    if n > 0 {
      ChainExtends(w, w', w[a].source.parent, n - 1);
    }
  }

  // ---- apply_contagion_watchers ----

  function SourceFor(parent: Address): WatchSource {
    if parent == ZERO_ADDRESS then AutoClassified else Contagion(parent)
  }

  function NewEntry(diff: StateDiff, a: Address, block: nat, parent: Address): WatchEntry {
    WatchEntry(SourceFor(parent), block, if a in diff.accounts then |diff.accounts[a].storageWritten| else 0, 0)
  }

  /** The loop over the classified accounts, in the order the map yields them. */
  function Spread(config: Config, unwatch: set<Address>, w: WatchList, diff: StateDiff, block: nat, parent: Address,
                  order: seq<Address>): (WatchList, bool)
    decreases |order|
  {
    if order == [] then (w, true) else
    var a := order[0];
    if a !in diff.accounts || ClassOf(config, diff.accounts[a]) != Protocol
      || Depth(w, parent, {}) + 1 > config.maxDepth
       || a in unwatch || a in w
    then Spread(config, unwatch, w, diff, block, parent, order[1..])
    else if |w| >= config.maxWatched then (w, false)
    else Spread(config, unwatch, w[a := NewEntry(diff, a, block, parent)], diff, block, parent, order[1..])
  }

  function ApplyContagion(config: Config, ctx: Context, w: WatchList, diff: StateDiff, block: nat,
                          parent: Option<Address>, order: seq<Address>): (WatchList, bool)
  {
    if ctx.demote || !config.enableContagion then (w, true)
    else Spread(config, ctx.unwatch, w, diff, block, if parent.Some? then parent.value else ZERO_ADDRESS, order)
  }

  method ApplyContagionWatchers(config: Config, ctx: Context, list: WatchList, diff: StateDiff, block: nat,
                                parent: Option<Address>, order: seq<Address>) returns (w: WatchList, ok: bool)
    ensures (w, ok) == ApplyContagion(config, ctx, list, diff, block, parent, order)
  {
    w := list;
    if ctx.demote || !config.enableContagion {
      return w, true;
    }
    var p := if parent.Some? then parent.value else ZERO_ADDRESS;
    for i := 0 to |order|
      invariant Spread(config, ctx.unwatch, w, diff, block, p, order[i..])
                == Spread(config, ctx.unwatch, list, diff, block, p, order)
    {
      var a := order[i];
      assert order[i..][1..] == order[i + 1..];
      if a !in diff.accounts || ClassOf(config, diff.accounts[a]) != Protocol {
        continue;
      }
      var parentDepth := WatchDepth(w, p);
      if parentDepth + 1 > config.maxDepth {
        continue;
      }
      if a in ctx.unwatch || a in w {
        continue;
      }
      if |w| >= config.maxWatched {
        return w, false;
      }
      w := w[a := NewEntry(diff, a, block, p)];
    }
    return w, true;
  }

  /** What the loop can do to the list, whatever the parent. */
  lemma {:induction false} SpreadGrows(config: Config, unwatch: set<Address>, w: WatchList, diff: StateDiff, block: nat,
                                       parent: Address, order: seq<Address>)
    ensures var w' := Spread(config, unwatch, w, diff, block, parent, order).0;
            && Extends(w, w') && |w'| <= Max(|w|, config.maxWatched)
            && forall a :: a in w' && a !in w ==> w'[a].source == SourceFor(parent)
    decreases |order|
  {
    if order != [] {
      var a := order[0];
      SpreadGrows(config, unwatch, w, diff, block, parent, order[1..]);
      SpreadGrows(config, unwatch, w[a := NewEntry(diff, a, block, parent)], diff, block, parent, order[1..]);
    }
  }

  lemma AddKeepsRooted(w: WatchList, max: nat, a: Address, e: WatchEntry)
    requires Rooted(w, max) && a !in w
    requires e.source.Contagion? ==> exists n: nat :: n + 1 <= max && Chain(w, e.source.parent, n)
    ensures Rooted(w[a := e], max)
  {
    var w' := w[a := e];
    forall b | b in w' ensures exists n: nat :: n <= max && Chain(w', b, n) {
      if b != a {
        var n: nat :| n <= max && Chain(w, b, n);
        ChainExtends(w, w', b, n);
      } else if e.source.Contagion? {
        var n: nat :| n + 1 <= max && Chain(w, e.source.parent, n);
        ChainExtends(w, w', e.source.parent, n);
        assert Chain(w', a, n + 1);
      } else {
        assert Chain(w', a, 0);
      }
    }
  }

  /** An address added under a watched parent is one hop further from that parent's root. */
  lemma NewEntryRooted(config: Config, w: WatchList, diff: StateDiff, a: Address, block: nat, parent: Address)
    requires Rooted(w, config.maxDepth) && (parent in w || parent == ZERO_ADDRESS)
    requires a !in w && Depth(w, parent, {}) + 1 <= config.maxDepth
    ensures Rooted(w[a := NewEntry(diff, a, block, parent)], config.maxDepth)
  {
    if parent != ZERO_ADDRESS {
      var n: nat :| n <= config.maxDepth && Chain(w, parent, n);
      DepthIsChainLength(w, parent, n);
    }
    AddKeepsRooted(w, config.maxDepth, a, NewEntry(diff, a, block, parent));
  }

  /** A watched parent, or none at all, keeps every chain rooted within the depth limit. */
  lemma {:induction false} SpreadKeepsRooted(config: Config, unwatch: set<Address>, w: WatchList, diff: StateDiff,
                                             block: nat, parent: Address, order: seq<Address>)
    requires Rooted(w, config.maxDepth) && (parent in w || parent == ZERO_ADDRESS)
    ensures Rooted(Spread(config, unwatch, w, diff, block, parent, order).0, config.maxDepth)
    decreases |order|
  {
    hide Rooted, Depth, ClassOf, NewEntry;
    if order != [] {
      var a := order[0];
      SpreadKeepsRooted(config, unwatch, w, diff, block, parent, order[1..]);
      if a !in w && Depth(w, parent, {}) + 1 <= config.maxDepth {
        NewEntryRooted(config, w, diff, a, block, parent);
        SpreadKeepsRooted(config, unwatch, w[a := NewEntry(diff, a, block, parent)], diff, block, parent, order[1..]);
      }
    }
  }

  lemma {:induction false} SelfParentHasNoChain(w: WatchList, a: Address, n: nat)
    requires a in w && w[a].source == Contagion(a)
    ensures !Chain(w, a, n)
  {
    if n > 0 { SelfParentHasNoChain(w, a, n - 1); }
  }

  lemma NotRooted(w: WatchList, max: nat, a: Address)
    requires a in w && forall n: nat :: !Chain(w, a, n)
    ensures !Rooted(w, max)
  {
  }

  /** An account the loop would add, given depth and room. */
  predicate Catches(config: Config, unwatch: set<Address>, w: WatchList, diff: StateDiff, a: Address) {
    a in diff.accounts && ClassOf(config, diff.accounts[a]) == Protocol && a !in unwatch && a !in w
  }

  /** What a caller can check beforehand: nothing to catch, the parent too deep, or the list full. */
  predicate Idle(config: Config, unwatch: set<Address>, w: WatchList, diff: StateDiff, parent: Address,
      order: seq<Address>) {
    || (forall i :: 0 <= i < |order| ==> !Catches(config, unwatch, w, diff, order[i]))
    || Depth(w, parent, {}) + 1 > config.maxDepth
    || |w| >= config.maxWatched
  }

  lemma {:induction false} SpreadAddsNothingIff(config: Config, unwatch: set<Address>, w: WatchList, diff: StateDiff,
                                                block: nat, parent: Address, order: seq<Address>)
    ensures Spread(config, unwatch, w, diff, block, parent, order).0 == w
            <==> Idle(config, unwatch, w, diff, parent, order)
    decreases |order|
  {
    hide Depth, ClassOf, NewEntry;
    if order != [] {
      var a := order[0];
      SpreadAddsNothingIff(config, unwatch, w, diff, block, parent, order[1..]);
      IdleFrom(config, unwatch, w, diff, parent, order);
      if Catches(config, unwatch, w, diff, a) && Depth(w, parent, {}) + 1 <= config.maxDepth
        && |w| < config.maxWatched {
        SpreadGrows(config, unwatch, w[a := NewEntry(diff, a, block, parent)], diff, block, parent, order[1..]);
        assert a in w[a := NewEntry(diff, a, block, parent)];
      }
    }
  }

  lemma IdleFrom(config: Config, unwatch: set<Address>, w: WatchList, diff: StateDiff, parent: Address,
      order: seq<Address>)
    requires order != []
    ensures Idle(config, unwatch, w, diff, parent, order)
            <==> Idle(config, unwatch, w, diff, parent, order[1..])
                 && (Catches(config, unwatch, w, diff, order[0]) ==>
                       Depth(w, parent, {}) + 1 > config.maxDepth || |w| >= config.maxWatched)
  {
    hide Depth, Catches;
    if forall i :: 0 <= i < |order[1..]| ==> !Catches(config, unwatch, w, diff, order[1..][i]) {
      forall i | 0 < i < |order| ensures !Catches(config, unwatch, w, diff, order[i]) {
        assert order[i] == order[1..][i - 1];
      }
    }
    if forall i :: 0 <= i < |order| ==> !Catches(config, unwatch, w, diff, order[i]) {
      forall i | 0 <= i < |order[1..]| ensures !Catches(config, unwatch, w, diff, order[1..][i]) {
        assert order[1..][i] == order[i + 1];
      }
    }
  }

  /** The guard of the whole call. */
  predicate CallIdle(config: Config, ctx: Context, w: WatchList, diff: StateDiff, parent: Option<Address>,
      order: seq<Address>) {
    ctx.demote || !config.enableContagion
    || Idle(config, ctx.unwatch, w, diff, if parent.Some? then parent.value else ZERO_ADDRESS, order)
  }

  lemma ContagionAddsNothingIff(config: Config, ctx: Context, w: WatchList, diff: StateDiff, block: nat,
                                parent: Option<Address>, order: seq<Address>)
    ensures ApplyContagion(config, ctx, w, diff, block, parent, order).0 == w
            <==> CallIdle(config, ctx, w, diff, parent, order)
  {
    var root := if parent.Some? then parent.value else ZERO_ADDRESS;
    SpreadAddsNothingIff(config, ctx.unwatch, w, diff, block, root, order);
  }

  /**
   The condition is exact, and known before the call: contagion keeps the list rooted if and only if the parent is
   watched, or there is no parent, or the call is idle. An unwatched parent leaves entries whose chain runs out of
   the list, or into an entry that is its own parent.
   */
  lemma RootedIffParentWatched(config: Config, ctx: Context, w: WatchList, diff: StateDiff, block: nat,
                               parent: Option<Address>, order: seq<Address>)
    requires Rooted(w, config.maxDepth)
    ensures var w' := ApplyContagion(config, ctx, w, diff, block, parent, order).0;
            Rooted(w', config.maxDepth)
            <==> CallIdle(config, ctx, w, diff, parent, order)
                 || parent == None || parent.value == ZERO_ADDRESS || parent.value in w
  {
    ContagionAddsNothingIff(config, ctx, w, diff, block, parent, order);
    hide CallIdle;
    var p := if parent.Some? then parent.value else ZERO_ADDRESS;
    var w' := ApplyContagion(config, ctx, w, diff, block, parent, order).0;
    if p in w || p == ZERO_ADDRESS {
      SpreadKeepsRooted(config, ctx.unwatch, w, diff, block, p, order);
    } else if w' != w {
      SpreadGrows(config, ctx.unwatch, w, diff, block, p, order);
      hide Spread, Rooted;
      var a :| a in w' && a !in w;
      forall n: nat ensures !Chain(w', a, n) {
        if n > 0 && p in w' {
          SelfParentHasNoChain(w', p, n - 1);
        }
      }
      NotRooted(w', config.maxDepth, a);
    }
  }

  // ---- Who is caught ----

  /** The parent is `n` hops from its root; no parent at all counts as one. */
  ghost predicate HopsFrom(w: WatchList, parent: Address, n: nat) {
    Chain(w, parent, n) || (parent == ZERO_ADDRESS && parent !in w && n == 0)
  }

  function EntryUnder(diff: StateDiff, block: nat, parent: Address): Address -> WatchEntry {
    (a: Address) => NewEntry(diff, a, block, parent)
  }

  lemma HopsStay(w: WatchList, diff: StateDiff, block: nat, parent: Address, n: nat, a: Address)
    requires HopsFrom(w, parent, n) && a !in w
    ensures HopsFrom(w[a := NewEntry(diff, a, block, parent)], parent, n)
  {
    if Chain(w, parent, n) {
      ChainExtends(w, w[a := NewEntry(diff, a, block, parent)], parent, n);
    }
  }

  lemma {:induction false} SpreadIsFill(config: Config, unwatch: set<Address>, w: WatchList, diff: StateDiff,
                                        block: nat, parent: Address, order: seq<Address>, n: nat)
    requires HopsFrom(w, parent, n)
    ensures Spread(config, unwatch, w, diff, block, parent, order)
            == if n + 1 > config.maxDepth then (w, true)
               else Fill(Candidates(config, Context(unwatch, false), diff), config.maxWatched,
                         EntryUnder(diff, block, parent), w, order)
    decreases |order|
  {
    hide ClassOf, NewEntry, HopsFrom;
    if order != [] {
      var a := order[0];
      HopsAreDepth(w, parent, n);
      hide Depth;
      SpreadIsFill(config, unwatch, w, diff, block, parent, order[1..], n);
      if a !in w {
        HopsStay(w, diff, block, parent, n, a);
        SpreadIsFill(config, unwatch, w[a := NewEntry(diff, a, block, parent)], diff, block, parent, order[1..], n);
      }
    }
  }

  lemma HopsAreDepth(w: WatchList, parent: Address, n: nat)
    requires HopsFrom(w, parent, n)
    ensures Depth(w, parent, {}) == n
  {
    if Chain(w, parent, n) {
      DepthIsChainLength(w, parent, n);
    }
  }

  /**
   Contagion from a parent `n` hops from its root, in any order: nothing if it is switched off or the parent too deep;
   else all newcomers, each under its parent, exactly when they fit, and otherwise as many as there is room for.
   */
  lemma ContagionIs(config: Config, ctx: Context, w: WatchList, diff: StateDiff, block: nat,
                    parent: Option<Address>, order: seq<Address>, n: nat)
    requires Visits(order, diff.accounts.Keys)
    requires HopsFrom(w, if parent.Some? then parent.value else 0, n)
    ensures var new_ := Newcomers(config, Context(ctx.unwatch, false), w, diff);
            var (w', ok) := ApplyContagion(config, ctx, w, diff, block, parent, order);
            if ctx.demote || !config.enableContagion || n + 1 > config.maxDepth then ok && w' == w
            else
              && (ok <==> new_ == {} || |w| + |new_| <= config.maxWatched)
              && (if ok then w'.Keys == w.Keys + new_ else |w'| == Max(|w|, config.maxWatched))
              && (forall a :: a in w ==> a in w' && w'[a] == w[a])
              && (forall a :: a in w' && a !in w ==>
                    && a in new_
                    && var root := parent.None? || parent.value == 0;
                    var source := if root then AutoClassified else Contagion(parent.value);
                    w'[a] == WatchEntry(source, block, |diff.accounts[a].storageWritten|, 0))
  {
    hide Spread, Newcomers, Visits, HopsFrom, NewEntry;
    var p := if parent.Some? then parent.value else ZERO_ADDRESS;
    SpreadIs(config, ctx.unwatch, w, diff, block, p, order, n);
    if !ctx.demote && config.enableContagion && n + 1 <= config.maxDepth {
      var w' := Spread(config, ctx.unwatch, w, diff, block, p, order).0;
      assert w' == ApplyContagion(config, ctx, w, diff, block, parent, order).0;
      forall a | a in w' && a !in w
        ensures a in diff.accounts && w'[a] == WatchEntry(SourceFor(p), block, |diff.accounts[a].storageWritten|, 0)
      {
        EntryIs(diff, a, block, p);
      }
    }
  }

  lemma EntryIs(diff: StateDiff, a: Address, block: nat, p: Address)
    requires a in diff.accounts
    ensures NewEntry(diff, a, block, p) == WatchEntry(SourceFor(p), block, |diff.accounts[a].storageWritten|, 0)
  {
  }

  lemma SpreadIs(config: Config, unwatch: set<Address>, w: WatchList, diff: StateDiff, block: nat, parent: Address,
                 order: seq<Address>, n: nat)
    requires Visits(order, diff.accounts.Keys) && HopsFrom(w, parent, n)
    ensures var new_ := Newcomers(config, Context(unwatch, false), w, diff);
            var (w', ok) := Spread(config, unwatch, w, diff, block, parent, order);
            && (forall a :: a in new_ ==> a in diff.accounts)
            && if n + 1 > config.maxDepth then ok && w' == w
               else
                 && (ok <==> new_ == {} || |w| + |new_| <= config.maxWatched)
                 && (if ok then w'.Keys == w.Keys + new_ else |w'| == Max(|w|, config.maxWatched))
                 && (forall a :: a in w ==> a in w' && w'[a] == w[a])
                 && (forall a :: a in w' && a !in w ==> a in new_ && w'[a] == NewEntry(diff, a, block, parent))
  {
    hide Spread, Fill, Candidates, Newcomers, Missing, Visits, HopsFrom, NewEntry;
    var c := Context(unwatch, false);
    NewcomersAreMissing(config, c, w, diff, order);
    SpreadIsFill(config, unwatch, w, diff, block, parent, order, n);
    FillIs(Candidates(config, c, diff), config.maxWatched, EntryUnder(diff, block, parent), w, order);
  }

  // ---- Whole runs of the follower ----

  /** One replayed transaction: contagion, then the classifier; a full list drops the whole replay. */
  datatype Event =
    | Replay(ctx: Context, diff: StateDiff, block: nat, parent: Option<Address>, contagionOrder: seq<Address>,
             classifierOrder: seq<Address>)
    | Watch(a: Address, block: nat)

  function Step(config: Config, w: WatchList, e: Event): WatchList {
    match e
    case Replay(ctx, diff, block, parent, o1, o2) =>
      var (w1, ok1) := ApplyContagion(config, ctx, w, diff, block, parent, o1);
      var (w2, ok2) := Apply(config, ctx, w1, diff, block, o2);
      if ok1 && ok2 then w2 else w
    case Watch(a, block) => w[a := WatchEntry(Manual, block, 0, 0)]
  }

  function Run(config: Config, events: seq<Event>): WatchList {
    if events == [] then map[] else Step(config, Run(config, events[..|events| - 1]), events[|events| - 1])
  }

  ghost predicate VisitsBoth(e: Event)
    requires e.Replay?
  {
    Visits(e.contagionOrder, e.diff.accounts.Keys) && Visits(e.classifierOrder, e.diff.accounts.Keys)
  }

  /** A replay takes in all the newcomers of its diff when they fit, and else nothing of it stays. */
  lemma ReplayIs(config: Config, w: WatchList, e: Event, n: nat)
    requires e.Replay? && VisitsBoth(e) && HopsFrom(w, if e.parent.Some? then e.parent.value else 0, n)
    ensures var new_, w' := Newcomers(config, e.ctx, w, e.diff), Step(config, w, e);
            if new_ == {} || |w| + |new_| <= config.maxWatched then
              w'.Keys == w.Keys + new_ && forall a :: a in w ==> w'[a] == w[a]
            else w' == w
  {
    hide ApplyContagion, Apply, Newcomers, Visits, HopsFrom;
    var (w1, ok1) := ApplyContagion(config, e.ctx, w, e.diff, e.block, e.parent, e.contagionOrder);
    ContagionIs(config, e.ctx, w, e.diff, e.block, e.parent, e.contagionOrder, n);
    AppliedIs(config, e.ctx, w1, e.diff, e.block, e.classifierOrder);
    NewcomersLeft(config, e.ctx, w, w1, e.diff);
  }

  lemma NewcomersLeft(config: Config, ctx: Context, w: WatchList, w1: WatchList, diff: StateDiff)
    ensures w1 == w ==> Newcomers(config, ctx, w1, diff) == Newcomers(config, ctx, w, diff)
    ensures !ctx.demote ==> Newcomers(config, Context(ctx.unwatch, false), w, diff) == Newcomers(config, ctx, w, diff)
    ensures w1.Keys == w.Keys + Newcomers(config, ctx, w, diff) ==> Newcomers(config, ctx, w1, diff) == {}
  {
    hide WorthWatching;
    assert !ctx.demote ==> ctx == Context(ctx.unwatch, false);
  }

  /** What was watched by hand once stays so, whatever is replayed and watched later. */
  lemma {:induction false} ManualStays(config: Config, events: seq<Event>, i: nat)
    requires i < |events| && events[i].Watch?
    ensures var w, a := Run(config, events), events[i].a; a in w && w[a].source == Manual
    decreases |events|
  {
    var front, e := events[..|events| - 1], events[|events| - 1];
    if i < |front| {
      ManualStays(config, front, i);
      hide Spread, Apply, ApplyContagion;
      if e.Replay? {
        var w := Run(config, front);
        var (w1, _) := ApplyContagion(config, e.ctx, w, e.diff, e.block, e.parent, e.contagionOrder);
        ContagionGrows(config, w, e);
        CapHolds(config, e.ctx, w1, e.diff, e.block, e.classifierOrder);
      }
    }
  }

  lemma ContagionGrows(config: Config, w: WatchList, e: Event)
    requires e.Replay?
    ensures Extends(w, ApplyContagion(config, e.ctx, w, e.diff, e.block, e.parent, e.contagionOrder).0)
  {
    hide Spread;
    SpreadGrows(config, e.ctx.unwatch, w, e.diff, e.block, if e.parent.Some? then e.parent.value else ZERO_ADDRESS,
                e.contagionOrder);
  }

  /** Without address or selector filters a transaction is replayed only if its target is watched already. */
  ghost predicate ParentsWatched(config: Config, events: seq<Event>) {
    forall i :: 0 <= i < |events| && events[i].Replay? && events[i].parent.Some? ==>
      events[i].parent.value in Run(config, events[..i])
  }

  lemma {:induction false} NewRootShortens(w: WatchList, w': WatchList, r: Address, b: Address, n: nat)
    requires Chain(w, b, n) && r in w' && !w'[r].source.Contagion?
    requires forall a :: a in w && a != r ==> a in w' && w'[a] == w[a]
    ensures exists m: nat :: m <= n && Chain(w', b, m)
    decreases n
  {
    if b == r || n == 0 {
      assert Chain(w', b, 0);
    } else {
      NewRootShortens(w, w', r, w[b].source.parent, n - 1);
      var m: nat :| m <= n - 1 && Chain(w', w[b].source.parent, m);
      assert Chain(w', b, m + 1);
    }
  }

  /** A manual watch, which overwrites any entry for its address, only shortens chains. */
  lemma WatchKeepsRooted(w: WatchList, max: nat, r: Address, e: WatchEntry)
    requires Rooted(w, max) && !e.source.Contagion?
    ensures Rooted(w[r := e], max)
  {
    var w' := w[r := e];
    forall b | b in w' ensures exists m: nat :: m <= max && Chain(w', b, m) {
      if b == r {
        assert Chain(w', b, 0);
      } else {
        var n: nat :| n <= max && Chain(w, b, n);
        NewRootShortens(w, w', r, b, n);
      }
    }
  }

  lemma {:induction false} ClassifierKeepsRooted(config: Config, ctx: Context, w: WatchList, diff: StateDiff,
                                                 block: nat, order: seq<Address>)
    requires Rooted(w, config.maxDepth)
    ensures Rooted(Apply(config, ctx, w, diff, block, order).0, config.maxDepth)
    decreases |order|
  {
    if order != [] {
      var a := order[0];
      ClassifierKeepsRooted(config, ctx, w, diff, block, order[1..]);
      if a !in w {
        AddKeepsRooted(w, config.maxDepth, a, AutoEntry(diff, a, block));
        ClassifierKeepsRooted(config, ctx, w[a := AutoEntry(diff, a, block)], diff, block, order[1..]);
      }
    }
  }

  /**
   Over any run of the follower, every contagion chain stays inside the list and reaches a root within the
   configured depth, `watch_depth` is that number of hops, and no chain is a cycle.
   */
  lemma {:induction false} RunsStayRooted(config: Config, events: seq<Event>)
    requires ParentsWatched(config, events)
    ensures Rooted(Run(config, events), config.maxDepth)
  {
    if events != [] {
      var front, e := events[..|events| - 1], events[|events| - 1];
      forall i | 0 <= i < |front| && front[i].Replay? && front[i].parent.Some?
        ensures front[i].parent.value in Run(config, front[..i])
      {
        assert front[..i] == events[..i];
      }
      RunsStayRooted(config, front);
      var w := Run(config, front);
      if e.Replay? {
        var p := if e.parent.Some? then e.parent.value else ZERO_ADDRESS;
        SpreadKeepsRooted(config, e.ctx.unwatch, w, e.diff, e.block, p, e.contagionOrder);
        ClassifierKeepsRooted(config, e.ctx,
          ApplyContagion(config, e.ctx, w, e.diff, e.block, e.parent, e.contagionOrder).0,
                              e.diff, e.block, e.classifierOrder);
      } else {
        WatchKeepsRooted(w, config.maxDepth, e.a, WatchEntry(Manual, e.block, 0, 0));
      }
    }
  }

  lemma RunDepths(config: Config, events: seq<Event>, a: Address, k: nat)
    requires ParentsWatched(config, events) && a in Run(config, events)
    ensures var w := Run(config, events);
            && Depth(w, a, {}) <= config.maxDepth && Chain(w, a, Depth(w, a, {}))
            && (k > 0 ==> Ancestor(w, a, k) != Some(a))
  {
    RunsStayRooted(config, events);
    var w := Run(config, events);
    var n: nat :| n <= config.maxDepth && Chain(w, a, n);
    DepthIsChainLength(w, a, n);
    if k > 0 { ChainIsAcyclic(w, a, n, k); }
  }

  /** The manual watches of a run. */
  function Watches(events: seq<Event>): nat {
    if events == [] then 0 else Watches(events[..|events| - 1]) + if events[|events| - 1].Watch? then 1 else 0
  }

  /** A manual watch skips the cap, and nothing else does: each can push the list one entry past it. */
  lemma {:induction false} RunsKeepWatchedCap(config: Config, events: seq<Event>)
    ensures |Run(config, events)| <= config.maxWatched + Watches(events)
  {
    if events != [] {
      var front, e := events[..|events| - 1], events[|events| - 1];
      RunsKeepWatchedCap(config, front);
      StepKeepsCap(config, Run(config, front), e);
    }
  }

  lemma StepKeepsCap(config: Config, w: WatchList, e: Event)
    ensures |Step(config, w, e)| <= if e.Replay? then Max(|w|, config.maxWatched) else |w| + 1
  {
    if e.Replay? {
      var p := if e.parent.Some? then e.parent.value else ZERO_ADDRESS;
      SpreadGrows(config, e.ctx.unwatch, w, e.diff, e.block, p, e.contagionOrder);
      CapHolds(config, e.ctx, ApplyContagion(config, e.ctx, w, e.diff, e.block, e.parent, e.contagionOrder).0,
               e.diff, e.block, e.classifierOrder);
    } else {
      var w' := Step(config, w, e);
      assert w'.Keys == w.Keys + {e.a};
    }
  }

  /** Replays alone never push the list past its cap, whatever the parents. */
  lemma {:induction false} RunsKeepCap(config: Config, events: seq<Event>)
    requires forall i :: 0 <= i < |events| ==> events[i].Replay?
    ensures |Run(config, events)| <= config.maxWatched
  {
    NoWatches(events);
    RunsKeepWatchedCap(config, events);
  }

  lemma {:induction false} NoWatches(events: seq<Event>)
    requires forall i :: 0 <= i < |events| ==> events[i].Replay?
    ensures Watches(events) == 0
  {
    if events != [] {
      NoWatches(events[..|events| - 1]);
    }
  }

  function WatchFirst(n: nat): seq<Event> { if n == 0 then [] else WatchFirst(n - 1) + [Watch(n - 1, 0)] }

  lemma AddWatch(config: Config, front: seq<Event>, a: Address)
    ensures Run(config, front + [Watch(a, 0)]).Keys == Run(config, front).Keys + {a}
    ensures Watches(front + [Watch(a, 0)]) == Watches(front) + 1
  {
    var events := front + [Watch(a, 0)];
    assert events[..|events| - 1] == front;
  }

  /** The bound is reached, and the cap passed, by watching address after address. */
  lemma {:induction false} WatchesPassCap(config: Config, n: nat)
    ensures var w := Run(config, WatchFirst(n));
            |w| == n == Watches(WatchFirst(n)) && forall a: Address :: a in w ==> a < n
  {
    hide Run, Watches;
    if n == 0 {
      NothingWatched(config);
    } else {
      var front, a: Address := WatchFirst(n - 1), n - 1;
      WatchesPassCap(config, n - 1);
      AddWatch(config, front, a);
      OneMoreKey(Run(config, front), Run(config, front + [Watch(a, 0)]), a);
    }
  }

  lemma NothingWatched(config: Config)
    ensures Run(config, []) == map[] && Watches([]) == 0
  {
  }

  lemma OneMoreKey(w: WatchList, w': WatchList, a: Address)
    requires w'.Keys == w.Keys + {a} && a !in w
    ensures |w'| == |w| + 1 && forall b :: b in w' <==> b in w || b == a
  {
    assert forall b :: b in w' <==> b in w'.Keys;
    assert |w'.Keys| == |w.Keys| + 1;
  }

  /** A manual watch finds its address listed already, or room under the cap. */
  predicate WatchFits(config: Config, w: WatchList, e: Event) { e.Watch? ==> e.a in w || |w| < config.maxWatched }

  ghost predicate AlwaysCapped(config: Config, events: seq<Event>) {
    forall i: nat :: i <= |events| ==> |Run(config, events[..i])| <= config.maxWatched
  }

  ghost predicate WatchesFit(config: Config, events: seq<Event>) {
    forall i: nat :: i < |events| ==> WatchFits(config, Run(config, events[..i]), events[i])
  }

  lemma StepCappedIff(config: Config, w: WatchList, e: Event)
    requires |w| <= config.maxWatched
    ensures |Step(config, w, e)| <= config.maxWatched <==> WatchFits(config, w, e)
  {
    if e.Watch? && e.a !in w {
      OneMoreKey(w, Step(config, w, e), e.a);
    } else if e.Watch? {
      var w' := Step(config, w, e);
      assert w'.Keys == w.Keys;
      assert |w'| == |w'.Keys| && |w| == |w.Keys|;
    } else {
      StepKeepsCap(config, w, e);
      hide Step;
    }
  }

  lemma CapPrefixes(config: Config, front: seq<Event>, e: Event)
    ensures AlwaysCapped(config, front + [e])
            <==> AlwaysCapped(config, front) && |Run(config, front + [e])| <= config.maxWatched
    ensures WatchesFit(config, front + [e]) <==> WatchesFit(config, front) && WatchFits(config, Run(config, front), e)
  {
    hide Run, WatchFits;
    var events, n := front + [e], |front|;
    assert events[..n + 1] == events && events[n] == e && front[..n] == front;
    forall i: nat | i <= n ensures events[..i] == front[..i] {
    }
    if AlwaysCapped(config, events) {
      forall i: nat | i <= n ensures |Run(config, front[..i])| <= config.maxWatched {
        assert events[..i] == front[..i];
      }
      assert |Run(config, events[..n + 1])| <= config.maxWatched;
    }
    if WatchesFit(config, events) {
      forall i: nat | i < n ensures WatchFits(config, Run(config, front[..i]), front[i]) {
        assert events[..i] == front[..i] && events[i] == front[i];
      }
      assert WatchFits(config, Run(config, events[..n]), events[n]);
    }
  }

  /** The list stays within its cap all along a run exactly when every manual watch finds its address listed, or
      room. */
  lemma {:induction false} RunsCappedIff(config: Config, events: seq<Event>)
    ensures AlwaysCapped(config, events) <==> WatchesFit(config, events)
    decreases |events|
  {
    if events == [] {
      NothingWatched(config);
      assert events[..0] == events;
    } else {
      var front, e := events[..|events| - 1], events[|events| - 1];
      assert events == front + [e];
      RunsCappedIff(config, front);
      CapPrefixes(config, front, e);
      if AlwaysCapped(config, front) {
        assert front[..|front|] == front;
        StepCappedIff(config, Run(config, front), e);
      }
      hide AlwaysCapped, WatchesFit, WatchFits, Step;
    }
  }
}
