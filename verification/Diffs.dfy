/** State diffs between two dirty maps: extraction (fork.rs) and re-application (`DirtyStore::apply_state_diff`). */
module Diffs {
  import opened Prelude
  import opened ForkTypes
  import opened Dirty

  /** `(after != before).then_some(after).flatten()`. */
  function ChangedTo<T(==)>(before: Option<T>, after: Option<T>): Option<T> {
    if after == before then None else after
  }

  function WrittenSlots(before: map<Word, Word>, after: map<Word, Word>): map<Word, Word> {
    map s | s in after && Lookup(before, s) != Some(after[s]) :: after[s]
  }

  function AccountDiffFrom(before: Option<DirtyAccount>, after: DirtyAccount): Option<AccountDiff> {
    var b := if before.Some? then before.value else NO_OVERRIDES;
    var written := WrittenSlots(b.storage, after.storage);
    var balance, nonce, code :=
      ChangedTo(b.balance, after.balance), ChangedTo(b.nonce, after.nonce), ChangedTo(b.code, after.code);
    var infoChanged := balance.Some? || nonce.Some? || code.Some?;
    if written == map[] && !infoChanged then None
    else Some(AccountDiff(infoChanged, balance, nonce, code, written, {}))
  }

  function DiffAccounts(before: Accounts, after: Accounts): map<Address, AccountDiff> {
    map a | a in before.Keys + after.Keys && a in after && AccountDiffFrom(Lookup(before, a), after[a]).Some? ::
      AccountDiffFrom(Lookup(before, a), after[a]).value
  }

  function DiffMaps(before: Accounts, after: Accounts, result: StateDiff): StateDiff {
    result.(accounts := DiffAccounts(before, after))
  }

  /** The overrides a diff is meant to carry: balance, nonce, code, code hash and slots. */
  ghost predicate SameOverrides(x: DirtyAccount, y: DirtyAccount) {
    x.balance == y.balance && x.nonce == y.nonce && x.code == y.code && x.codeHash == y.codeHash
      && x.storage == y.storage
  }

  /** An account with no entry overrides nothing. */
  ghost predicate SameState(m: Accounts, n: Accounts) {
    forall a :: SameOverrides(Entry(m, a), Entry(n, a))
  }

  /**
   What a diff cannot express: an override that disappears. The code hash must follow the code, because the
   diff carries only the code.
   */
  ghost predicate OverridesSurvive(hash: Code -> Hash, b: DirtyAccount, c: DirtyAccount) {
    && (b.balance.Some? ==> c.balance.Some?)
    && (b.nonce.Some? ==> c.nonce.Some?)
    && (b.code.Some? ==> c.code.Some?)
    && b.storage.Keys <= c.storage.Keys
    && c.codeHash == if c.code == b.code || c.code.None? then b.codeHash else Some(hash(c.code.value))
  }

  ghost predicate NothingLost(hash: Code -> Hash, before: Accounts, after: Accounts) {
    forall a :: OverridesSurvive(hash, Entry(before, a), Entry(after, a))
  }

  lemma AccountRoundTrip(hash: Code -> Hash, before: Accounts, after: Accounts, result: StateDiff, a: Address)
    ensures SameOverrides(Entry(ApplyDiff(hash, before, DiffMaps(before, after, result)), a), Entry(after, a))
            <==> OverridesSurvive(hash, Entry(before, a), Entry(after, a))
  {
    var b, c := Entry(before, a), Entry(after, a);
    var applied := Entry(ApplyDiff(hash, before, DiffMaps(before, after, result)), a);
    StorageRoundTrip(b.storage, c.storage);
    if a in after && AccountDiffFrom(Lookup(before, a), c).Some? {
      assert applied == ApplyAccountDiff(hash, b, AccountDiffFrom(Lookup(before, a), c).value);
    } else {
      assert applied == b;
    }
  }

  lemma StorageRoundTrip(b: map<Word, Word>, c: map<Word, Word>)
    ensures b + WrittenSlots(b, c) == c <==> b.Keys <= c.Keys
    ensures WrittenSlots(b, c) == map[] ==> (b == c <==> b.Keys <= c.Keys)
  {
    var w := WrittenSlots(b, c);
    if b.Keys <= c.Keys {
      assert (b + w).Keys == c.Keys;
    } else {
      var s :| s in b && s !in c;
      assert s in b + w;
    }
    if w == map[] && b.Keys <= c.Keys {
      forall s | s in c ensures s in b && b[s] == c[s] {
        assert s !in w;
      }
    }
  }

  /** Applying the extracted diff to the first map gives the second exactly when no override was lost between them. */
  lemma DiffRoundTrip(hash: Code -> Hash, before: Accounts, after: Accounts, result: StateDiff)
    ensures SameState(ApplyDiff(hash, before, DiffMaps(before, after, result)), after)
            <==> NothingLost(hash, before, after)
  {
    forall a
      ensures SameOverrides(Entry(ApplyDiff(hash, before, DiffMaps(before, after, result)), a), Entry(after, a))
              <==> OverridesSurvive(hash, Entry(before, a), Entry(after, a))
    {
      AccountRoundTrip(hash, before, after, result, a);
    }
  }

  /** The diff is minimal: every entry in it is a change, and every change to a present value is in it. */
  lemma DiffHoldsOnlyChanges(before: Accounts, after: Accounts, a: Address, s: Word)
    ensures var d, b, c := DiffAccounts(before, after), Entry(before, a), Entry(after, a);
            && (a in d ==> a in after && !SameOverrides(b, c))
            && (a in d && s in d[a].storageWritten <==>
                  s in c.storage && (s !in b.storage || b.storage[s] != c.storage[s]))
            && (a in d && s in d[a].storageWritten ==> d[a].storageWritten[s] == c.storage[s])
            && (a in d && d[a].newBalance.Some? <==> c.balance.Some? && c.balance != b.balance)
            && (a in d && d[a].newNonce.Some? <==> c.nonce.Some? && c.nonce != b.nonce)
            && (a in d && d[a].newCode.Some? <==> c.code.Some? && c.code != b.code)
            && (a in d ==> d[a].storageRead == {}
                           && (d[a].infoChanged <==>
                                 || (c.balance.Some? && c.balance != b.balance)
                                 || (c.nonce.Some? && c.nonce != b.nonce)
                                 || (c.code.Some? && c.code != b.code)))
  {
    var b, c := Entry(before, a), Entry(after, a);
    var w := WrittenSlots(b.storage, c.storage);
    if s in w {
      assert w != map[];
    }
    if w != map[] {
      var x :| x in w;
      assert Lookup(b.storage, x) != Some(c.storage[x]);
    }
  }

  // ---- Diffs across an EVM commit ----

  /** Every override of code carries the hash of that code. */
  ghost predicate HashesFollowCode(hash: Code -> Hash, m: Accounts) {
    forall a :: a in m && m[a].code.Some? ==> m[a].codeHash == Some(hash(m[a].code.value))
  }

  ghost predicate DestroysDirty(m: Accounts, changes: map<Address, EvmAccount>) {
    exists a :: a in m && a in changes && changes[a].touched && (changes[a].selfDestructed || changes[a].created)
  }

  /** Every way the accounts of a write layer change; `Back` restores what an earlier snapshot captured. */
  datatype LayerOp =
    | Balance(a: Address, balance: Word)
    | Nonce(a: Address, nonce: nat)
    | Code(a: Address, code: Code)
    | Slot(a: Address, slot: Word, value: Word)
    | Apply(diff: StateDiff)
    | Commit(changes: map<Address, EvmAccount>)
    | Wipe
    | Back(to: nat)

  function LayerAfter(hash: Code -> Hash, ops: seq<LayerOp>): Accounts {
    if ops == [] then map[] else
    var n := |ops| - 1;
    var m := LayerAfter(hash, ops[..n]);
    match ops[n]
    case Balance(a, balance) => m[a := Entry(m, a).(balance := Some(balance))]
    case Nonce(a, nonce) => m[a := Entry(m, a).(nonce := Some(nonce))]
    case Code(a, code) => m[a := Entry(m, a).(code := Some(code), codeHash := Some(hash(code)))]
    case Slot(a, slot, value) => m[a := Entry(m, a).(storage := Entry(m, a).storage[slot := value])]
    case Apply(diff) => ApplyDiff(hash, m, diff)
    case Commit(changes) => CommitAll(hash, m, changes)
    case Wipe => map[]
    case Back(to) => LayerAfter(hash, ops[..if to < n then to else n])
  }

  /** In every reachable layer an override of code carries its hash. */
  lemma {:induction false} LayersFollowCode(hash: Code -> Hash, ops: seq<LayerOp>)
    ensures HashesFollowCode(hash, LayerAfter(hash, ops))
    decreases |ops|
  {
    if ops != [] {
      var n := |ops| - 1;
      LayersFollowCode(hash, ops[..n]);
      if ops[n].Back? {
        LayersFollowCode(hash, ops[..if ops[n].to < n then ops[n].to else n]);
      }
    }
  }

  /**
   What must hold of a touched account for its overrides to survive: a destroyed one had none, and a re-created
   one writes all its slots again, and its code unless it had none.
   */
  ghost predicate Rewritten(acc: DirtyAccount, c: EvmAccount) {
    if c.selfDestructed then SameOverrides(acc, NO_OVERRIDES)
    else c.created ==>
      && acc.storage.Keys <= Changed(c.storage).Keys
      && ((c.code.Some? && c.code.value != "") || (acc.code.None? && acc.codeHash.None?))
  }

  ghost predicate AllRewritten(m: Accounts, changes: map<Address, EvmAccount>) {
    forall a | a in m && a in changes && changes[a].touched :: Rewritten(m[a], changes[a])
  }

  lemma CommittedAccount(hash: Code -> Hash, m: Accounts, changes: map<Address, EvmAccount>, a: Address)
    requires HashesFollowCode(hash, m)
    ensures var after := CommitAll(hash, m, changes);
            && (OverridesSurvive(hash, Entry(m, a), Entry(after, a))
                <==> (a in m && a in changes && changes[a].touched ==> Rewritten(m[a], changes[a])))
            && (a in after && after[a].code.Some? ==> after[a].codeHash == Some(hash(after[a].code.value)))
  {
    if a in changes && changes[a].touched && a in m {
      var acc, c := m[a], changes[a];
      if c.selfDestructed {
        assert Entry(CommitAll(hash, m, changes), a) == NO_OVERRIDES;
        assert acc.storage.Keys <= {} <==> acc.storage == map[];
      } else {
        assert (NO_OVERRIDES.storage + Changed(c.storage)).Keys == Changed(c.storage).Keys;
      }
    }
  }

  /** Commits keep code and hash together, and the round trip holds exactly when every touched account is rewritten. */
  lemma CommitRoundTripIff(hash: Code -> Hash, m: Accounts, changes: map<Address, EvmAccount>, result: StateDiff)
    requires HashesFollowCode(hash, m)
    ensures var after := CommitAll(hash, m, changes);
            && HashesFollowCode(hash, after)
            && (SameState(ApplyDiff(hash, m, DiffMaps(m, after, result)), after) <==> AllRewritten(m, changes))
  {
    hide CommitAll, OverridesSurvive, SameState, Rewritten, ApplyDiff;
    var after := CommitAll(hash, m, changes);
    forall a
      ensures OverridesSurvive(hash, Entry(m, a), Entry(after, a))
              <==> (a in m && a in changes && changes[a].touched ==> Rewritten(m[a], changes[a]))
    {
      CommittedAccount(hash, m, changes, a);
    }
    forall a | a in after && after[a].code.Some? ensures after[a].codeHash == Some(hash(after[a].code.value)) {
      CommittedAccount(hash, m, changes, a);
    }
    DiffRoundTrip(hash, m, after, result);
  }

  /** So it holds unless a dirty account is destroyed or re-created. */
  lemma CommitRoundTrip(hash: Code -> Hash, m: Accounts, changes: map<Address, EvmAccount>, result: StateDiff)
    requires HashesFollowCode(hash, m) && !DestroysDirty(m, changes)
    ensures var after := CommitAll(hash, m, changes);
            HashesFollowCode(hash, after) && SameState(ApplyDiff(hash, m, DiffMaps(m, after, result)), after)
  {
    forall a | a in m && a in changes && changes[a].touched ensures Rewritten(m[a], changes[a]) {
    }
    CommitRoundTripIff(hash, m, changes, result);
    hide CommitAll, SameState;
  }

  /** A re-created account: the slots of its former life that it does not write again come back through the diff. */
  lemma RecreatedSlotComesBack(
    hash: Code -> Hash, m: Accounts, a: Address, c: EvmAccount, s: Word, result: StateDiff)
    requires a in m && c.touched && !c.selfDestructed && c.created && s in m[a].storage && s !in Changed(c.storage)
    ensures var after := CommitAll(hash, m, map[a := c]);
            var applied := ApplyDiff(hash, m, DiffMaps(m, after, result));
            && s !in Entry(after, a).storage
            && Lookup(Entry(applied, a).storage, s) == Some(m[a].storage[s])
            && !SameState(applied, after)
  {
    var after := CommitAll(hash, m, map[a := c]);
    var applied := ApplyDiff(hash, m, DiffMaps(m, after, result));
    assert after[a].storage == map[] + Changed(c.storage);
    assert !SameOverrides(Entry(applied, a), Entry(after, a));
  }

  /** The restriction is needed: a destroyed account leaves no trace in the diff, so its overrides come back. */
  lemma SelfDestructIsLost(hash: Code -> Hash, m: Accounts, a: Address, c: EvmAccount, result: StateDiff)
    requires a in m && c.touched && c.selfDestructed && !SameOverrides(m[a], NO_OVERRIDES)
    ensures var after := CommitAll(hash, m, map[a := c]);
            && a !in DiffAccounts(m, after)
            && Entry(ApplyDiff(hash, m, DiffMaps(m, after, result)), a) == m[a]
            && !SameState(ApplyDiff(hash, m, DiffMaps(m, after, result)), after)
  {
    var after := CommitAll(hash, m, map[a := c]);
    assert Entry(after, a) == NO_OVERRIDES;
    assert !SameOverrides(Entry(ApplyDiff(hash, m, DiffMaps(m, after, result)), a), Entry(after, a));
  }
}

/** Classification of diffs and the watch list it feeds: `DiffClassifier` in fork.rs. */
module Classifier {
  import opened Prelude
  import opened ForkTypes
  import opened Dirty

  datatype Config = Config(
    slotThreshold: nat, checkTokenInterface: bool, maxWatched: nat, enableContagion: bool, maxDepth: nat)

  datatype Class = Protocol | SlotOnly | ReadOnly

  predicate LooksLikeToken(config: Config, d: AccountDiff) {
    config.checkTokenInterface && d.storageWritten != map[] && forall s :: s in d.storageWritten ==> s >= 20
  }

  function ClassOf(config: Config, d: AccountDiff): Class {
    if d.storageWritten == map[] && !d.infoChanged then ReadOnly
    else if |d.storageWritten| >= config.slotThreshold && !LooksLikeToken(config, d) then Protocol
    else SlotOnly
  }

  type WatchList = map<Address, WatchEntry>

  /** The part of a dirty store the classifier reads. */
  datatype Context = Context(unwatch: set<Address>, demote: bool)

  predicate Promotes(config: Config, ctx: Context, diff: StateDiff, a: Address) {
    a in diff.accounts && a !in ctx.unwatch && !ctx.demote && ClassOf(config, diff.accounts[a]) == Protocol
  }

  function AutoEntry(diff: StateDiff, a: Address, block: nat): WatchEntry {
    WatchEntry(AutoClassified, block, if a in diff.accounts then |diff.accounts[a].storageWritten| else 0, 0)
  }

  function AutoEntryOf(diff: StateDiff, block: nat): Address -> WatchEntry { (a: Address) => AutoEntry(diff, a, block) }

  /** `apply`, visiting the accounts in `order`; the second result is false for `WatchListFull`. */
  function Apply(config: Config, ctx: Context, w: WatchList, diff: StateDiff, block: nat, order: seq<Address>)
    : (WatchList, bool)
    decreases |order|
  {
    if order == [] then (w, true) else
    var a := order[0];
    if !Promotes(config, ctx, diff, a) || a in w then Apply(config, ctx, w, diff, block, order[1..])
    else if |w| >= config.maxWatched then (w, false)
    else Apply(config, ctx, w[a := AutoEntry(diff, a, block)], diff, block, order[1..])
  }

  method ApplyTo(config: Config, store: DirtyStore, demote: bool, diff: StateDiff, block: nat, order: seq<Address>)
    returns (ok: bool)
    modifies store`watchList
    ensures (store.watchList, ok)
            == Apply(config, Context(store.unwatchList, demote), old(store.watchList), diff, block, order)
  {
    ghost var ctx := Context(store.unwatchList, demote);
    for i := 0 to |order|
      invariant Apply(config, ctx, old(store.watchList), diff, block, order)
                == Apply(config, ctx, store.watchList, diff, block, order[i..])
    {
      var a := order[i];
      if a in store.unwatchList || a !in diff.accounts {
        continue;
      }
      var class_ := ClassOf(config, diff.accounts[a]);
      if demote && class_ == Protocol {
        class_ := SlotOnly;
      }
      if class_ == Protocol {
        if a !in store.watchList && |store.watchList| >= config.maxWatched {
          return false;
        }
        if a !in store.watchList {
          store.watchList := store.watchList[a := AutoEntry(diff, a, block)];
        }
      }
    }
    return true;
  }

  /** A hash map visits each key once, in some order. */
  ghost predicate Visits(order: seq<Address>, keys: set<Address>) {
    (forall i, j :: 0 <= i < j < |order| ==> order[i] != order[j]) && (forall a :: a in order <==> a in keys)
  }

  /** The accounts the classifier would like to add. */
  function Wanted(config: Config, ctx: Context, w: WatchList, diff: StateDiff): set<Address> {
    set a | a in diff.accounts && Promotes(config, ctx, diff, a) && a !in w
  }

  predicate Fits(config: Config, ctx: Context, w: WatchList, diff: StateDiff) {
    var wanted := Wanted(config, ctx, w, diff);
    wanted == {} || |w| + |wanted| <= config.maxWatched
  }

  function WithAll(w: WatchList, added: set<Address>, entry: Address -> WatchEntry): WatchList {
    map a | a in w.Keys + added :: if a in w then w[a] else entry(a)
  }

  function AllAdded(config: Config, ctx: Context, w: WatchList, diff: StateDiff, block: nat): WatchList {
    WithAll(w, Wanted(config, ctx, w, diff), AutoEntryOf(diff, block))
  }

  /** The bare loop: add the candidates of `order` one by one until the list is full. */
  function Fill(candidates: set<Address>, max: nat, entry: Address -> WatchEntry, w: WatchList, order: seq<Address>)
    : (WatchList, bool)
    decreases |order|
  {
    if order == [] then (w, true) else
    var a := order[0];
    if a !in candidates || a in w then Fill(candidates, max, entry, w, order[1..])
    else if |w| >= max then (w, false)
    else Fill(candidates, max, entry, w[a := entry(a)], order[1..])
  }

  ghost function Candidates(config: Config, ctx: Context, diff: StateDiff): set<Address> {
    set a | a in diff.accounts && Promotes(config, ctx, diff, a)
  }

  lemma {:induction false} ApplyIsFill(
    config: Config, ctx: Context, w: WatchList, diff: StateDiff, block: nat, order: seq<Address>)
    ensures Apply(config, ctx, w, diff, block, order)
            == Fill(Candidates(config, ctx, diff), config.maxWatched, AutoEntryOf(diff, block), w, order)
    decreases |order|
  {
    if order != [] {
      var a := order[0];
      ApplyIsFill(config, ctx, w, diff, block, order[1..]);
      ApplyIsFill(config, ctx, w[a := AutoEntry(diff, a, block)], diff, block, order[1..]);
    }
  }

  /** The candidates of `order` not yet in the list. */
  ghost function Missing(candidates: set<Address>, w: WatchList, order: seq<Address>): set<Address> {
    set a | a in order && a in candidates && a !in w
  }

  lemma MissingStep(candidates: set<Address>, w: WatchList, order: seq<Address>, e: WatchEntry)
    requires order != []
    ensures var a, m := order[0], Missing(candidates, w, order);
            && (a in m ==> Missing(candidates, w[a := e], order[1..]) == m - {a} && |m - {a}| == |m| - 1)
            && (a !in m ==> Missing(candidates, w, order[1..]) == m)
  {
    assert order == [order[0]] + order[1..];
  }

  lemma {:induction false} FillGrows(
    candidates: set<Address>, max: nat, entry: Address -> WatchEntry, w: WatchList, order: seq<Address>)
    ensures var w' := Fill(candidates, max, entry, w, order).0;
            |w'| <= Max(|w|, max) && w.Keys <= w'.Keys && forall a :: a in w ==> w'[a] == w[a]
    decreases |order|
  {
    if order != [] {
      FillGrows(candidates, max, entry, w, order[1..]);
      FillGrows(candidates, max, entry, w[order[0] := entry(order[0])], order[1..]);
    }
  }

  /** The list never outgrows its cap, whatever order the accounts come in. */
  lemma CapHolds(config: Config, ctx: Context, w: WatchList, diff: StateDiff, block: nat, order: seq<Address>)
    ensures var w' := Apply(config, ctx, w, diff, block, order).0;
            |w'| <= Max(|w|, config.maxWatched) && w.Keys <= w'.Keys && forall a :: a in w ==> w'[a] == w[a]
  {
    ApplyIsFill(config, ctx, w, diff, block, order);
    FillGrows(Candidates(config, ctx, diff), config.maxWatched, AutoEntryOf(diff, block), w, order);
  }

  lemma WithAllStep(w: WatchList, added: set<Address>, entry: Address -> WatchEntry, a: Address)
    requires a in added && a !in w
    ensures WithAll(w[a := entry(a)], added - {a}, entry) == WithAll(w, added, entry)
  {
  }

  /** A list with room for all its missing candidates takes them all. */
  lemma {:induction false} RoomForAll(
    candidates: set<Address>, max: nat, entry: Address -> WatchEntry, w: WatchList, order: seq<Address>)
    requires var m := Missing(candidates, w, order); m == {} || |w| + |m| <= max
    ensures Fill(candidates, max, entry, w, order) == (WithAll(w, Missing(candidates, w, order), entry), true)
    decreases |order|
  {
    var m := Missing(candidates, w, order);
    if order == [] {
      assert m == {} && WithAll(w, m, entry) == w;
    } else {
      var a := order[0];
      MissingStep(candidates, w, order, entry(a));
      if a in m {
        WithAllStep(w, m, entry, a);
        hide Missing, WithAll;
        RoomForAll(candidates, max, entry, w[a := entry(a)], order[1..]);
      } else {
        RoomForAll(candidates, max, entry, w, order[1..]);
      }
    }
  }

  /** A missing candidate is refused once the candidates before it have filled the list. */
  lemma {:induction false} LastIsRefused(
    candidates: set<Address>, max: nat, entry: Address -> WatchEntry, w: WatchList, front: seq<Address>, x: Address)
    requires x in candidates && x !in w && x !in front
    requires |w| + |Missing(candidates, w, front)| >= max
    ensures var (w', ok) := Fill(candidates, max, entry, w, front + [x]); !ok && x !in w'
    decreases |front|
  {
    if front == [] {
      assert Missing(candidates, w, front) == {};
      assert front + [x] == [x];
    } else {
      var a := front[0];
      assert (front + [x])[1..] == front[1..] + [x];
      MissingStep(candidates, w, front, entry(a));
      if a in Missing(candidates, w, front) {
        if |w| < max {
          LastIsRefused(candidates, max, entry, w[a := entry(a)], front[1..], x);
        }
      } else {
        LastIsRefused(candidates, max, entry, w, front[1..], x);
      }
    }
  }

  lemma {:induction false} NoRoomAtAll(
    candidates: set<Address>, max: nat, entry: Address -> WatchEntry, w: WatchList, order: seq<Address>)
    requires Missing(candidates, w, order) != {} && |w| >= max
    ensures Fill(candidates, max, entry, w, order) == (w, false)
    decreases |order|
  {
    MissingStep(candidates, w, order, entry(order[0]));
    if order[0] !in Missing(candidates, w, order) {
      NoRoomAtAll(candidates, max, entry, w, order[1..]);
    }
  }

  /** With room for every wanted account the result is the same for every visiting order. */
  lemma FittingIsOrderFree(
    config: Config, ctx: Context, w: WatchList, diff: StateDiff, block: nat, order: seq<Address>)
    requires Visits(order, diff.accounts.Keys) && Fits(config, ctx, w, diff)
    ensures Apply(config, ctx, w, diff, block, order) == (AllAdded(config, ctx, w, diff, block), true)
  {
    ApplyIsFill(config, ctx, w, diff, block, order);
    var candidates := Candidates(config, ctx, diff);
    assert Missing(candidates, w, order) == Wanted(config, ctx, w, diff);
    hide Promotes, Apply, Fill, WithAll;
    RoomForAll(candidates, config.maxWatched, AutoEntryOf(diff, block), w, order);
  }

  lemma {:induction false} SomeOrder(keys: set<Address>) returns (order: seq<Address>)
    ensures Visits(order, keys)
  {
    if keys == {} {
      order := [];
    } else {
      var a :| a in keys;
      var rest := SomeOrder(keys - {a});
      order := [a] + rest;
    }
  }

  lemma ExtendOrder(rest: seq<Address>, keys: set<Address>, x: Address)
    requires x in keys && Visits(rest, keys - {x})
    ensures Visits([x] + rest, keys) && Visits(rest + [x], keys)
  {
  }

  lemma MissingWithout(
    config: Config, ctx: Context, w: WatchList, diff: StateDiff, rest: seq<Address>, x: Address)
    requires Visits(rest, diff.accounts.Keys - {x}) && x in Wanted(config, ctx, w, diff)
    ensures var m := Missing(Candidates(config, ctx, diff), w, rest);
            m == Wanted(config, ctx, w, diff) - {x} && |m| == |Wanted(config, ctx, w, diff)| - 1
  {
  }

  /** Visited first a missing candidate gets in, visited last it does not. */
  lemma FirstAndLast(
    candidates: set<Address>, max: nat, entry: Address -> WatchEntry, w: WatchList, rest: seq<Address>, x: Address)
    requires x in candidates && x !in w && x !in rest
    requires |w| < max <= |w| + |Missing(candidates, w, rest)|
    ensures x in Fill(candidates, max, entry, w, [x] + rest).0
    ensures x !in Fill(candidates, max, entry, w, rest + [x]).0
  {
    assert ([x] + rest)[1..] == rest;
    FillGrows(candidates, max, entry, w[x := entry(x)], rest);
    LastIsRefused(candidates, max, entry, w, rest, x);
  }

  /** With room for some but not all of the wanted accounts, two visiting orders give two different lists. */
  lemma TightFitDependsOnOrder(config: Config, ctx: Context, w: WatchList, diff: StateDiff, block: nat)
    returns (o1: seq<Address>, o2: seq<Address>)
    requires !Fits(config, ctx, w, diff) && |w| < config.maxWatched
    ensures Visits(o1, diff.accounts.Keys) && Visits(o2, diff.accounts.Keys)
    ensures Apply(config, ctx, w, diff, block, o1).0 != Apply(config, ctx, w, diff, block, o2).0
  {
    var x :| x in Wanted(config, ctx, w, diff);
    var rest := SomeOrder(diff.accounts.Keys - {x});
    o1, o2 := [x] + rest, rest + [x];
    ExtendOrder(rest, diff.accounts.Keys, x);
    MissingWithout(config, ctx, w, diff, rest, x);
    assert x in Candidates(config, ctx, diff) && x !in rest;
    hide Promotes, Apply, Fill, Missing, Candidates, Visits;
    ApplyIsFill(config, ctx, w, diff, block, o1);
    ApplyIsFill(config, ctx, w, diff, block, o2);
    FirstAndLast(Candidates(config, ctx, diff), config.maxWatched, AutoEntryOf(diff, block), w, rest, x);
  }

  /**
   The outcome is independent of the map's iteration order exactly when the wanted accounts all fit, or
   there is no room for even one of them.
   */
  lemma OrderFreeIffFits(config: Config, ctx: Context, w: WatchList, diff: StateDiff, block: nat)
    ensures (forall o1, o2 :: Visits(o1, diff.accounts.Keys) && Visits(o2, diff.accounts.Keys) ==>
               Apply(config, ctx, w, diff, block, o1) == Apply(config, ctx, w, diff, block, o2))
            <==> Fits(config, ctx, w, diff) || |w| >= config.maxWatched
  {
    if Fits(config, ctx, w, diff) {
      forall o | Visits(o, diff.accounts.Keys)
        ensures Apply(config, ctx, w, diff, block, o) == (AllAdded(config, ctx, w, diff, block), true)
      {
        FittingIsOrderFree(config, ctx, w, diff, block, o);
      }
    } else if |w| >= config.maxWatched {
      forall o | Visits(o, diff.accounts.Keys) ensures Apply(config, ctx, w, diff, block, o) == (w, false) {
        ApplyIsFill(config, ctx, w, diff, block, o);
        assert Missing(Candidates(config, ctx, diff), w, o) == Wanted(config, ctx, w, diff);
        NoRoomAtAll(Candidates(config, ctx, diff), config.maxWatched, AutoEntryOf(diff, block), w, o);
      }
    } else {
      var o1, o2 := TightFitDependsOnOrder(config, ctx, w, diff, block);
    }
  }

  // ---- Who gets in ----

  /**
   What makes an account worth watching: not unwatched, protocols not demoted, something changed, enough slots written,
   and not all of them from slot 20 on where tokens are checked for.
   */
  predicate WorthWatching(config: Config, ctx: Context, diff: StateDiff, a: Address) {
    && a in diff.accounts && a !in ctx.unwatch && !ctx.demote
    && var d := diff.accounts[a];
    && (|d.storageWritten| > 0 || d.infoChanged)
    && |d.storageWritten| >= config.slotThreshold
    && (config.checkTokenInterface && |d.storageWritten| > 0 ==> exists s :: s in d.storageWritten && s < 20)
  }

  lemma PromotedIffWorthWatching(config: Config, ctx: Context, diff: StateDiff, a: Address)
    ensures Promotes(config, ctx, diff, a) <==> WorthWatching(config, ctx, diff, a)
  {
  }

  ghost function Newcomers(config: Config, ctx: Context, w: WatchList, diff: StateDiff): set<Address> {
    set a | a in diff.accounts && WorthWatching(config, ctx, diff, a) && a !in w
  }

  lemma {:induction false} FillEntries(
    candidates: set<Address>, max: nat, entry: Address -> WatchEntry, w: WatchList, order: seq<Address>)
    ensures var w' := Fill(candidates, max, entry, w, order).0;
            forall a :: a in w' && a !in w ==> a in order && a in candidates && w'[a] == entry(a)
    decreases |order|
  {
    if order != [] {
      var a := order[0];
      FillEntries(candidates, max, entry, w, order[1..]);
      if a in candidates && a !in w && |w| < max {
        FillEntries(candidates, max, entry, w[a := entry(a)], order[1..]);
        FillGrows(candidates, max, entry, w[a := entry(a)], order[1..]);
      }
    }
  }

  lemma {:induction false} NoRoomForAll(
    candidates: set<Address>, max: nat, entry: Address -> WatchEntry, w: WatchList, order: seq<Address>)
    requires var m := Missing(candidates, w, order); m != {} && |w| + |m| > max
    ensures var (w', ok) := Fill(candidates, max, entry, w, order);
            !ok && |w'| == Max(|w|, max)
    decreases |order|
  {
    var m, a := Missing(candidates, w, order), order[0];
    MissingStep(candidates, w, order, entry(a));
    if a !in m {
      NoRoomForAll(candidates, max, entry, w, order[1..]);
    } else if |w| < max {
      NoRoomForAll(candidates, max, entry, w[a := entry(a)], order[1..]);
    }
  }

  lemma NewcomersAreMissing(config: Config, ctx: Context, w: WatchList, diff: StateDiff, order: seq<Address>)
    requires Visits(order, diff.accounts.Keys)
    ensures Missing(Candidates(config, ctx, diff), w, order) == Newcomers(config, ctx, w, diff)
    ensures forall a :: a in Newcomers(config, ctx, w, diff) ==> a in diff.accounts
  {
    forall a ensures Promotes(config, ctx, diff, a) <==> WorthWatching(config, ctx, diff, a) {
      PromotedIffWorthWatching(config, ctx, diff, a);
    }
    hide Promotes, WorthWatching;
  }

  /**
   In any order: everything listed stays as it is, only newcomers get in, each with its slot count; all of them exactly
   when they fit, which is when the call succeeds, and else as many as there is room for.
   */
  lemma AppliedIs(config: Config, ctx: Context, w: WatchList, diff: StateDiff, block: nat, order: seq<Address>)
    requires Visits(order, diff.accounts.Keys)
    ensures var new_, (w', ok) := Newcomers(config, ctx, w, diff), Apply(config, ctx, w, diff, block, order);
            && (ok <==> new_ == {} || |w| + |new_| <= config.maxWatched)
            && (if ok then w'.Keys == w.Keys + new_ else |w'| == Max(|w|, config.maxWatched))
            && (forall a :: a in w ==> a in w' && w'[a] == w[a])
            && (forall a :: a in w' && a !in w ==>
                  && a in new_
                  && w'[a] == WatchEntry(AutoClassified, block, |diff.accounts[a].storageWritten|, 0))
  {
    hide Promotes, WorthWatching, Apply, Fill, Candidates, Missing, Newcomers, Visits;
    var candidates, entry := Candidates(config, ctx, diff), AutoEntryOf(diff, block);
    NewcomersAreMissing(config, ctx, w, diff, order);
    ApplyIsFill(config, ctx, w, diff, block, order);
    FillIs(candidates, config.maxWatched, entry, w, order);
  }

  lemma FillIs(candidates: set<Address>, max: nat, entry: Address -> WatchEntry, w: WatchList, order: seq<Address>)
    ensures var m, (w', ok) := Missing(candidates, w, order), Fill(candidates, max, entry, w, order);
            && (ok <==> m == {} || |w| + |m| <= max)
            && (if ok then w'.Keys == w.Keys + m else |w'| == Max(|w|, max))
            && (forall a :: a in w ==> a in w' && w'[a] == w[a])
            && (forall a :: a in w' && a !in w ==> a in m && w'[a] == entry(a))
  {
    FillGrows(candidates, max, entry, w, order);
    FillEntries(candidates, max, entry, w, order);
    var m := Missing(candidates, w, order);
    hide Fill;
    if m == {} || |w| + |m| <= max {
      RoomForAll(candidates, max, entry, w, order);
      assert WithAll(w, m, entry).Keys == w.Keys + m;
    } else {
      NoRoomForAll(candidates, max, entry, w, order);
    }
  }
}
