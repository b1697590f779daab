/** Data of the fork engine: apps/mirage-rs/src/fork.rs and replay.rs. */
module ForkTypes {
  import opened Prelude

  /** Twenty-byte addresses and 32-byte hashes, as numbers. */
  type Address = nat
  type Hash = nat
  type Code = string

  const WORD_MAX: nat := 0xFFFF_FFFF_FFFF_FFFF_FFFF_FFFF_FFFF_FFFF_FFFF_FFFF_FFFF_FFFF_FFFF_FFFF_FFFF_FFFF
  const U64_MAX: nat := 0xFFFF_FFFF_FFFF_FFFF
  const ZERO_ADDRESS: Address := 0

  /** U256; `Fits` says a sum has not overflowed. */
  type Word = nat

  predicate Fits(n: int) { n <= WORD_MAX }

  function SatAdd(a: Word, b: Word): Word { if a + b <= WORD_MAX then a + b else WORD_MAX }
  function SatSub(a: nat, b: nat): nat { if b <= a then a - b else 0 }

  datatype DirtyAccount = DirtyAccount(
    balance: Option<Word>,
    nonce: Option<nat>,
    code: Option<Code>,
    codeHash: Option<Hash>,
    erc20BalanceSlot: Option<Word>,
    erc20Balances: map<Address, Word>,
    storage: map<Word, Word>)

  /** `DirtyAccount::default()`. */
  const NO_OVERRIDES := DirtyAccount(None, None, None, None, None, map[], map[])

  type Accounts = map<Address, DirtyAccount>

  /** `entry(address).or_default()`. */
  function Entry(m: Accounts, a: Address): DirtyAccount { if a in m then m[a] else NO_OVERRIDES }

  datatype WatchSource = AutoClassified | Contagion(parent: Address) | Manual

  datatype WatchEntry = WatchEntry(source: WatchSource, addedAtBlock: nat, initialSlotCount: nat, replayCount: nat)

  datatype AccountDiff = AccountDiff(
    infoChanged: bool,
    newBalance: Option<Word>,
    newNonce: Option<nat>,
    newCode: Option<Code>,
    storageWritten: map<Word, Word>,
    storageRead: set<Word>)

  datatype StateDiff = StateDiff(
    accounts: map<Address, AccountDiff>,
    logs: seq<string>,
    gasUsed: nat,
    success: bool,
    output: string)
}

/** The local write layer, its slot counter and its snapshots. */
module Dirty {
  import opened Prelude
  import opened MapSum
  import opened ForkTypes

  // ---- Slot counting ----

  ghost function Sizes(m: Accounts): map<Address, nat> { map a | a in m :: |m[a].storage| }

  /** The sum of the dirty storage sizes. */
  ghost function SlotSum(m: Accounts): nat { Sum(Sizes(m)) }

  lemma SlotSumUpdate(m: Accounts, a: Address, acc: DirtyAccount)
    ensures SlotSum(m[a := acc]) == SlotSum(m) - |Entry(m, a).storage| + |acc.storage|
  {
    assert Sizes(m[a := acc]) == Sizes(m)[a := |acc.storage|];
    SumUpdate(Sizes(m), a, |acc.storage|);
  }

  lemma SlotSumRemove(m: Accounts, a: Address)
    requires a in m
    ensures SlotSum(m - {a}) == SlotSum(m) - |m[a].storage|
  {
    assert Sizes(m - {a}) == Sizes(m) - {a};
    SumRemove(Sizes(m), a);
  }

  // ---- What the bulk writes leave, account by account ----

  function OrElse<T>(o: Option<T>, d: Option<T>): Option<T> { if o.Some? then o else d }

  function ApplyAccountDiff(hash: Code -> Hash, acc: DirtyAccount, d: AccountDiff): DirtyAccount {
    acc.(balance := OrElse(d.newBalance, acc.balance),
         nonce := OrElse(d.newNonce, acc.nonce),
         code := OrElse(d.newCode, acc.code),
         codeHash := if d.newCode.Some? then Some(hash(d.newCode.value)) else acc.codeHash,
         storage := acc.storage + d.storageWritten)
  }

  function ApplyDiff(hash: Code -> Hash, m: Accounts, diff: StateDiff): Accounts {
    map a | a in m.Keys + diff.accounts.Keys ::
      if a in diff.accounts then ApplyAccountDiff(hash, Entry(m, a), diff.accounts[a]) else m[a]
  }

  /** One account of a revm change set; a slot is changed when its present value differs from the original. */
  datatype SlotChange = SlotChange(original: Word, present: Word)

  datatype EvmAccount = EvmAccount(
    touched: bool, selfDestructed: bool, created: bool,
    balance: Word, nonce: nat, code: Option<Code>, storage: map<Word, SlotChange>)

  function Changed(storage: map<Word, SlotChange>): map<Word, Word> {
    map s | s in storage && storage[s].original != storage[s].present :: storage[s].present
  }

  /** The account after a commit; `None` if it has no overrides left at all. */
  function CommitAccount(hash: Code -> Hash, before: Option<DirtyAccount>, c: EvmAccount): Option<DirtyAccount> {
    if !c.touched then before
    else if c.selfDestructed then None
    else
      var base := if before.Some? && !c.created then before.value else NO_OVERRIDES;
      var newCode := c.code.Some? && c.code.value != "";
      Some(base.(balance := Some(c.balance), nonce := Some(c.nonce),
                 code := if newCode then c.code else base.code,
                 codeHash := if newCode then Some(hash(c.code.value)) else base.codeHash,
                 storage := base.storage + Changed(c.storage)))
  }

  function CommitAll(hash: Code -> Hash, m: Accounts, changes: map<Address, EvmAccount>): Accounts {
    map a | a in m.Keys + changes.Keys &&
            (a in changes ==> CommitAccount(hash, Lookup(m, a), changes[a]).Some?) ::
      if a in changes then CommitAccount(hash, Lookup(m, a), changes[a]).value else m[a]
  }

  /** What one account of a change set leaves, override by override. */
  ghost predicate CommitShows(
    hash: Code -> Hash, before: Option<DirtyAccount>, change: Option<EvmAccount>, after: Option<DirtyAccount>)
  {
    if change.None? || !change.value.touched then after == before
    else if change.value.selfDestructed then after.None?
    else
      && after.Some?
      && var c, x := change.value, after.value;
      && var kept := !c.created && before.Some?;
      && x.balance == Some(c.balance) && x.nonce == Some(c.nonce)
      && (forall s :: s in c.storage && c.storage[s].original != c.storage[s].present ==>
            Lookup(x.storage, s) == Some(c.storage[s].present))
      && (forall s :: s !in c.storage || c.storage[s].original == c.storage[s].present ==>
            Lookup(x.storage, s) == if kept then Lookup(before.value.storage, s) else None)
      && (c.code.Some? && |c.code.value| > 0 ==> x.code == c.code && x.codeHash == Some(hash(c.code.value)))
      && (c.code.None? || |c.code.value| == 0 ==>
            x.code == (if kept then before.value.code else None)
            && x.codeHash == if kept then before.value.codeHash else None)
      && x.erc20BalanceSlot == (if kept then before.value.erc20BalanceSlot else None)
      && x.erc20Balances == if kept then before.value.erc20Balances else map[]
  }

  lemma CommittedAccountShows(
    hash: Code -> Hash, before: Option<DirtyAccount>, c: EvmAccount, after: Option<DirtyAccount>)
    ensures after == CommitAccount(hash, before, c) <==> CommitShows(hash, before, Some(c), after)
  {
    if CommitShows(hash, before, Some(c), after) && c.touched && !c.selfDestructed {
      var x, y := after.value.storage, CommitAccount(hash, before, c).value.storage;
      assert x == y by {
        forall s ensures Lookup(x, s) == Lookup(y, s) {
        }
        SameSlots(x, y);
      }
    }
  }

  lemma SameSlots(x: map<Word, Word>, y: map<Word, Word>)
    requires forall s :: Lookup(x, s) == Lookup(y, s)
    ensures x == y
  {
    forall s ensures s in x <==> s in y {
      assert Lookup(x, s) == Lookup(y, s);
    }
    forall s | s in x ensures x[s] == y[s] {
      assert Lookup(x, s) == Lookup(y, s);
    }
  }

  /** A commit leaves the one map in which every account shows what the change set says. */
  lemma CommitIffShown(hash: Code -> Hash, m: Accounts, changes: map<Address, EvmAccount>, after: Accounts)
    ensures after == CommitAll(hash, m, changes)
            <==> forall a :: CommitShows(hash, Lookup(m, a), Lookup(changes, a), Lookup(after, a))
  {
    var all := CommitAll(hash, m, changes);
    hide CommitAccount, CommitShows;
    forall a ensures Lookup(after, a) == Lookup(all, a)
                     <==> CommitShows(hash, Lookup(m, a), Lookup(changes, a), Lookup(after, a))
    {
      if a in changes {
        CommittedAccountShows(hash, Lookup(m, a), changes[a], Lookup(after, a));
      } else {
        NotListedShows(hash, Lookup(m, a), Lookup(after, a));
      }
    }
    if forall a :: CommitShows(hash, Lookup(m, a), Lookup(changes, a), Lookup(after, a)) {
      SameLookups(after, all);
    }
  }

  lemma NotListedShows(hash: Code -> Hash, before: Option<DirtyAccount>, after: Option<DirtyAccount>)
    ensures CommitShows(hash, before, None, after) <==> after == before
  {
  }

  // ---- Snapshots ----

  /** What a snapshot captures and a revert restores. */
  datatype Layer = Layer(
    accounts: Accounts, watchList: map<Address, WatchEntry>, unwatchList: set<Address>, totalDirtySlots: nat)

  const EMPTY_LAYER := Layer(map[], map[], {}, 0)

  datatype Snapshot = Snapshot(layer: Layer, block: nat, txIndex: nat)

  datatype Store = Store(layer: Layer, snapshots: map<nat, Snapshot>, nextId: nat)

  function SaturatingNext(id: nat): nat { if id < U64_MAX then id + 1 else id }

  function TakeSnapshot(s: Store, block: nat, txIndex: nat): Store {
    s.(snapshots := s.snapshots[s.nextId := Snapshot(s.layer, block, txIndex)], nextId := SaturatingNext(s.nextId))
  }

  function Earlier(snapshots: map<nat, Snapshot>, id: nat): map<nat, Snapshot> {
    map i | i in snapshots && i < id :: snapshots[i]
  }

  function Revert(s: Store, id: nat): (Store, Option<(nat, nat)>) {
    if id !in s.snapshots then (s, None) else
    var snap := s.snapshots[id];
    (Store(snap.layer, Earlier(s.snapshots, id), s.nextId), Some((snap.block, snap.txIndex)))
  }

  function Clear(s: Store): Store { Store(EMPTY_LAYER, map[], s.nextId) }

  /** The writes already made while those in `left` are still to come. */
  ghost function Minus(writes: map<Word, Word>, left: set<Word>): map<Word, Word> { writes - left }

  lemma MinusStep(storage: map<Word, Word>, writes: map<Word, Word>, left: set<Word>, s: Word)
    requires s in left && s in writes
    ensures (storage + Minus(writes, left))[s := writes[s]] == storage + Minus(writes, left - {s})
  {
  }

  class DirtyStore {
    const hash: Code -> Hash
    var accounts: Accounts
    var watchList: map<Address, WatchEntry>
    var unwatchList: set<Address>
    var totalDirtySlots: nat
    var snapshots: map<nat, Snapshot>
    var nextSnapshotId: nat

    function TheLayer(): Layer
      reads this
    {
      Layer(accounts, watchList, unwatchList, totalDirtySlots)
    }

    function Model(): Store
      reads this
    {
      Store(TheLayer(), snapshots, nextSnapshotId)
    }

    /** The slot counter is the sum of the dirty storage sizes, now and in every snapshot. */
    ghost predicate Valid()
      reads this
    {
      && totalDirtySlots == SlotSum(accounts)
      && forall id :: id in snapshots ==> snapshots[id].layer.totalDirtySlots == SlotSum(snapshots[id].layer.accounts)
    }

    constructor (hash: Code -> Hash)
      ensures Valid() && Model() == Store(EMPTY_LAYER, map[], 0) && this.hash == hash
    {
      this.hash := hash;
      accounts, watchList, unwatchList := map[], map[], {};
      totalDirtySlots, snapshots, nextSnapshotId := 0, map[], 0;
    }

    method DoSnapshot(block: nat, txIndex: nat) returns (id: nat)
      requires Valid()
      modifies this
      ensures Valid() && id == old(nextSnapshotId) && Model() == TakeSnapshot(old(Model()), block, txIndex)
    {
      id := nextSnapshotId;
      nextSnapshotId := SaturatingNext(nextSnapshotId);
      snapshots := snapshots[id := Snapshot(TheLayer(), block, txIndex)];
    }

    method DoRevert(id: nat) returns (r: Option<(nat, nat)>)
      requires Valid()
      modifies this
      ensures Valid() && (Model(), r) == Revert(old(Model()), id)
    {
      if id !in snapshots {
        return None;
      }
      var snap := snapshots[id];
      accounts := snap.layer.accounts;
      watchList := snap.layer.watchList;
      unwatchList := snap.layer.unwatchList;
      totalDirtySlots := snap.layer.totalDirtySlots;
      snapshots := Earlier(snapshots, id);
      return Some((snap.block, snap.txIndex));
    }

    method DoClear()
      requires Valid()
      modifies this
      ensures Valid() && Model() == Clear(old(Model()))
    {
      accounts, watchList, unwatchList, totalDirtySlots, snapshots := map[], map[], {}, 0, map[];
      assert Sizes(accounts) == map[];
    }

    /** Writes account overrides other than storage. */
    method Put(a: Address, acc: DirtyAccount)
      requires Valid() && acc.storage == Entry(accounts, a).storage
      modifies this`accounts
      ensures Valid() && accounts == old(accounts)[a := acc]
    {
      SlotSumUpdate(accounts, a, acc);
      accounts := accounts[a := acc];
    }

    method SetBalance(a: Address, balance: Word)
      requires Valid()
      modifies this`accounts
      ensures Valid() && accounts == old(accounts)[a := Entry(old(accounts), a).(balance := Some(balance))]
    {
      Put(a, Entry(accounts, a).(balance := Some(balance)));
    }

    method SetNonce(a: Address, nonce: nat)
      requires Valid()
      modifies this`accounts
      ensures Valid() && accounts == old(accounts)[a := Entry(old(accounts), a).(nonce := Some(nonce))]
    {
      Put(a, Entry(accounts, a).(nonce := Some(nonce)));
    }

    method SetCode(a: Address, code: Code)
      requires Valid()
      modifies this`accounts
      ensures Valid()
      ensures accounts == old(accounts)[a := Entry(old(accounts), a).(code := Some(code), codeHash := Some(hash(code)))]
    {
      Put(a, Entry(accounts, a).(code := Some(code), codeHash := Some(hash(code))));
    }

    method SetStorage(a: Address, slot: Word, value: Word)
      requires Valid()
      modifies this`accounts, this`totalDirtySlots
      ensures Valid()
      ensures accounts == old(accounts)[a :=
          Entry(old(accounts), a).(storage := Entry(old(accounts), a).storage[slot := value])]
    {
      var acc := Entry(accounts, a);
      if slot !in acc.storage {
        totalDirtySlots := totalDirtySlots + 1;
      }
      SlotSumUpdate(accounts, a, acc.(storage := acc.storage[slot := value]));
      accounts := accounts[a := acc.(storage := acc.storage[slot := value])];
    }

    /** The slot-by-slot loop shared by diff application and EVM commit. */
    method WriteSlots(a: Address, writes: map<Word, Word>)
      requires Valid() && a in accounts
      modifies this`accounts, this`totalDirtySlots
      ensures Valid()
      ensures accounts == old(accounts)[a := old(accounts)[a].(storage := old(accounts)[a].storage + writes)]
    {
      hide SlotSum;
      ghost var before, acc := accounts, accounts[a];
      var left := writes.Keys;
      assert before == before[a := acc.(storage := acc.storage + Minus(writes, left))] by {
        assert acc.storage + Minus(writes, left) == acc.storage;
      }
      while left != {}
        invariant Valid() && left <= writes.Keys
        invariant accounts == before[a := acc.(storage := acc.storage + Minus(writes, left))]
      {
        var s :| s in left;
        SetStorage(a, s, writes[s]);
        MinusStep(acc.storage, writes, left, s);
        left := left - {s};
      }
      assert Minus(writes, left) == writes;
    }

    method ApplyInfo(a: Address, d: AccountDiff)
      requires Valid()
      modifies this`accounts
      ensures Valid() && accounts == old(accounts)[a := InfoApplied(hash, Entry(old(accounts), a), d)]
    {
      hide SlotSum, Valid;
      ghost var before := accounts;
      ghost var acc := Entry(accounts, a);
      Put(a, Entry(accounts, a));
      if d.newBalance.Some? {
        SetBalance(a, d.newBalance.value);
        acc := acc.(balance := d.newBalance);
      }
      assert accounts == before[a := acc];
      if d.newNonce.Some? {
        SetNonce(a, d.newNonce.value);
        acc := acc.(nonce := d.newNonce);
      }
      assert accounts == before[a := acc];
      if d.newCode.Some? {
        SetCode(a, d.newCode.value);
        acc := acc.(code := d.newCode, codeHash := Some(hash(d.newCode.value)));
      }
      assert accounts == before[a := acc];
    }

    method ApplyOneDiff(a: Address, d: AccountDiff)
      requires Valid()
      modifies this`accounts, this`totalDirtySlots
      ensures Valid() && accounts == old(accounts)[a := ApplyAccountDiff(hash, Entry(old(accounts), a), d)]
    {
      hide SlotSum, Valid, InfoApplied;
      InfoThenSlots(hash, Entry(accounts, a), d);
      ApplyInfo(a, d);
      WriteSlots(a, d.storageWritten);
    }

    method ApplyStateDiff(diff: StateDiff)
      requires Valid()
      modifies this`accounts, this`totalDirtySlots
      ensures Valid() && accounts == ApplyDiff(hash, old(accounts), diff)
    {
      hide SlotSum, PartlyApplied, ApplyDiff, ApplyAccountDiff;
      ghost var before := accounts;
      var left := diff.accounts.Keys;
      ApplyStart(hash, before, diff);
      while left != {}
        invariant Valid() && left <= diff.accounts.Keys && PartlyApplied(hash, before, accounts, diff, left)
      {
        var a :| a in left;
        ApplyTurn(hash, before, accounts, diff, left, a);
        ApplyOneDiff(a, diff.accounts[a]);
        left := left - {a};
      }
      ApplyEnd(hash, before, accounts, diff);
    }

    /** Drops an account's overrides and their slots from the count. */
    method Forget(a: Address)
      requires Valid()
      modifies this`accounts, this`totalDirtySlots
      ensures Valid() && accounts == old(accounts) - {a}
    {
      if a in accounts {
        SlotSumRemove(accounts, a);
        var size := |accounts[a].storage|;
        totalDirtySlots := SatSub(totalDirtySlots, size);
        accounts := accounts - {a};
      } else {
        assert accounts == accounts - {a};
      }
    }

    method CommitOne(a: Address, c: EvmAccount)
      requires Valid()
      modifies this`accounts, this`totalDirtySlots
      ensures Valid()
      ensures var after := CommitAccount(hash, Lookup(old(accounts), a), c);
              accounts == if after.Some? then old(accounts)[a := after.value] else old(accounts) - {a}
    {
      hide SlotSum;
      if !c.touched {
        assert a !in accounts ==> accounts - {a} == accounts;
        return;
      }
      if c.selfDestructed {
        Forget(a);
        return;
      }
      ghost var before := accounts;
      if c.created {
        Forget(a);
      }
      ghost var acc := Entry(accounts, a);
      SetBalance(a, c.balance);
      SetNonce(a, c.nonce);
      acc := acc.(balance := Some(c.balance), nonce := Some(c.nonce));
      Rewritten(before, accounts, a, acc);
      if c.code.Some? && c.code.value != "" {
        SetCode(a, c.code.value);
        acc := acc.(code := c.code, codeHash := Some(hash(c.code.value)));
      }
      Rewritten(before, accounts, a, acc);
      WriteSlots(a, Changed(c.storage));
    }

    method Commit(changes: map<Address, EvmAccount>)
      requires Valid()
      modifies this`accounts, this`totalDirtySlots
      ensures Valid() && accounts == CommitAll(hash, old(accounts), changes)
      ensures forall a :: CommitShows(hash, Lookup(old(accounts), a), Lookup(changes, a), Lookup(accounts, a))
    {
      hide SlotSum, PartlyCommitted, CommitAll, CommitAccount, CommitShows;
      ghost var before := accounts;
      var left := changes.Keys;
      CommitStart(hash, before, changes);
      while left != {}
        invariant Valid() && left <= changes.Keys && PartlyCommitted(hash, before, accounts, changes, left)
      {
        var a :| a in left;
        CommitTurn(hash, before, accounts, changes, left, a);
        CommitOne(a, changes[a]);
        left := left - {a};
      }
      CommitEnd(hash, before, accounts, changes);
      CommitIffShown(hash, before, changes, accounts);
    }
  }

  // ---- The loops over a change set, whatever order its map iterates in ----

  lemma Rewritten(before: Accounts, now: Accounts, a: Address, acc: DirtyAccount)
    requires a in now && now[a] == acc && now - {a} == before - {a}
    ensures now == before[a := acc]
  {
    forall b | b in now && b != a ensures b in before && before[b] == now[b] {
      assert b in now - {a} && (now - {a})[b] == (before - {a})[b];
    }
    forall b | b in before && b != a ensures b in now {
      assert b in before - {a};
    }
  }

  function InfoApplied(hash: Code -> Hash, acc: DirtyAccount, d: AccountDiff): DirtyAccount {
    var b := if d.newBalance.Some? then acc.(balance := d.newBalance) else acc;
    var n := if d.newNonce.Some? then b.(nonce := d.newNonce) else b;
    if d.newCode.Some? then n.(code := d.newCode, codeHash := Some(hash(d.newCode.value))) else n
  }

  lemma InfoThenSlots(hash: Code -> Hash, acc: DirtyAccount, d: AccountDiff)
    ensures var c := InfoApplied(hash, acc, d);
            ApplyAccountDiff(hash, acc, d) == c.(storage := c.storage + d.storageWritten)
  {
  }

  ghost predicate PartlyApplied(hash: Code -> Hash, before: Accounts, now: Accounts, diff: StateDiff,
      left: set<Address>) {
    forall a :: Lookup(now, a) ==
      if a in diff.accounts && a !in left then Some(ApplyAccountDiff(hash, Entry(before, a), diff.accounts[a]))
      else Lookup(before, a)
  }

  lemma ApplyStart(hash: Code -> Hash, before: Accounts, diff: StateDiff)
    ensures PartlyApplied(hash, before, before, diff, diff.accounts.Keys)
  {
  }

  lemma ApplyTurn(hash: Code -> Hash, before: Accounts, now: Accounts, diff: StateDiff, left: set<Address>, a: Address)
    requires a in left && left <= diff.accounts.Keys && PartlyApplied(hash, before, now, diff, left)
    ensures PartlyApplied(hash, before, now[a := ApplyAccountDiff(hash, Entry(now, a), diff.accounts[a])], diff,
            left - {a})
  {
    hide ApplyAccountDiff;
    assert Lookup(now, a) == Lookup(before, a);
  }

  lemma ApplyEnd(hash: Code -> Hash, before: Accounts, now: Accounts, diff: StateDiff)
    requires PartlyApplied(hash, before, now, diff, {})
    ensures now == ApplyDiff(hash, before, diff)
  {
    hide ApplyAccountDiff;
    SameLookups(now, ApplyDiff(hash, before, diff));
  }

  ghost predicate PartlyCommitted(
    hash: Code -> Hash, before: Accounts, now: Accounts, changes: map<Address, EvmAccount>, left: set<Address>)
  {
    forall a :: Lookup(now, a) ==
      if a in changes && a !in left then CommitAccount(hash, Lookup(before, a), changes[a]) else Lookup(before, a)
  }

  lemma CommitStart(hash: Code -> Hash, before: Accounts, changes: map<Address, EvmAccount>)
    ensures PartlyCommitted(hash, before, before, changes, changes.Keys)
  {
  }

  lemma CommitTurn(
    hash: Code -> Hash, before: Accounts, now: Accounts, changes: map<Address, EvmAccount>, left: set<Address>,
    a: Address)
    requires a in left && left <= changes.Keys && PartlyCommitted(hash, before, now, changes, left)
    ensures var after := CommitAccount(hash, Lookup(now, a), changes[a]);
            var next := if after.Some? then now[a := after.value] else now - {a};
            PartlyCommitted(hash, before, next, changes, left - {a})
  {
    hide CommitAccount;
    assert Lookup(now, a) == Lookup(before, a);
  }

  lemma CommitEnd(hash: Code -> Hash, before: Accounts, now: Accounts, changes: map<Address, EvmAccount>)
    requires PartlyCommitted(hash, before, now, changes, {})
    ensures now == CommitAll(hash, before, changes)
  {
    hide CommitAccount;
    SameLookups(now, CommitAll(hash, before, changes));
  }

  lemma SameLookups(m: Accounts, n: Accounts)
    requires forall a :: Lookup(m, a) == Lookup(n, a)
    ensures m == n
  {
    forall a ensures a in m <==> a in n {
      assert Lookup(m, a) == Lookup(n, a);
    }
    forall a | a in m ensures m[a] == n[a] {
      assert Lookup(m, a) == Lookup(n, a);
    }
  }

  // ---- Snapshots over whole runs ----

  /** `Mutate` stands for any sequence of writes between snapshots and reverts. */
  datatype Action = Mutate(to: Layer) | DoTake(block: nat, txIndex: nat) | DoRevertTo(id: nat) | DoClearAll

  function Step(s: Store, a: Action): Store {
    match a
    case Mutate(to) => s.(layer := to)
    case DoTake(block, txIndex) => TakeSnapshot(s, block, txIndex)
    case DoRevertTo(id) => Revert(s, id).0
    case DoClearAll => Clear(s)
  }

  function Exec(acts: seq<Action>): Store {
    if acts == [] then Store(EMPTY_LAYER, map[], 0) else Step(Exec(acts[..|acts| - 1]), acts[|acts| - 1])
  }

  /** Snapshot ids are handed out in increasing order and every live id is below the next one. */
  lemma {:induction false} IdsBelowNext(acts: seq<Action>)
    requires Exec(acts).nextId < U64_MAX
    ensures forall id :: id in Exec(acts).snapshots ==> id < Exec(acts).nextId
    ensures acts != [] ==> Exec(acts[..|acts| - 1]).nextId < U64_MAX
                           && Exec(acts[..|acts| - 1]).nextId <= Exec(acts).nextId
  {
    if acts != [] {
      IdsBelowNext(acts[..|acts| - 1]);
    }
  }

  function Takes(acts: seq<Action>): nat {
    if acts == [] then 0 else Takes(acts[..|acts| - 1]) + if acts[|acts| - 1].DoTake? then 1 else 0
  }

  /** The next id counts the snapshots ever taken, reverts and clears notwithstanding, until it saturates. */
  lemma {:induction false} NextIdCounts(acts: seq<Action>)
    ensures Exec(acts).nextId == Min(Takes(acts), U64_MAX)
  {
    if acts != [] {
      NextIdCounts(acts[..|acts| - 1]);
    }
  }

  lemma {:induction false} TakesGrow(acts: seq<Action>, i: nat, j: nat)
    requires i < j <= |acts| && acts[i].DoTake?
    ensures Takes(acts[..i]) < Takes(acts[..j])
    decreases j
  {
    assert acts[..j][..j - 1] == acts[..j - 1];
    if i < j - 1 {
      TakesGrow(acts, i, j - 1);
    }
  }

  /** Two snapshots of a run are handed the same id exactly when the counter had saturated before the first. */
  lemma IdsReusedIffSaturated(acts: seq<Action>, i: nat, j: nat)
    requires i < j < |acts| && acts[i].DoTake? && acts[j].DoTake?
    ensures Exec(acts[..i]).nextId == Exec(acts[..j]).nextId <==> Exec(acts[..i]).nextId == U64_MAX
    ensures Exec(acts[..i]).nextId < Exec(acts[..j]).nextId <==> Exec(acts[..i]).nextId != U64_MAX
  {
    NextIdCounts(acts[..i]);
    NextIdCounts(acts[..j]);
    TakesGrow(acts, i, j);
  }

  /** And runs do get there. */
  lemma {:induction false} SaturationIsReached(n: nat) returns (acts: seq<Action>)
    ensures Takes(acts) == n && Exec(acts).nextId == Min(n, U64_MAX)
    decreases n
  {
    acts := [];
    if n > 0 {
      var front := SaturationIsReached(n - 1);
      acts := front + [DoTake(0, 0)];
      assert acts[..|acts| - 1] == front;
    }
    NextIdCounts(acts);
  }

  /**
   Reverting to any live id, after any run at all, restores exactly the layer captured by the last snapshot
   that was handed the id.
   */
  lemma {:induction false} LiveIdRestores(acts: seq<Action>, id: nat) returns (i: nat)
    requires id in Exec(acts).snapshots
    ensures i < |acts| && acts[i].DoTake? && Exec(acts[..i]).nextId == id
    ensures forall x :: i < x < |acts| && acts[x].DoTake? ==> Exec(acts[..x]).nextId != id
    ensures Revert(Exec(acts), id) == (Revert(Exec(acts), id).0, Some((acts[i].block, acts[i].txIndex)))
    ensures Revert(Exec(acts), id).0.layer == Exec(acts[..i]).layer
  {
    var front, a := acts[..|acts| - 1], acts[|acts| - 1];
    if a.DoTake? && Exec(front).nextId == id {
      i := |acts| - 1;
    } else {
      i := LiveIdRestores(front, id);
      assert front[..i] == acts[..i];
      forall x | i < x < |acts| && acts[x].DoTake? ensures Exec(acts[..x]).nextId != id {
        if x < |front| {
          assert front[..x] == acts[..x] && front[x] == acts[x];
        }
      }
    }
  }

  /** A revert kills its id and all later ones, keeps earlier ones untouched, and hands no id back. */
  lemma RevertKillsLater(acts: seq<Action>, id: nat, other: nat)
    requires id in Exec(acts).snapshots
    ensures var s, t := Exec(acts), Revert(Exec(acts), id).0;
            && (other >= id ==> other !in t.snapshots && Revert(t, other).1 == None)
            && (other < id ==> Revert(t, other) == Revert(s, other) || (Revert(t, other).1 == Revert(s, other).1
                                && Revert(s, other).1 == None))
            && t.nextId == s.nextId
  {
    var s, t := Exec(acts), Revert(Exec(acts), id).0;
    if other < id && other in s.snapshots {
      assert Earlier(t.snapshots, other) == Earlier(s.snapshots, other);
    }
  }

  ghost predicate Kills(a: Action, id: nat, s: Store) {
    a.DoClearAll? || (a.DoRevertTo? && a.id in s.snapshots && a.id <= id)
  }

  /** An id stays live until a clear, or a revert to it or to an earlier live id. */
  lemma {:induction false} IdStaysLive(acts: seq<Action>, i: nat, id: nat)
    requires i < |acts| && acts[i].DoTake? && Exec(acts[..i]).nextId == id
    requires forall x :: i < x < |acts| ==> !Kills(acts[x], id, Exec(acts[..x]))
    ensures id in Exec(acts).snapshots
  {
    var front := acts[..|acts| - 1];
    if i < |front| {
      forall x | i < x < |front| ensures !Kills(front[x], id, Exec(front[..x])) {
        assert front[..x] == acts[..x];
      }
      assert front[..i] == acts[..i];
      IdStaysLive(front, i, id);
      assert !Kills(acts[|front|], id, Exec(acts[..|front|]));
    } else {
      assert acts[..i] == front;
    }
  }

  /** So an id is live exactly when some snapshot was handed it and nothing has killed it since. */
  lemma {:induction false} LiveIff(acts: seq<Action>, id: nat)
    ensures id in Exec(acts).snapshots <==>
              exists i: nat :: i < |acts| && acts[i].DoTake? && Exec(acts[..i]).nextId == id
                               && forall x: nat :: i < x < |acts| ==> !Kills(acts[x], id, Exec(acts[..x]))
  {
    hide Exec, Kills;
    if id in Exec(acts).snapshots {
      var i := LastTake(acts, id);
    }
    if i: nat :| i < |acts| && acts[i].DoTake? && Exec(acts[..i]).nextId == id
                 && forall x: nat :: i < x < |acts| ==> !Kills(acts[x], id, Exec(acts[..x])) {
      IdStaysLive(acts, i, id);
    }
  }

  lemma {:induction false} LastTake(acts: seq<Action>, id: nat) returns (i: nat)
    requires id in Exec(acts).snapshots
    ensures i < |acts| && acts[i].DoTake? && Exec(acts[..i]).nextId == id
    ensures forall x: nat :: i < x < |acts| ==> !Kills(acts[x], id, Exec(acts[..x]))
  {
    var front, a := acts[..|acts| - 1], acts[|acts| - 1];
    if a.DoTake? && Exec(front).nextId == id {
      i := |acts| - 1;
    } else {
      i := LastTake(front, id);
      assert front[..i] == acts[..i];
      forall x: nat | i < x < |acts| ensures !Kills(acts[x], id, Exec(acts[..x])) {
        if x < |front| {
          assert front[..x] == acts[..x] && front[x] == acts[x];
        }
      }
    }
  }

  /** Clearing leaves no override, no watch list, no count and no live id, but does not hand out old ids again. */
  lemma ClearForgets(acts: seq<Action>)
    ensures var s, t := Exec(acts), Exec(acts + [DoClearAll]);
            && t.layer.accounts == map[] && t.layer.watchList == map[] && t.layer.unwatchList == {}
            && t.layer.totalDirtySlots == 0 && t.snapshots == map[] && t.nextId == s.nextId
  {
    assert (acts + [DoClearAll])[..|acts|] == acts;
  }
}
