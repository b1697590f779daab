/**
 Blocks mined over RPC among the fork's own (apps/mirage-rs/src/rpc.rs, fork.rs): they are indexed under two hashes,
 of which pruning removes one.
 */
module RpcMining {
  import opened Prelude
  import opened ForkTypes
  import opened BlockIndex

  /** `Rpc` is one block of `evm_mine`. */
  datatype MixedOp = Own(op: Op) | Rpc

  /** A block that was stored, and by which way. */
  datatype Kept = Kept(number: nat, rpc: bool)

  datatype Mixed = Mixed(chain: Chain, history: seq<Kept>)

  function MixedStep(hs: Hashes, little: nat -> Hash, m: Mixed, op: MixedOp): Mixed {
    match op
    case Own(DoTx(r)) => Mixed(Finalize(hs, m.chain, r), m.history + [Kept(NextNumber(m.chain), false)])
    case Own(DoMine) => Mixed(Mine(m.chain), m.history)
    case Rpc => Mixed(MineEmpty(hs, little, m.chain), m.history + [Kept(NextNumber(m.chain), true)])
  }

  function MixedRun(hs: Hashes, little: nat -> Hash, ops: seq<MixedOp>): Mixed {
    if ops == [] then Mixed(EMPTY, [])
    else MixedStep(hs, little, MixedRun(hs, little, ops[..|ops| - 1]), ops[|ops| - 1])
  }

  function Evicted(h: seq<Kept>): nat { if |h| <= MAX_RETAINED_BLOCKS then 0 else |h| - MAX_RETAINED_BLOCKS }

  /** No hash leads to a block whose number is forgotten. */
  ghost predicate NoDangling(c: Chain) {
    forall k :: k in c.blocksByHash ==> c.blocksByHash[k].number in c.blocksByNumber
  }

  function HashOf(hs: Hashes, little: nat -> Hash, e: Kept): Hash {
    if e.rpc then little(e.number) else hs.block(e.number)
  }

  /** The hash `k` may still lead to the block `h[i]`, of which those before `from` are evicted. */
  predicate Leads(hs: Hashes, little: nat -> Hash, h: seq<Kept>, from: nat, i: nat, k: Hash) {
    i < |h|
    && ((k == hs.block(h[i].number) && (i >= from || h[i].rpc))
        || (k == little(h[i].number) && h[i].rpc && i >= from))
  }

  predicate Ordered(h: seq<Kept>, top: nat) {
    && (forall i, j :: 0 <= i < j < |h| ==> h[i].number < h[j].number)
    && (forall i :: 0 <= i < |h| ==> 1 <= h[i].number <= top)
  }

  ghost predicate NumbersHold(hs: Hashes, little: nat -> Hash, h: seq<Kept>, from: nat, m: map<nat, Block>) {
    && (forall i :: from <= i < |h| ==>
          h[i].number in m && m[h[i].number].number == h[i].number && m[h[i].number].hash == HashOf(hs, little, h[i]))
    && (forall n :: n in m ==> exists i :: from <= i < |h| && h[i].number == n)
  }

  ghost predicate HashesHold(hs: Hashes, little: nat -> Hash, h: seq<Kept>, from: nat, m: map<Hash, Block>) {
    && (forall k :: k in m ==> exists i: nat :: Leads(hs, little, h, from, i, k) && m[k].number == h[i].number)
    && (forall i: nat :: i < |h| && (i >= from || h[i].rpc) ==>
          hs.block(h[i].number) in m && m[hs.block(h[i].number)].number == h[i].number)
  }

  /** The indexes of a chain whose first `from` blocks are evicted. */
  ghost predicate Holds(hs: Hashes, little: nat -> Hash, h: seq<Kept>, from: nat, c: Chain) {
    && from <= |h| && Ordered(h, c.localBlock)
    && NumbersHold(hs, little, h, from, c.blocksByNumber) && HashesHold(hs, little, h, from, c.blocksByHash)
  }

  // ---- Storing ----

  lemma StoreNumbers(hs: Hashes, little: nat -> Hash, h: seq<Kept>, from: nat, m: map<nat, Block>, e: Kept, b: Block,
      top: nat)
    requires from <= |h| && Ordered(h, top) && top < e.number && NumbersHold(hs, little, h, from, m)
    requires b.number == e.number && b.hash == HashOf(hs, little, e)
    ensures NumbersHold(hs, little, h + [e], from, m[e.number := b])
  {
    var h', m' := h + [e], m[e.number := b];
    forall n | n in m' ensures exists i :: from <= i < |h'| && h'[i].number == n {
      if n == e.number {
        assert h'[|h|].number == n;
      } else {
        var i :| from <= i < |h| && h[i].number == n;
        assert h'[i] == h[i];
      }
    }
  }

  /** `m'` is `m` with the hashes of the new block. */
  ghost predicate Adds(hs: Hashes, little: nat -> Hash, m: map<Hash, Block>, m': map<Hash, Block>, e: Kept, b: Block) {
    m' == if e.rpc then m[little(e.number) := b][hs.block(e.number) := b] else m[hs.block(e.number) := b]
  }

  lemma StoreHashes(hs: Hashes, little: nat -> Hash, h: seq<Kept>, from: nat, m: map<Hash, Block>, m': map<Hash, Block>,
                    e: Kept, b: Block, top: nat)
    requires hs.Injective() && Apart(hs, little, e.number)
    requires from <= |h| && Ordered(h, top) && top < e.number && HashesHold(hs, little, h, from, m)
    requires b.number == e.number && Adds(hs, little, m, m', e, b)
    ensures HashesHold(hs, little, h + [e], from, m')
  {
    var h' := h + [e];
    forall k | k in m' ensures exists i: nat :: Leads(hs, little, h', from, i, k) && m'[k].number == h'[i].number {
      if k == hs.block(e.number) || (e.rpc && k == little(e.number)) {
        assert Leads(hs, little, h', from, |h|, k);
      } else {
        var i: nat :| Leads(hs, little, h, from, i, k) && m[k].number == h[i].number;
        assert h'[i] == h[i] && Leads(hs, little, h', from, i, k);
      }
    }
    forall i: nat | i < |h'| && (i >= from || h'[i].rpc)
      ensures hs.block(h'[i].number) in m' && m'[hs.block(h'[i].number)].number == h'[i].number
    {
      if i < |h| {
        assert h'[i] == h[i];
        NewHashes(hs, little, h[i].number, e.number);
      }
    }
  }

  lemma NewHashes(hs: Hashes, little: nat -> Hash, m: nat, n: nat)
    requires hs.Injective() && Apart(hs, little, n) && 1 <= m < n
    ensures hs.block(m) != hs.block(n) && hs.block(m) != little(n) && hs.block(n) != little(n)
            && hs.block(n) != little(m)
  {
  }

  lemma StoreHolds(hs: Hashes, little: nat -> Hash, h: seq<Kept>, from: nat, c: Chain, c': Chain, e: Kept, b: Block)
    requires hs.Injective() && Apart(hs, little, e.number) && Holds(hs, little, h, from, c)
    requires e.number == c.localBlock + 1 == c'.localBlock && b.number == e.number && b.hash == HashOf(hs, little, e)
    requires c'.blocksByNumber == c.blocksByNumber[e.number := b]
    requires Adds(hs, little, c.blocksByHash, c'.blocksByHash, e, b)
    ensures Holds(hs, little, h + [e], from, c')
  {
    hide NumbersHold, HashesHold, Adds, Apart, Hashes.Injective, Ordered, HashOf;
    StoreNumbers(hs, little, h, from, c.blocksByNumber, e, b, c.localBlock);
    StoreHashes(hs, little, h, from, c.blocksByHash, c'.blocksByHash, e, b, c.localBlock);
    OrderedMore(h, c.localBlock, e);
  }

  lemma OrderedMore(h: seq<Kept>, top: nat, e: Kept)
    requires Ordered(h, top) && e.number == top + 1
    ensures Ordered(h + [e], top + 1)
  {
  }

  // ---- Evicting ----

  lemma OldestIsLeast(hs: Hashes, little: nat -> Hash, h: seq<Kept>, from: nat, c: Chain)
    requires Holds(hs, little, h, from, c) && from < |h|
    ensures c.blocksByNumber != map[] && FirstKey(c.blocksByNumber) == h[from].number
  {
    var m, n := c.blocksByNumber, h[from].number;
    assert n in m;
    forall k | k in m ensures n <= k {
      var i :| from <= i < |h| && h[i].number == k;
    }
    FirstUnique(m, n, FirstKey(m));
  }

  lemma PopNumbers(hs: Hashes, little: nat -> Hash, h: seq<Kept>, from: nat, m: map<nat, Block>, top: nat)
    requires from < |h| && Ordered(h, top) && NumbersHold(hs, little, h, from, m)
    ensures NumbersHold(hs, little, h, from + 1, m - {h[from].number})
  {
  }

  lemma PopHashes(hs: Hashes, little: nat -> Hash, h: seq<Kept>, from: nat, m: map<Hash, Block>, top: nat)
    requires hs.Injective() && Apart(hs, little, top)
    requires from < |h| && Ordered(h, top) && HashesHold(hs, little, h, from, m)
    ensures HashesHold(hs, little, h, from + 1, m - {HashOf(hs, little, h[from])})
  {
    var gone := HashOf(hs, little, h[from]);
    var m' := m - {gone};
    forall k | k in m' ensures exists i: nat :: Leads(hs, little, h, from + 1, i, k) && m'[k].number == h[i].number {
      var i: nat :| Leads(hs, little, h, from, i, k) && m[k].number == h[i].number;
      assert Leads(hs, little, h, from + 1, i, k);
    }
    forall i: nat | i < |h| && (i >= from + 1 || h[i].rpc)
      ensures hs.block(h[i].number) in m' && m'[hs.block(h[i].number)].number == h[i].number
    {
      assert hs.block(h[i].number) != gone;
    }
  }

  lemma PopHolds(hs: Hashes, little: nat -> Hash, h: seq<Kept>, from: nat, c: Chain)
    requires hs.Injective() && Apart(hs, little, c.localBlock) && Holds(hs, little, h, from, c) && from < |h|
    ensures c.blocksByNumber != map[] && Holds(hs, little, h, from + 1, PopFirst(c))
  {
    OldestIsLeast(hs, little, h, from, c);
    PopNumbers(hs, little, h, from, c.blocksByNumber, c.localBlock);
    PopHashes(hs, little, h, from, c.blocksByHash, c.localBlock);
    assert c.blocksByNumber[h[from].number].hash == HashOf(hs, little, h[from]);
    hide NumbersHold, HashesHold, FirstKey, Apart, Hashes.Injective;
  }

  lemma {:induction false} HeldCount(hs: Hashes, little: nat -> Hash, h: seq<Kept>, from: nat, m: map<nat, Block>,
      top: nat)
    requires from <= |h| && Ordered(h, top) && NumbersHold(hs, little, h, from, m)
    ensures |m| == |h| - from
    decreases |h| - from
  {
    if from == |h| {
      NoneHeld(hs, little, h, m);
    } else {
      var n := h[from].number;
      assert n in m;
      hide NumbersHold, Ordered;
      PopNumbers(hs, little, h, from, m, top);
      HeldCount(hs, little, h, from + 1, m - {n}, top);
      OneFewer(m, n);
    }
  }

  lemma OneFewer(m: map<nat, Block>, n: nat)
    requires n in m
    ensures |m - {n}| == |m| - 1
  {
    assert m == (m - {n})[n := m[n]];
  }

  lemma NoneHeld(hs: Hashes, little: nat -> Hash, h: seq<Kept>, m: map<nat, Block>)
    requires NumbersHold(hs, little, h, |h|, m)
    ensures m == map[]
  {
    assert forall n :: n !in m;
  }

  // ---- Runs ----

  lemma PruneHolds(hs: Hashes, little: nat -> Hash, h: seq<Kept>, from: nat, c: Chain)
    requires hs.Injective() && Apart(hs, little, c.localBlock) && Holds(hs, little, h, from, c)
    requires |h| - from <= MAX_RETAINED_BLOCKS + 1
    ensures Holds(hs, little, h, if |h| - from > MAX_RETAINED_BLOCKS then from + 1 else from, Prune(c))
  {
    HeldCount(hs, little, h, from, c.blocksByNumber, c.localBlock);
    PruneOne(c);
    hide Holds, Prune, PopFirst, Apart, Hashes.Injective;
    if |h| - from > MAX_RETAINED_BLOCKS {
      PopHolds(hs, little, h, from, c);
    }
  }

  lemma PruneKeepsLocal(c: Chain)
    requires |c.blocksByNumber| <= MAX_RETAINED_BLOCKS + 1
    ensures Prune(c).localBlock == c.localBlock
  {
    PruneOne(c);
  }

  lemma StepHolds(hs: Hashes, little: nat -> Hash, m: Mixed, op: MixedOp)
    requires hs.Injective() && Apart(hs, little, m.chain.localBlock + 1) && m.chain.localBlock < U64_MAX
    requires Holds(hs, little, m.history, Evicted(m.history), m.chain)
    ensures var m' := MixedStep(hs, little, m, op);
            Holds(hs, little, m'.history, Evicted(m'.history), m'.chain)
              && m'.chain.localBlock == m.chain.localBlock + 1
  {
    hide Holds, Prune, Apart, Hashes.Injective, StoreEmpty, Store, Build, NextNumber;
    var h, c, n := m.history, m.chain, m.chain.localBlock + 1;
    assert NextNumber(c) == n by {
      Following(c);
    }
    match op
    case Own(DoTx(r)) =>
      TxStored(hs, little, h, c, r);
      GrownHolds(hs, little, h, n, Store(c, Build(hs, c, r)), Kept(n, false));
    case Own(DoMine) =>
      MinedHolds(hs, little, h, c);
    case Rpc =>
      RpcStored(hs, little, h, c);
      GrownHolds(hs, little, h, n, StoreEmpty(hs, little, n, c), Kept(n, true));
  }

  lemma Following(c: Chain)
    requires c.localBlock < U64_MAX
    ensures NextNumber(c) == c.localBlock + 1
  {
  }

  lemma MinedHolds(hs: Hashes, little: nat -> Hash, h: seq<Kept>, c: Chain)
    requires Holds(hs, little, h, Evicted(h), c) && c.localBlock < U64_MAX
    ensures Holds(hs, little, h, Evicted(h), Mine(c)) && Mine(c).localBlock == c.localBlock + 1
  {
    hide NumbersHold, HashesHold;
  }

  lemma TxStored(hs: Hashes, little: nat -> Hash, h: seq<Kept>, c: Chain, r: Request)
    requires hs.Injective() && Apart(hs, little, c.localBlock + 1) && c.localBlock < U64_MAX
            && Holds(hs, little, h, Evicted(h), c)
    ensures var n, c' := c.localBlock + 1, Store(c, Build(hs, c, r));
            c'.localBlock == n && Holds(hs, little, h + [Kept(n, false)], Evicted(h), c')
  {
    BuiltHere(hs, c, r);
    hide Holds, Apart, Hashes.Injective, Build;
    var s := Build(hs, c, r);
    StoreHolds(hs, little, h, Evicted(h), c, Store(c, s), Kept(c.localBlock + 1, false), s.block);
  }

  lemma RpcStored(hs: Hashes, little: nat -> Hash, h: seq<Kept>, c: Chain)
    requires hs.Injective() && Apart(hs, little, c.localBlock + 1) && Holds(hs, little, h, Evicted(h), c)
    ensures var n, c' := c.localBlock + 1, StoreEmpty(hs, little, c.localBlock + 1, c);
            c'.localBlock == n && Holds(hs, little, h + [Kept(n, true)], Evicted(h), c')
  {
    hide Holds, Apart, Hashes.Injective;
    var n := c.localBlock + 1;
    StoreHolds(hs, little, h, Evicted(h), c, StoreEmpty(hs, little, n, c), Kept(n, true), Block(little(n), n, 0, []));
  }

  lemma GrownHolds(hs: Hashes, little: nat -> Hash, h: seq<Kept>, n: nat, c: Chain, e: Kept)
    requires hs.Injective() && Apart(hs, little, n) && c.localBlock == n && Holds(hs, little, h + [e], Evicted(h), c)
    ensures Holds(hs, little, h + [e], Evicted(h + [e]), Prune(c)) && Prune(c).localBlock == n
  {
    hide Holds, Prune, Apart, Hashes.Injective;
    SizeOf(hs, little, h + [e], Evicted(h), c);
    PruneHolds(hs, little, h + [e], Evicted(h), c);
    PruneKeepsLocal(c);
  }

  lemma SizeOf(hs: Hashes, little: nat -> Hash, h: seq<Kept>, from: nat, c: Chain)
    requires Holds(hs, little, h, from, c)
    ensures |c.blocksByNumber| == |h| - from
  {
    HeldCount(hs, little, h, from, c.blocksByNumber, c.localBlock);
  }

  lemma ApartBelow(hs: Hashes, little: nat -> Hash, m: nat, n: nat)
    requires Apart(hs, little, n) && m <= n
    ensures Apart(hs, little, m)
  {
  }

  lemma {:induction false} RunHolds(hs: Hashes, little: nat -> Hash, ops: seq<MixedOp>)
    requires hs.Injective() && Apart(hs, little, |ops|) && |ops| <= U64_MAX
    ensures var m := MixedRun(hs, little, ops);
            Holds(hs, little, m.history, Evicted(m.history), m.chain) && m.chain.localBlock == |ops|
  {
    if ops != [] {
      var front := ops[..|ops| - 1];
      ApartBelow(hs, little, |front|, |ops|);
      RunHolds(hs, little, front);
      hide Holds, MixedStep, Apart, Hashes.Injective;
      StepHolds(hs, little, MixedRun(hs, little, front), ops[|ops| - 1]);
    }
  }

  lemma EvictedDangles(hs: Hashes, little: nat -> Hash, h: seq<Kept>, from: nat, c: Chain, i: nat)
    requires Holds(hs, little, h, from, c) && i < from && h[i].rpc
    ensures !NoDangling(c)
  {
    assert hs.block(h[i].number) in c.blocksByHash && c.blocksByHash[hs.block(h[i].number)].number == h[i].number;
    assert forall j :: from <= j < |h| ==> h[j].number != h[i].number;
  }

  /** The hashes lead only to blocks still held exactly when no block mined over RPC is among the evicted ones. */
  lemma NoDanglingIff(hs: Hashes, little: nat -> Hash, h: seq<Kept>, from: nat, c: Chain)
    requires Holds(hs, little, h, from, c)
    ensures NoDangling(c) <==> forall i :: 0 <= i < from ==> !h[i].rpc
  {
    if exists i: nat :: i < from && h[i].rpc {
      var i: nat :| i < from && h[i].rpc;
      EvictedDangles(hs, little, h, from, c, i);
    } else {
      forall k | k in c.blocksByHash ensures c.blocksByHash[k].number in c.blocksByNumber {
        var i: nat :| Leads(hs, little, h, from, i, k) && c.blocksByHash[k].number == h[i].number;
      }
    }
  }

  /**
   Over every run of transactions, mined blocks and blocks mined over RPC: pruning leaves no hash of a forgotten block
   behind exactly as long as no block mined over RPC has been evicted.
   */
  lemma PruningIsCleanIff(hs: Hashes, little: nat -> Hash, ops: seq<MixedOp>)
    requires hs.Injective() && Apart(hs, little, |ops|) && |ops| <= U64_MAX
    ensures var m := MixedRun(hs, little, ops);
            NoDangling(m.chain) <==> forall i :: 0 <= i < Evicted(m.history) ==> !m.history[i].rpc
  {
    RunHolds(hs, little, ops);
    var m := MixedRun(hs, little, ops);
    NoDanglingIff(hs, little, m.history, Evicted(m.history), m.chain);
    hide Holds, NoDangling;
  }

  function AllRpc(count: nat): seq<MixedOp> { seq(count, _ => Rpc) }

  lemma {:induction false} MinedIsMixed(hs: Hashes, little: nat -> Hash, count: nat)
    ensures var m := MixedRun(hs, little, AllRpc(count));
            m.chain == MinedEmpty(hs, little, count) && |m.history| == count && forall e :: e in m.history ==> e.rpc
  {
    if count > 0 {
      assert AllRpc(count)[..count - 1] == AllRpc(count - 1);
      MinedIsMixed(hs, little, count - 1);
      hide MineEmpty;
    }
  }

  /** In particular, of blocks mined over RPC alone, the first thousand leave nothing behind and each later one does. */
  lemma MinedIsCleanIff(hs: Hashes, little: nat -> Hash, count: nat)
    requires hs.Injective() && Apart(hs, little, count) && count <= U64_MAX
    ensures NoDangling(MinedEmpty(hs, little, count)) <==> count <= MAX_RETAINED_BLOCKS
  {
    PruningIsCleanIff(hs, little, AllRpc(count));
    MinedIsMixed(hs, little, count);
    hide NoDangling, MixedRun;
    var m := MixedRun(hs, little, AllRpc(count));
    if count > MAX_RETAINED_BLOCKS {
      assert m.history[0] in m.history;
    }
  }
}
