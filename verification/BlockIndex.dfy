/** The local block, transaction and receipt indexes of `ForkState` (apps/mirage-rs/src/fork.rs). */
module BlockIndex {
  import opened Prelude
  import opened ForkTypes

  const MAX_RETAINED_BLOCKS: nat := 1000

  datatype Tx = Tx(hash: Hash, from: Address, to: Option<Address>, value: Word, nonce: nat, blockNumber: nat)
  datatype Receipt = Receipt(txHash: Hash, blockHash: Hash, blockNumber: nat, gasUsed: nat, success: bool)
  datatype Block = Block(hash: Hash, number: nat, gasUsed: nat, transactions: seq<Hash>)

  /** keccak over the block number, and over the fields of a transaction (a missing target counts as zero). */
  datatype Hashes = Hashes(block: nat -> Hash, tx: (Address, Address, Word, nat, nat) -> Hash) {
    ghost predicate Injective() {
      && (forall m: nat, n: nat :: block(m) == block(n) ==> m == n)
      && (forall f: Address, t: Address, v: Word, k: nat, n: nat,
                 f': Address, t': Address, v': Word, k': nat, n': nat ::
            tx(f, t, v, k, n) == tx(f', t', v', k', n') ==> f == f' && t == t' && v == v' && k == k' && n == n')
    }
  }

  datatype Chain = Chain(
    localBlock: nat,
    blocksByNumber: map<nat, Block>,
    blocksByHash: map<Hash, Block>,
    transactions: map<Hash, Tx>,
    receipts: map<Hash, Receipt>)

  const EMPTY := Chain(0, map[], map[], map[], map[])

  /** The least key of a B-tree map. */
  ghost predicate IsFirst(m: map<nat, Block>, n: nat) { n in m && forall k :: k in m ==> n <= k }

  lemma {:induction false} FirstExists(m: map<nat, Block>)
    requires m != map[]
    ensures exists n :: IsFirst(m, n)
    decreases |m|
  {
    var k :| k in m;
    var rest := m - {k};
    if rest == map[] {
      assert forall j :: j in m ==> j == k || j in rest;
      assert IsFirst(m, k);
    } else {
      assert m == rest[k := m[k]];
      FirstExists(rest);
      var n :| IsFirst(rest, n);
      forall j | j in m && j != k ensures n <= j { assert j in rest; }
      assert IsFirst(m, if k < n then k else n);
    }
  }

  lemma FirstUnique(m: map<nat, Block>, a: nat, b: nat)
    requires IsFirst(m, a) && IsFirst(m, b)
    ensures a == b
  {
  }

  function FirstKey(m: map<nat, Block>): (n: nat)
    requires m != map[]
    ensures IsFirst(m, n)
  {
    FirstExists(m);
    FirstIsUnique(m);
    var n :| n in m && forall k :: k in m ==> n <= k;
    n
  }

  lemma FirstIsUnique(m: map<nat, Block>)
    ensures forall a, b :: IsFirst(m, a) && IsFirst(m, b) ==> a == b
  {
  }

  /** Evicts the oldest block from both block maps, with its transactions and receipts. */
  function PopFirst(c: Chain): Chain
    requires c.blocksByNumber != map[]
  {
    var n := FirstKey(c.blocksByNumber);
    var old_ := c.blocksByNumber[n];
    var txs := set t | t in old_.transactions;
    c.(blocksByNumber := c.blocksByNumber - {n}, blocksByHash := c.blocksByHash - {old_.hash},
       transactions := c.transactions - txs, receipts := c.receipts - txs)
  }

  lemma PopShrinks(c: Chain)
    requires c.blocksByNumber != map[]
    ensures |PopFirst(c).blocksByNumber| == |c.blocksByNumber| - 1
  {
    var n := FirstKey(c.blocksByNumber);
    var rest := c.blocksByNumber - {n};
    assert c.blocksByNumber == rest[n := c.blocksByNumber[n]];
  }

  function Prune(c: Chain): Chain
    decreases |c.blocksByNumber|
  {
    if |c.blocksByNumber| <= MAX_RETAINED_BLOCKS then c else
    assert c.blocksByNumber != map[];
    PopShrinks(c);
    Prune(PopFirst(c))
  }

  /** A chain one block over the cap loses just its oldest block. */
  lemma PruneOne(c: Chain)
    requires |c.blocksByNumber| <= MAX_RETAINED_BLOCKS + 1
    ensures |c.blocksByNumber| <= MAX_RETAINED_BLOCKS ==> Prune(c) == c
    ensures |c.blocksByNumber| > MAX_RETAINED_BLOCKS ==> c.blocksByNumber != map[] && Prune(c) == PopFirst(c)
  {
    if |c.blocksByNumber| > MAX_RETAINED_BLOCKS {
      PopShrinks(c);
    }
  }

  datatype Request = Request(from: Address, to: Option<Address>, value: Word, nonce: nat, gasUsed: nat, success: bool)

  function OrZeroAddress(to: Option<Address>): Address { if to.Some? then to.value else ZERO_ADDRESS }

  function NextNumber(c: Chain): nat { if c.localBlock < U64_MAX then c.localBlock + 1 else c.localBlock }

  function TxHash(h: Hashes, c: Chain, r: Request): Hash {
    h.tx(r.from, OrZeroAddress(r.to), r.value, r.nonce, (c.localBlock + 1) % (U64_MAX + 1))
  }

  /** One finished transaction with the block, transaction and receipt built for it. */
  datatype Stored = Stored(block: Block, tx: Tx, receipt: Receipt)

  function Build(h: Hashes, c: Chain, r: Request): Stored {
    var n, tx := NextNumber(c), TxHash(h, c, r);
    Stored(Block(h.block(n), n, r.gasUsed, [tx]),
           Tx(tx, r.from, r.to, r.value, r.nonce, n),
           Receipt(tx, h.block(n), n, r.gasUsed, r.success))
  }

  function Store(c: Chain, s: Stored): Chain {
    Chain(s.block.number, c.blocksByNumber[s.block.number := s.block], c.blocksByHash[s.block.hash := s.block],
          c.transactions[s.tx.hash := s.tx], c.receipts[s.receipt.txHash := s.receipt])
  }

  function Finalize(h: Hashes, c: Chain, r: Request): Chain { Prune(Store(c, Build(h, c, r))) }

  function Mine(c: Chain): Chain { c.(localBlock := NextNumber(c)) }

  class ForkIndexes {
    const h: Hashes
    var localBlock: nat
    var blocksByNumber: map<nat, Block>
    var blocksByHash: map<Hash, Block>
    var transactions: map<Hash, Tx>
    var receipts: map<Hash, Receipt>

    function Model(): Chain
      reads this
    {
      Chain(localBlock, blocksByNumber, blocksByHash, transactions, receipts)
    }

    constructor (h: Hashes)
      ensures Model() == EMPTY && this.h == h
    {
      this.h := h;
      localBlock, blocksByNumber, blocksByHash, transactions, receipts := 0, map[], map[], map[], map[];
    }

    method RemoveTransactions(hashes: seq<Hash>)
      modifies this`transactions, this`receipts
      ensures transactions == old(transactions) - set t | t in hashes
      ensures receipts == old(receipts) - set t | t in hashes
    {
      for i := 0 to |hashes|
        invariant transactions == old(transactions) - set t | t in hashes[..i]
        invariant receipts == old(receipts) - set t | t in hashes[..i]
      {
        assert hashes[..i + 1] == hashes[..i] + [hashes[i]];
        transactions := transactions - {hashes[i]};
        receipts := receipts - {hashes[i]};
      }
      assert hashes[..|hashes|] == hashes;
    }

    method PruneOldBlocks()
      modifies this
      ensures Model() == Prune(old(Model()))
    {
      while |blocksByNumber| > MAX_RETAINED_BLOCKS
        invariant Prune(Model()) == Prune(old(Model()))
        decreases |blocksByNumber|
      {
        PopShrinks(Model());
        var n := FirstKey(blocksByNumber);
        var evicted := blocksByNumber[n];
        ghost var before := Model();
        blocksByNumber := blocksByNumber - {n};
        blocksByHash := blocksByHash - {evicted.hash};
        RemoveTransactions(evicted.transactions);
        assert Model() == PopFirst(before);
      }
    }

    method FinalizeTransaction(r: Request)
      modifies this
      ensures Model() == Finalize(h, old(Model()), r)
    {
      hide Prune;
      ghost var before := Model();
      var txHash := TxHash(h, Model(), r);
      localBlock := if localBlock < U64_MAX then localBlock + 1 else localBlock;
      var blockHash := h.block(localBlock);
      transactions := transactions[txHash := Tx(txHash, r.from, r.to, r.value, r.nonce, localBlock)];
      receipts := receipts[txHash := Receipt(txHash, blockHash, localBlock, r.gasUsed, r.success)];
      var block := Block(blockHash, localBlock, r.gasUsed, [txHash]);
      blocksByHash := blocksByHash[blockHash := block];
      blocksByNumber := blocksByNumber[localBlock := block];
      assert Model() == Store(before, Build(h, before, r));
      PruneOldBlocks();
    }

    method MineBlock()
      modifies this
      ensures Model() == Mine(old(Model()))
    {
      localBlock := if localBlock < U64_MAX then localBlock + 1 else localBlock;
    }
  }

  // ---- The indexes as functions of history ----

  function Index<K, V>(entries: seq<(K, V)>): map<K, V> {
    if entries == [] then map[]
    else Index(entries[..|entries| - 1])[entries[|entries| - 1].0 := entries[|entries| - 1].1]
  }

  ghost predicate DistinctKeys<K(!new), V>(entries: seq<(K, V)>) {
    forall i, j :: 0 <= i < j < |entries| ==> entries[i].0 != entries[j].0
  }

  lemma {:induction false} IndexHolds<K(!new), V>(entries: seq<(K, V)>)
    requires DistinctKeys(entries)
    ensures forall i :: 0 <= i < |entries| ==>
            entries[i].0 in Index(entries) && Index(entries)[entries[i].0] == entries[i].1
    ensures forall k :: k in Index(entries) ==> exists i :: 0 <= i < |entries| && entries[i].0 == k
    ensures |Index(entries)| == |entries|
  {
    if entries != [] {
      IndexHolds(entries[..|entries| - 1]);
    }
  }

  /** Dropping the oldest entry of an index removes just its key. */
  lemma {:induction false} IndexTail<K(!new), V>(entries: seq<(K, V)>)
    requires DistinctKeys(entries) && entries != []
    ensures Index(entries[1..]) == Index(entries) - {entries[0].0}
  {
    IndexHolds(entries);
    if |entries| > 1 {
      var front, last := entries[..|entries| - 1], entries[|entries| - 1];
      IndexTail(front);
      assert entries[1..][..|entries| - 2] == front[1..];
    }
  }

  function Numbers(h: seq<Stored>): seq<(nat, Block)> {
    seq(|h|, i requires 0 <= i < |h| => (h[i].block.number, h[i].block))
  }

  function BlockHashes(h: seq<Stored>): seq<(Hash, Block)> {
    seq(|h|, i requires 0 <= i < |h| => (h[i].block.hash, h[i].block))
  }

  function Txs(h: seq<Stored>): seq<(Hash, Tx)> { seq(|h|, i requires 0 <= i < |h| => (h[i].tx.hash, h[i].tx)) }

  function Receipts(h: seq<Stored>): seq<(Hash, Receipt)> {
    seq(|h|, i requires 0 <= i < |h| => (h[i].receipt.txHash, h[i].receipt))
  }

  /** The chain whose indexes hold exactly the given blocks with their transactions. */
  function ChainOf(localBlock: nat, h: seq<Stored>): Chain {
    Chain(localBlock, Index(Numbers(h)), Index(BlockHashes(h)), Index(Txs(h)), Index(Receipts(h)))
  }

  /** What every stored record looks like, and that block numbers grow. */
  ghost predicate WellBuilt(hs: Hashes, h: seq<Stored>) {
    && (forall i :: 0 <= i < |h| ==> Genuine(hs, h[i]))
    && (forall i, j :: 0 <= i < j < |h| ==> h[i].block.number < h[j].block.number)
  }

  ghost predicate Genuine(hs: Hashes, s: Stored) {
    var n := s.block.number;
    && s.block.hash == hs.block(n) && s.block.transactions == [s.tx.hash]
    && s.tx.blockNumber == n && s.receipt.blockNumber == n
    && s.receipt.blockHash == s.block.hash && s.receipt.txHash == s.tx.hash
    && s.tx.hash == hs.tx(s.tx.from, OrZeroAddress(s.tx.to), s.tx.value, s.tx.nonce, n)
  }

  lemma DistinctEverywhere(hs: Hashes, h: seq<Stored>)
    requires hs.Injective() && WellBuilt(hs, h)
    ensures DistinctKeys(Numbers(h)) && DistinctKeys(BlockHashes(h)) && DistinctKeys(Txs(h))
            && DistinctKeys(Receipts(h))
  {
    forall i, j | 0 <= i < j < |h|
      ensures h[i].block.hash != h[j].block.hash && h[i].tx.hash != h[j].tx.hash
    {
      assert h[i].block.number < h[j].block.number && Genuine(hs, h[i]) && Genuine(hs, h[j]);
    }
  }

  lemma StoreAppends(localBlock: nat, h: seq<Stored>, s: Stored)
    ensures Store(ChainOf(localBlock, h), s) == ChainOf(s.block.number, h + [s])
  {
    var t := h + [s];
    assert Numbers(t)[..|h|] == Numbers(h) && BlockHashes(t)[..|h|] == BlockHashes(h);
    assert Txs(t)[..|h|] == Txs(h) && Receipts(t)[..|h|] == Receipts(h);
  }

  lemma Tails(h: seq<Stored>)
    requires h != []
    ensures Numbers(h)[1..] == Numbers(h[1..]) && BlockHashes(h)[1..] == BlockHashes(h[1..])
    ensures Txs(h)[1..] == Txs(h[1..]) && Receipts(h)[1..] == Receipts(h[1..])
  {
  }

  lemma OldestIsFirst(hs: Hashes, h: seq<Stored>)
    requires hs.Injective() && WellBuilt(hs, h) && h != []
    ensures var m := Index(Numbers(h));
            m != map[] && FirstKey(m) == h[0].block.number && m[FirstKey(m)] == h[0].block
  {
    DistinctEverywhere(hs, h);
    IndexHolds(Numbers(h));
    var m, n := Index(Numbers(h)), h[0].block.number;
    assert Numbers(h)[0] == (n, h[0].block);
    forall k | k in m ensures n <= k {
      var i :| 0 <= i < |h| && Numbers(h)[i].0 == k;
      assert i > 0 ==> h[0].block.number < h[i].block.number;
    }
    FirstUnique(m, n, FirstKey(m));
  }

  lemma PopDropsOldest(hs: Hashes, localBlock: nat, h: seq<Stored>)
    requires hs.Injective() && WellBuilt(hs, h) && h != []
    ensures ChainOf(localBlock, h).blocksByNumber != map[]
    ensures PopFirst(ChainOf(localBlock, h)) == ChainOf(localBlock, h[1..])
  {
    OldestIsFirst(hs, h);
    DistinctEverywhere(hs, h);
    assert Genuine(hs, h[0]);
    PopOne(ChainOf(localBlock, h), h[0].block, h[0].tx.hash);
    assert Numbers(h)[0].0 == h[0].block.number && BlockHashes(h)[0].0 == h[0].block.hash;
    assert Txs(h)[0].0 == h[0].tx.hash == Receipts(h)[0].0;
    Tails(h);
    hide WellBuilt, Genuine, Numbers, BlockHashes, Txs, Receipts, DistinctKeys, Hashes.Injective;
    hide Index, FirstKey, PopFirst;
    IndexTail(Numbers(h));
    IndexTail(BlockHashes(h));
    IndexTail(Txs(h));
    IndexTail(Receipts(h));
  }

  lemma PopOne(c: Chain, oldest: Block, tx: Hash)
    requires c.blocksByNumber != map[] && FirstKey(c.blocksByNumber) == oldest.number
    requires c.blocksByNumber[oldest.number] == oldest && oldest.transactions == [tx]
    ensures PopFirst(c) == Chain(c.localBlock, c.blocksByNumber - {oldest.number}, c.blocksByHash - {oldest.hash},
                                 c.transactions - {tx}, c.receipts - {tx})
  {
    assert (set t | t in oldest.transactions) == {tx};
  }

  function Recent(h: seq<Stored>): seq<Stored> {
    if |h| <= MAX_RETAINED_BLOCKS then h else h[|h| - MAX_RETAINED_BLOCKS..]
  }

  lemma BuildIsGenuine(hs: Hashes, c: Chain, r: Request)
    requires c.localBlock < U64_MAX
    ensures Genuine(hs, Build(hs, c, r)) && Build(hs, c, r).block.number == c.localBlock + 1
  {
  }

  lemma WellBuiltAppend(hs: Hashes, h: seq<Stored>, s: Stored)
    requires WellBuilt(hs, h) && Genuine(hs, s)
    requires forall i :: 0 <= i < |h| ==> h[i].block.number < s.block.number
    ensures WellBuilt(hs, h + [s]) && WellBuilt(hs, Recent(h) + [s])
  {
    hide Genuine;
  }

  /** One more transaction on a chain that holds the recent history. */
  lemma FinalizeKeepsRecent(hs: Hashes, localBlock: nat, h: seq<Stored>, r: Request)
    requires hs.Injective() && WellBuilt(hs, h) && localBlock < U64_MAX
    requires forall i :: 0 <= i < |h| ==> h[i].block.number <= localBlock
    ensures var c := ChainOf(localBlock, Recent(h));
            var s := Build(hs, c, r);
            && s.block.number == localBlock + 1
            && WellBuilt(hs, h + [s])
            && Finalize(hs, c, r) == ChainOf(localBlock + 1, Recent(h + [s]))
  {
    hide Prune, PopFirst, Recent, WellBuilt, Genuine, Store, Hashes.Injective;
    var c := ChainOf(localBlock, Recent(h));
    assert c.localBlock == localBlock;
    BuildIsGenuine(hs, c, r);
    hide ChainOf;
    var s := Build(hs, c, r);
    assert s.block.number == localBlock + 1;
    hide Build;
    StoreAppends(localBlock, Recent(h), s);
    WellBuiltAppend(hs, h, s);
    RecentAppend(h, s);
    PruneToCap(hs, localBlock + 1, Recent(h) + [s]);
  }

  lemma PruneToCap(hs: Hashes, localBlock: nat, h: seq<Stored>)
    requires hs.Injective() && WellBuilt(hs, h) && |h| <= MAX_RETAINED_BLOCKS + 1
    ensures Prune(ChainOf(localBlock, h)) == ChainOf(localBlock, if |h| > MAX_RETAINED_BLOCKS then h[1..] else h)
  {
    hide Prune, PopFirst, ChainOf, WellBuilt, Hashes.Injective;
    ChainSize(hs, localBlock, h);
    PruneOne(ChainOf(localBlock, h));
    if |h| > MAX_RETAINED_BLOCKS {
      PopDropsOldest(hs, localBlock, h);
    }
  }

  lemma RecentAppend(h: seq<Stored>, s: Stored)
    ensures var longer := Recent(h) + [s];
            && |longer| <= MAX_RETAINED_BLOCKS + 1
            && Recent(h + [s]) == if |longer| > MAX_RETAINED_BLOCKS then longer[1..] else longer
  {
  }

  lemma ChainSize(hs: Hashes, localBlock: nat, h: seq<Stored>)
    requires hs.Injective() && WellBuilt(hs, h)
    ensures |ChainOf(localBlock, h).blocksByNumber| == |h|
  {
    DistinctEverywhere(hs, h);
    IndexHolds(Numbers(h));
  }

  // ---- Whole runs ----

  datatype Op = DoTx(r: Request) | DoMine

  datatype Run = Run(chain: Chain, history: seq<Stored>)

  function Exec(hs: Hashes, ops: seq<Op>): Run {
    if ops == [] then Run(EMPTY, []) else
    var before := Exec(hs, ops[..|ops| - 1]);
    match ops[|ops| - 1]
    case DoTx(r) => Run(Finalize(hs, before.chain, r), before.history + [Build(hs, before.chain, r)])
    case DoMine => Run(Mine(before.chain), before.history)
  }

  /**
   From an empty fork, over any run of transactions and mined blocks, the four indexes hold exactly the last
   at-most-1000 stored blocks with their transactions and receipts.
   */
  lemma {:induction false} IndexesHoldRecentHistory(hs: Hashes, ops: seq<Op>)
    requires hs.Injective() && |ops| <= U64_MAX
    ensures var run := Exec(hs, ops);
            && run.chain == ChainOf(run.chain.localBlock, Recent(run.history)) && run.chain.localBlock == |ops|
            && WellBuilt(hs, run.history)
            && forall i :: 0 <= i < |run.history| ==> run.history[i].block.number <= |ops|
  {
    if ops != [] {
      var front, op := ops[..|ops| - 1], ops[|ops| - 1];
      IndexesHoldRecentHistory(hs, front);
      var before := Exec(hs, front);
      if op.DoTx? {
        FinalizeKeepsRecent(hs, before.chain.localBlock, before.history, op.r);
      }
    }
  }

  ghost predicate NumbersAgree(c: Chain) {
    forall n | n in c.blocksByNumber :: var b := c.blocksByNumber[n];
      && b.number == n && Lookup(c.blocksByHash, b.hash) == Some(b)
      && forall t :: t in b.transactions ==> t in c.transactions && c.transactions[t].blockNumber == n
  }

  ghost predicate HashesAgree(c: Chain) {
    forall k | k in c.blocksByHash :: var b := c.blocksByHash[k];
      b.hash == k && Lookup(c.blocksByNumber, b.number) == Some(b)
  }

  ghost predicate TxsAgree(c: Chain) {
    forall t | t in c.transactions :: var tx := c.transactions[t];
      && tx.hash == t && t in c.receipts
      && tx.blockNumber in c.blocksByNumber && t in c.blocksByNumber[tx.blockNumber].transactions
  }

  ghost predicate ReceiptsAgree(c: Chain) {
    forall t | t in c.receipts :: var r := c.receipts[t];
      && r.txHash == t && t in c.transactions && c.transactions[t].blockNumber == r.blockNumber
      && r.blockHash in c.blocksByHash && c.blocksByHash[r.blockHash].number == r.blockNumber
  }

  /** The four indexes describe the same blocks. */
  ghost predicate Agree(c: Chain) {
    |c.blocksByNumber| <= MAX_RETAINED_BLOCKS && NumbersAgree(c) && HashesAgree(c) && TxsAgree(c) && ReceiptsAgree(c)
  }

  /** A record is found, whole, in every index. */
  ghost predicate Recorded(hs: Hashes, c: Chain, s: Stored) {
    && Genuine(hs, s)
    && Lookup(c.blocksByNumber, s.block.number) == Some(s.block)
    && Lookup(c.blocksByHash, s.block.hash) == Some(s.block)
    && Lookup(c.transactions, s.tx.hash) == Some(s.tx)
    && Lookup(c.receipts, s.tx.hash) == Some(s.receipt)
  }

  lemma IndexAt<K(!new), V>(entries: seq<(K, V)>, i: nat)
    requires DistinctKeys(entries) && i < |entries|
    ensures Lookup(Index(entries), entries[i].0) == Some(entries[i].1)
  {
    IndexHolds(entries);
  }

  lemma IndexFrom<K(!new), V>(entries: seq<(K, V)>, k: K) returns (i: nat)
    requires DistinctKeys(entries) && k in Index(entries)
    ensures i < |entries| && entries[i].0 == k
  {
    IndexHolds(entries);
    i :| 0 <= i < |entries| && entries[i].0 == k;
  }

  lemma RecordIsFound(hs: Hashes, localBlock: nat, h: seq<Stored>, i: nat)
    requires hs.Injective() && WellBuilt(hs, h) && i < |h|
    ensures Recorded(hs, ChainOf(localBlock, h), h[i])
  {
    DistinctEverywhere(hs, h);
    assert Genuine(hs, h[i]);
    hide Index, DistinctKeys, Hashes.Injective, WellBuilt;
    IndexAt(Numbers(h), i);
    IndexAt(BlockHashes(h), i);
    IndexAt(Txs(h), i);
    IndexAt(Receipts(h), i);
  }

  lemma RecentNumbersAgree(hs: Hashes, localBlock: nat, h: seq<Stored>)
    requires hs.Injective() && WellBuilt(hs, h)
    ensures NumbersAgree(ChainOf(localBlock, h)) && HashesAgree(ChainOf(localBlock, h))
  {
    DistinctEverywhere(hs, h);
    hide Index, DistinctKeys, Hashes.Injective, WellBuilt;
    var c := ChainOf(localBlock, h);
    forall n | n in c.blocksByNumber
      ensures var b := c.blocksByNumber[n];
              && b.number == n && Lookup(c.blocksByHash, b.hash) == Some(b)
              && forall t :: t in b.transactions ==> t in c.transactions && c.transactions[t].blockNumber == n
    {
      var i := IndexFrom(Numbers(h), n);
      RecordIsFound(hs, localBlock, h, i);
    }
    forall k | k in c.blocksByHash
      ensures var b := c.blocksByHash[k]; b.hash == k && Lookup(c.blocksByNumber, b.number) == Some(b)
    {
      var i := IndexFrom(BlockHashes(h), k);
      RecordIsFound(hs, localBlock, h, i);
    }
  }

  lemma RecentTxsAgree(hs: Hashes, localBlock: nat, h: seq<Stored>)
    requires hs.Injective() && WellBuilt(hs, h)
    ensures TxsAgree(ChainOf(localBlock, h)) && ReceiptsAgree(ChainOf(localBlock, h))
  {
    DistinctEverywhere(hs, h);
    hide Index, DistinctKeys, Hashes.Injective, WellBuilt;
    var c := ChainOf(localBlock, h);
    forall t | t in c.transactions
      ensures var tx := c.transactions[t];
              && tx.hash == t && t in c.receipts
              && tx.blockNumber in c.blocksByNumber && t in c.blocksByNumber[tx.blockNumber].transactions
    {
      var i := IndexFrom(Txs(h), t);
      RecordIsFound(hs, localBlock, h, i);
    }
    forall t | t in c.receipts
      ensures var r := c.receipts[t];
              && r.txHash == t && t in c.transactions && c.transactions[t].blockNumber == r.blockNumber
              && r.blockHash in c.blocksByHash && c.blocksByHash[r.blockHash].number == r.blockNumber
    {
      var i := IndexFrom(Receipts(h), t);
      RecordIsFound(hs, localBlock, h, i);
    }
  }

  lemma RecentAgrees(hs: Hashes, localBlock: nat, h: seq<Stored>)
    requires hs.Injective() && WellBuilt(hs, h) && |h| <= MAX_RETAINED_BLOCKS
    ensures Agree(ChainOf(localBlock, h))
  {
    hide NumbersAgree, HashesAgree, TxsAgree, ReceiptsAgree, ChainOf, WellBuilt, Hashes.Injective;
    ChainSize(hs, localBlock, h);
    RecentNumbersAgree(hs, localBlock, h);
    RecentTxsAgree(hs, localBlock, h);
  }

  lemma RunsAgree(hs: Hashes, ops: seq<Op>)
    requires hs.Injective() && |ops| <= U64_MAX
    ensures Agree(Exec(hs, ops).chain)
  {
    IndexesHoldRecentHistory(hs, ops);
    var run := Exec(hs, ops);
    RecentAgrees(hs, run.chain.localBlock, Recent(run.history));
  }

  // ---- What is on record of each request ----

  function TxCount(ops: seq<Op>): nat {
    if ops == [] then 0 else TxCount(ops[..|ops| - 1]) + if ops[|ops| - 1].DoTx? then 1 else 0
  }

  /** Block `n`, its transaction and its receipt are those of the request: its parties, its gas, its own outcome. */
  ghost predicate Reported(hs: Hashes, c: Chain, n: nat, r: Request) {
    var hash := hs.tx(r.from, if r.to.Some? then r.to.value else 0, r.value, r.nonce, n);
    var block := Block(hs.block(n), n, r.gasUsed, [hash]);
    && Lookup(c.blocksByNumber, n) == Some(block)
    && Lookup(c.blocksByHash, hs.block(n)) == Some(block)
    && Lookup(c.transactions, hash) == Some(Tx(hash, r.from, r.to, r.value, r.nonce, n))
    && Lookup(c.receipts, hash) == Some(Receipt(hash, hs.block(n), n, r.gasUsed, r.success))
  }

  /** The requests of a run stand in its history in their order. */
  lemma {:induction false} HistoryAt(hs: Hashes, ops: seq<Op>, k: nat)
    requires k < |ops| && ops[k].DoTx?
    ensures var i, h := TxCount(ops[..k]), Exec(hs, ops).history;
            |h| == TxCount(ops) && i < |h| && h[i] == Build(hs, Exec(hs, ops[..k]).chain, ops[k].r)
    decreases |ops|
  {
    var front := ops[..|ops| - 1];
    HistorySize(hs, ops);
    HistorySize(hs, front);
    if k < |front| {
      HistoryAt(hs, front, k);
      assert front[..k] == ops[..k];
    } else {
      assert ops[..k] == front;
    }
    hide Build, Finalize;
  }

  lemma {:induction false} HistorySize(hs: Hashes, ops: seq<Op>)
    ensures |Exec(hs, ops).history| == TxCount(ops)
  {
    if ops != [] {
      HistorySize(hs, ops[..|ops| - 1]);
    }
  }

  lemma BuildReports(hs: Hashes, c: Chain, d: Chain, r: Request)
    requires c.localBlock < U64_MAX && Recorded(hs, d, Build(hs, c, r))
    ensures Reported(hs, d, c.localBlock + 1, r)
  {
  }

  lemma OlderIsGone(hs: Hashes, localBlock: nat, h: seq<Stored>, n: nat)
    requires hs.Injective() && WellBuilt(hs, h) && forall i :: 0 <= i < |h| ==> n < h[i].block.number
    ensures n !in ChainOf(localBlock, h).blocksByNumber
  {
    DistinctEverywhere(hs, h);
    IndexHolds(Numbers(h));
  }

  /** In a run of transactions and mined blocks each request is on record exactly while it is one of the last 1000. */
  lemma RequestsAreReported(hs: Hashes, ops: seq<Op>, k: nat)
    requires hs.Injective() && |ops| <= U64_MAX && k < |ops| && ops[k].DoTx?
    ensures var c := Exec(hs, ops).chain;
            if TxCount(ops) - TxCount(ops[..k]) <= 1000 then Reported(hs, c, k + 1, ops[k].r)
            else k + 1 !in c.blocksByNumber
  {
    hide Exec, TxCount, Hashes.Injective, ChainOf, Reported, Recent, Build, WellBuilt;
    var run, before := Exec(hs, ops), Exec(hs, ops[..k]).chain;
    IndexesHoldRecentHistory(hs, ops);
    IndexesHoldRecentHistory(hs, ops[..k]);
    HistoryAt(hs, ops, k);
    RecordOrGone(hs, run.chain.localBlock, run.history, TxCount(ops[..k]), before, ops[k].r);
  }

  lemma RecordOrGone(hs: Hashes, localBlock: nat, h: seq<Stored>, i: nat, before: Chain, r: Request)
    requires hs.Injective() && WellBuilt(hs, h) && i < |h| && before.localBlock < U64_MAX
    requires h[i] == Build(hs, before, r)
    ensures var c := ChainOf(localBlock, Recent(h));
            if |h| - i <= MAX_RETAINED_BLOCKS then Reported(hs, c, before.localBlock + 1, r)
            else before.localBlock + 1 !in c.blocksByNumber
  {
    hide Hashes.Injective, ChainOf, Reported, Recorded, Genuine;
    BuildNumber(hs, before, r);
    hide Build;
    var cut := if |h| <= MAX_RETAINED_BLOCKS then 0 else |h| - MAX_RETAINED_BLOCKS;
    assert Recent(h) == h[cut..];
    if i >= cut {
      assert Recent(h)[i - cut] == h[i];
      RecordIsFound(hs, localBlock, Recent(h), i - cut);
      BuildReports(hs, before, ChainOf(localBlock, Recent(h)), r);
    } else {
      OlderIsGone(hs, localBlock, Recent(h), before.localBlock + 1);
    }
  }

  lemma BuildNumber(hs: Hashes, c: Chain, r: Request)
    requires c.localBlock < U64_MAX
    ensures Build(hs, c, r).block.number == c.localBlock + 1
  {
  }

  // ---- Runs with reverts ----

  /** Blocks and transactions carry the hashes of their own contents; orphans are allowed. */
  ghost predicate Sound(hs: Hashes, c: Chain) {
    && (forall n | n in c.blocksByNumber ::
       c.blocksByNumber[n].hash == hs.block(n) && c.blocksByNumber[n].transactions != [])
    && (forall t | t in c.transactions :: var tx := c.transactions[t];
          t == hs.tx(tx.from, OrZeroAddress(tx.to), tx.value, tx.nonce, tx.blockNumber))
  }

  ghost predicate Consistent(c: Chain) { NumbersAgree(c) && HashesAgree(c) && TxsAgree(c) && ReceiptsAgree(c) }

  /** The block number the next transaction takes is free, or held by that very transaction. */
  predicate TakesNoOther(hs: Hashes, c: Chain, r: Request) {
    var n := NextNumber(c);
    n in c.blocksByNumber ==> forall t :: t in c.blocksByNumber[n].transactions ==> t == TxHash(hs, c, r)
  }

  lemma BuiltHere(hs: Hashes, c: Chain, r: Request)
    requires c.localBlock < U64_MAX
    ensures var n, s := NextNumber(c), Build(hs, c, r);
            && n == c.localBlock + 1 && s.block.number == n && s.block.hash == hs.block(n)
            && s.block.transactions == [TxHash(hs, c, r)] && s.tx.hash == s.receipt.txHash == TxHash(hs, c, r)
            && s.tx.blockNumber == s.receipt.blockNumber == n && s.receipt.blockHash == hs.block(n)
            && TxHash(hs, c, r) == hs.tx(s.tx.from, OrZeroAddress(s.tx.to), s.tx.value, s.tx.nonce, n)
  {
  }

  lemma StoreKeepsSound(hs: Hashes, c: Chain, r: Request)
    requires Sound(hs, c) && c.localBlock < U64_MAX
    ensures Sound(hs, Store(c, Build(hs, c, r)))
  {
    BuiltHere(hs, c, r);
    hide Build, TxHash, NextNumber;
  }

  lemma PopKeepsSound(hs: Hashes, c: Chain)
    requires Sound(hs, c) && c.blocksByNumber != map[]
    ensures Sound(hs, PopFirst(c))
  {
    hide FirstKey;
  }

  /** A transaction hash determines its block number. */
  lemma SameTxSameBlock(hs: Hashes, c: Chain, r: Request)
    requires hs.Injective() && Sound(hs, c) && c.localBlock < U64_MAX && TxHash(hs, c, r) in c.transactions
    ensures c.transactions[TxHash(hs, c, r)].blockNumber == NextNumber(c)
  {
  }

  lemma StoreKeepsNumbers(hs: Hashes, c: Chain, r: Request)
    requires hs.Injective() && Sound(hs, c) && Consistent(c) && c.localBlock < U64_MAX
    ensures NumbersAgree(Store(c, Build(hs, c, r)))
  {
    BuiltHere(hs, c, r);
    if TxHash(hs, c, r) in c.transactions {
      SameTxSameBlock(hs, c, r);
    }
    hide Build, TxHash, NextNumber, TxsAgree, ReceiptsAgree, HashesAgree;
  }

  lemma StoreKeepsHashes(hs: Hashes, c: Chain, r: Request)
    requires hs.Injective() && Sound(hs, c) && Consistent(c) && c.localBlock < U64_MAX
    ensures HashesAgree(Store(c, Build(hs, c, r)))
  {
    BuiltHere(hs, c, r);
    hide Build, TxHash, NextNumber, TxsAgree, ReceiptsAgree, NumbersAgree;
  }

  lemma StoreKeepsReceipts(hs: Hashes, c: Chain, r: Request)
    requires hs.Injective() && Sound(hs, c) && Consistent(c) && c.localBlock < U64_MAX
    ensures ReceiptsAgree(Store(c, Build(hs, c, r)))
  {
    hide Build, TxHash, NextNumber, TxsAgree, NumbersAgree, Hashes.Injective, Sound;
    BuiltHere(hs, c, r);
    HashOfNumber(hs, c, NextNumber(c));
  }

  /** A hash of the index is the hash of its block's number. */
  lemma HashOfNumber(hs: Hashes, c: Chain, n: nat)
    requires hs.Injective() && Sound(hs, c) && HashesAgree(c)
    ensures hs.block(n) in c.blocksByHash ==> c.blocksByHash[hs.block(n)].number == n
  {
    hide Hashes.Injective;
    if hs.block(n) in c.blocksByHash {
      var b := c.blocksByHash[hs.block(n)];
      assert b.hash == hs.block(b.number);
      InjectiveBlocks(hs, b.number, n);
    }
  }

  lemma InjectiveBlocks(hs: Hashes, m: nat, n: nat)
    requires hs.Injective() && hs.block(m) == hs.block(n)
    ensures m == n
  {
  }

  lemma StoreKeepsTxsIff(hs: Hashes, c: Chain, r: Request)
    requires hs.Injective() && Sound(hs, c) && Consistent(c) && c.localBlock < U64_MAX
    ensures TxsAgree(Store(c, Build(hs, c, r))) <==> TakesNoOther(hs, c, r)
  {
    BuiltHere(hs, c, r);
    var d := Store(c, Build(hs, c, r));
    var n := NextNumber(c);
    hide Build, TxHash, NextNumber, ReceiptsAgree, HashesAgree, Hashes.Injective;
    if TxsAgree(d) && n in c.blocksByNumber {
      forall t | t in c.blocksByNumber[n].transactions ensures t == TxHash(hs, c, r) {
        assert t in d.transactions && c.transactions[t].blockNumber == n;
        assert d.blocksByNumber[n].transactions == [TxHash(hs, c, r)];
      }
    }
    if TakesNoOther(hs, c, r) {
      forall t | t in d.transactions
        ensures var tx := d.transactions[t];
                && tx.hash == t && t in d.receipts
                && tx.blockNumber in d.blocksByNumber && t in d.blocksByNumber[tx.blockNumber].transactions
      {
        if t != TxHash(hs, c, r) {
          assert t in c.transactions;
        }
      }
    }
  }

  lemma PopKeepsConsistent(hs: Hashes, c: Chain)
    requires Consistent(c) && c.blocksByNumber != map[]
    ensures Consistent(PopFirst(c))
  {
    PopKeepsNumbers(c);
    PopKeepsTxs(c);
    PopKeepsReceipts(c);
    hide FirstKey, TxsAgree, ReceiptsAgree;
    var d := PopFirst(c);
    forall k | k in d.blocksByHash
      ensures var x := d.blocksByHash[k]; x.hash == k && Lookup(d.blocksByNumber, x.number) == Some(x)
    {
      assert k in c.blocksByHash;
    }
  }

  lemma PopKeepsTxs(c: Chain)
    requires Consistent(c) && c.blocksByNumber != map[]
    ensures TxsAgree(PopFirst(c))
  {
    var n := FirstKey(c.blocksByNumber);
    hide FirstKey, ReceiptsAgree, HashesAgree;
    var b, d := c.blocksByNumber[n], PopFirst(c);
    forall t | t in d.transactions
      ensures var tx := d.transactions[t];
              && tx.hash == t && t in d.receipts
              && tx.blockNumber in d.blocksByNumber && t in d.blocksByNumber[tx.blockNumber].transactions
    {
      assert t in c.transactions && t !in b.transactions;
    }
  }

  lemma PopKeepsReceipts(c: Chain)
    requires Consistent(c) && c.blocksByNumber != map[]
    ensures ReceiptsAgree(PopFirst(c))
  {
    var n := FirstKey(c.blocksByNumber);
    hide FirstKey;
    var b, d := c.blocksByNumber[n], PopFirst(c);
    forall t | t in d.receipts
      ensures var r := d.receipts[t];
              && r.txHash == t && t in d.transactions && d.transactions[t].blockNumber == r.blockNumber
              && r.blockHash in d.blocksByHash && d.blocksByHash[r.blockHash].number == r.blockNumber
    {
      assert t in c.receipts && t !in b.transactions;
    }
  }

  lemma PopKeepsNumbers(c: Chain)
    requires Consistent(c) && c.blocksByNumber != map[]
    ensures NumbersAgree(PopFirst(c))
  {
    var n := FirstKey(c.blocksByNumber);
    hide FirstKey, TxsAgree, ReceiptsAgree;
    var d := PopFirst(c);
    forall m | m in d.blocksByNumber
      ensures var x := d.blocksByNumber[m];
              && x.number == m && Lookup(d.blocksByHash, x.hash) == Some(x)
              && forall t :: t in x.transactions ==> t in d.transactions && d.transactions[t].blockNumber == m
    {
      assert c.blocksByNumber[m].hash != c.blocksByNumber[n].hash;
    }
  }

  lemma StoreSize(c: Chain, s: Stored)
    ensures |Store(c, s).blocksByNumber|
            == |c.blocksByNumber| + if s.block.number in c.blocksByNumber then 0 else 1
  {
    var m := c.blocksByNumber;
    assert m[s.block.number := s.block].Keys == m.Keys + {s.block.number};
  }

  /** One transaction on agreeing indexes: they agree afterwards exactly when its block number is not taken by
      another. */
  lemma FinalizeAgreesIff(hs: Hashes, c: Chain, r: Request)
    requires hs.Injective() && Sound(hs, c) && Agree(c) && c.localBlock < U64_MAX
    ensures Agree(Finalize(hs, c, r)) <==> TakesNoOther(hs, c, r)
    ensures Sound(hs, Finalize(hs, c, r)) && Finalize(hs, c, r).localBlock == c.localBlock + 1
  {
    BuiltHere(hs, c, r);
    var s := Build(hs, c, r);
    var d := Store(c, s);
    StoreSize(c, s);
    StoreKeepsSound(hs, c, r);
    StoreKeepsNumbers(hs, c, r);
    StoreKeepsHashes(hs, c, r);
    StoreKeepsReceipts(hs, c, r);
    StoreKeepsTxsIff(hs, c, r);
    PruneOne(d);
    assert d.localBlock == c.localBlock + 1;
    hide Sound, Prune, PopFirst, Build, Store, NumbersAgree, HashesAgree, TxsAgree, ReceiptsAgree, NextNumber;
    if |d.blocksByNumber| > MAX_RETAINED_BLOCKS {
      PopKeepsSound(hs, d);
      PopShrinks(d);
      PopKeepsConsistent(hs, d);
      PopKeepsLocal(d);
    }
  }

  lemma PopKeepsLocal(c: Chain)
    requires c.blocksByNumber != map[]
    ensures PopFirst(c).localBlock == c.localBlock
  {
  }

  /** A revert takes the local block number back and leaves the indexes. */
  datatype Event = Own(op: Op) | Back(to: nat)

  function LiveStep(hs: Hashes, c: Chain, e: Event): Chain {
    match e
    case Own(DoTx(r)) => Finalize(hs, c, r)
    case Own(DoMine) => Mine(c)
    case Back(n) => c.(localBlock := Min(n, c.localBlock))
  }

  function Live(hs: Hashes, events: seq<Event>): Chain {
    if events == [] then EMPTY else LiveStep(hs, Live(hs, events[..|events| - 1]), events[|events| - 1])
  }

  /** A transaction does not take over the number of a block that holds another one. */
  predicate Careful(hs: Hashes, c: Chain, e: Event) { e.Own? && e.op.DoTx? ==> TakesNoOther(hs, c, e.op.r) }

  ghost predicate AgreesThroughout(hs: Hashes, events: seq<Event>) {
    forall i: nat :: i <= |events| ==> Agree(Live(hs, events[..i]))
  }

  ghost predicate AlwaysCareful(hs: Hashes, events: seq<Event>) {
    forall i: nat :: i < |events| ==> Careful(hs, Live(hs, events[..i]), events[i])
  }

  lemma Prefixes(hs: Hashes, front: seq<Event>, e: Event)
    ensures AgreesThroughout(hs, front + [e]) <==> AgreesThroughout(hs, front) && Agree(Live(hs, front + [e]))
    ensures AlwaysCareful(hs, front + [e]) <==> AlwaysCareful(hs, front) && Careful(hs, Live(hs, front), e)
  {
    hide Live, Agree, Careful;
    var events, n := front + [e], |front|;
    assert events[..n + 1] == events && events[n] == e;
    forall i: nat | i <= n ensures events[..i] == front[..i] {
    }
    assert front[..n] == front;
    if AlwaysCareful(hs, events) {
      forall i: nat | i < n ensures Careful(hs, Live(hs, front[..i]), front[i]) {
        assert front[i] == events[i] && events[..i] == front[..i];
      }
      assert Careful(hs, Live(hs, events[..n]), events[n]);
    }
    if AlwaysCareful(hs, front) && Careful(hs, Live(hs, front), e) {
      forall i: nat | i <= n ensures Careful(hs, Live(hs, events[..i]), events[i]) {
        if i < n {
          assert front[i] == events[i] && events[..i] == front[..i];
        }
      }
    }
    if AgreesThroughout(hs, events) {
      forall i: nat | i <= n ensures Agree(Live(hs, front[..i])) {
        assert events[..i] == front[..i];
      }
      assert Agree(Live(hs, events[..n + 1]));
    }
    if AgreesThroughout(hs, front) && Agree(Live(hs, events)) {
      forall i: nat | i <= n + 1 ensures Agree(Live(hs, events[..i])) {
        if i <= n {
          assert events[..i] == front[..i];
        }
      }
    }
  }

  /**
   Over any run of transactions, mined blocks and reverts the indexes agree all along exactly when no
   transaction ever takes a block number that holds another one.
   */
  lemma {:induction false} RunsAgreeIff(hs: Hashes, events: seq<Event>)
    requires hs.Injective() && |events| <= U64_MAX
    ensures AgreesThroughout(hs, events) <==> AlwaysCareful(hs, events)
    ensures AgreesThroughout(hs, events) ==>
              Sound(hs, Live(hs, events)) && Agree(Live(hs, events)) && Live(hs, events).localBlock <= |events|
  {
    if events == [] {
      NoEvents(hs);
    } else {
      var front, e := events[..|events| - 1], events[|events| - 1];
      assert events == front + [e];
      RunsAgreeIff(hs, front);
      Prefixes(hs, front, e);
      hide AgreesThroughout, AlwaysCareful, Agree, Sound, LiveStep, Careful, Hashes.Injective;
      if AgreesThroughout(hs, front) {
        EventAgreesIff(hs, Live(hs, front), e);
      }
    }
  }

  lemma NoEvents(hs: Hashes)
    ensures AgreesThroughout(hs, []) && AlwaysCareful(hs, []) && Sound(hs, EMPTY) && Agree(EMPTY)
  {
    var none: seq<Event> := [];
    assert none[..0] == none;
  }

  lemma EventAgreesIff(hs: Hashes, c: Chain, e: Event)
    requires hs.Injective() && Sound(hs, c) && Agree(c) && c.localBlock < U64_MAX
    ensures Agree(LiveStep(hs, c, e)) <==> Careful(hs, c, e)
    ensures Sound(hs, LiveStep(hs, c, e)) && LiveStep(hs, c, e).localBlock <= c.localBlock + 1
  {
    if e.Own? && e.op.DoTx? {
      FinalizeAgreesIff(hs, c, e.op.r);
      hide Finalize, TakesNoOther, Agree, Sound;
    } else {
      SameIndexes(hs, c, LiveStep(hs, c, e));
    }
  }

  lemma SameIndexes(hs: Hashes, c: Chain, d: Chain)
    requires d == c.(localBlock := d.localBlock)
    ensures (Agree(d) <==> Agree(c)) && (Sound(hs, d) <==> Sound(hs, c))
  {
  }

  // ---- Blocks mined over RPC ----

  /** `evm_mine` hashes the little-endian number and also indexes the block under the canonical hash. */
  function StoreEmpty(hs: Hashes, little: nat -> Hash, count: nat, c: Chain): Chain {
    var b := Block(little(count), count, 0, []);
    Chain(count, c.blocksByNumber[count := b], c.blocksByHash[little(count) := b][hs.block(count) := b],
          c.transactions, c.receipts)
  }

  function MineEmpty(hs: Hashes, little: nat -> Hash, c: Chain): Chain {
    Prune(StoreEmpty(hs, little, NextNumber(c), c))
  }

  function MinedEmpty(hs: Hashes, little: nat -> Hash, count: nat): Chain {
    if count == 0 then EMPTY else MineEmpty(hs, little, MinedEmpty(hs, little, count - 1))
  }

  /** The little-endian hashes of the first blocks are none of their canonical ones. */
  ghost predicate Apart(hs: Hashes, little: nat -> Hash, count: nat) {
    forall m: nat, n: nat :: 1 <= m <= count && 1 <= n <= count ==> little(m) != hs.block(n)
  }

  lemma {:induction false} IntervalSize(m: map<nat, Block>, low: nat, high: nat)
    requires low <= high + 1 && forall n: nat :: n in m <==> low <= n <= high
    ensures |m| == high + 1 - low
    decreases high + 1 - low
  {
    if low > high {
      assert forall n: nat :: n !in m;
      assert m == map[];
    } else {
      assert forall n: nat :: n in m - {low} <==> low + 1 <= n <= high;
      IntervalSize(m - {low}, low + 1, high);
      assert m == (m - {low})[low := m[low]];
    }
  }

  /** The first of the numbers still held after `count` blocks. */
  function Oldest(count: nat): nat { if count < MAX_RETAINED_BLOCKS then 1 else count + 1 - MAX_RETAINED_BLOCKS }

  /** What `count` blocks mined over RPC leave behind: the recent numbers, and every canonical hash. */
  ghost predicate Leaked(hs: Hashes, little: nat -> Hash, count: nat, low: nat, c: Chain) {
    && c.localBlock == count
    && (forall n: nat :: n in c.blocksByNumber <==> low <= n <= count)
    && (forall n: nat :: n in c.blocksByNumber ==> c.blocksByNumber[n] == Block(little(n), n, 0, []))
    && (forall n: nat :: 1 <= n <= count ==> Lookup(c.blocksByHash, hs.block(n)) == Some(Block(little(n), n, 0, [])))
  }

  /** Pruning forgets the numbers but leaves the canonical hash of every block ever mined this way. */
  lemma {:induction false} MinedBlocksLeak(hs: Hashes, little: nat -> Hash, count: nat)
    requires hs.Injective() && Apart(hs, little, count) && count <= U64_MAX
    ensures Leaked(hs, little, count, Oldest(count), MinedEmpty(hs, little, count))
  {
    if count > 0 {
      MinedBlocksLeak(hs, little, count - 1);
      MineOne(hs, little, count, MinedEmpty(hs, little, count - 1));
    }
  }

  lemma StoreLeaks(hs: Hashes, little: nat -> Hash, count: nat, low: nat, c: Chain)
    requires hs.Injective() && Apart(hs, little, count) && 0 < low <= count && Leaked(hs, little, count - 1, low, c)
    ensures Leaked(hs, little, count, low, StoreEmpty(hs, little, count, c))
  {
    var d := StoreEmpty(hs, little, count, c);
    forall n: nat | 1 <= n <= count
      ensures Lookup(d.blocksByHash, hs.block(n)) == Some(Block(little(n), n, 0, []))
    {
      if n < count {
        assert hs.block(n) != hs.block(count) && hs.block(n) != little(count);
      }
    }
  }

  lemma LeakedSize(hs: Hashes, little: nat -> Hash, count: nat, low: nat, c: Chain)
    requires Leaked(hs, little, count, low, c) && low <= count + 1
    ensures c.localBlock == count && |c.blocksByNumber| == count + 1 - low
  {
    IntervalSize(c.blocksByNumber, low, count);
  }

  lemma MineOne(hs: Hashes, little: nat -> Hash, count: nat, c: Chain)
    requires hs.Injective() && Apart(hs, little, count) && 0 < count <= U64_MAX && c.localBlock == count - 1
    requires Leaked(hs, little, count - 1, Oldest(count - 1), c)
    ensures Leaked(hs, little, count, Oldest(count), MineEmpty(hs, little, c))
  {
    hide Leaked, Prune, PopFirst, Apart, Hashes.Injective, StoreEmpty;
    var d := StoreEmpty(hs, little, count, c);
    var low := Oldest(count - 1);
    StoreLeaks(hs, little, count, low, c);
    LeakedSize(hs, little, count, low, d);
    PruneOne(d);
    if |d.blocksByNumber| > MAX_RETAINED_BLOCKS {
      PopLeaks(hs, little, count, low, d);
    }
  }

  lemma PopLeaks(hs: Hashes, little: nat -> Hash, count: nat, low: nat, d: Chain)
    requires Apart(hs, little, count) && Leaked(hs, little, count, low, d) && 1 <= low <= count
    requires d.blocksByNumber != map[]
    ensures Leaked(hs, little, count, low + 1, PopFirst(d))
  {
    hide FirstKey, Leaked, PopFirst;
    LeastIsLow(hs, little, count, low, d);
    PopEmpty(hs, little, count, low, d);
    LeakedWithout(hs, little, count, low, d, PopFirst(d));
  }

  lemma PopEmpty(hs: Hashes, little: nat -> Hash, count: nat, low: nat, d: Chain)
    requires d.blocksByNumber != map[] && FirstKey(d.blocksByNumber) == low
    requires Leaked(hs, little, count, low, d) && low in d.blocksByNumber
    ensures var c := PopFirst(d);
            && c.localBlock == d.localBlock && c.blocksByNumber == d.blocksByNumber - {low}
            && c.blocksByHash == d.blocksByHash - {little(low)}
  {
    hide FirstKey;
    assert d.blocksByNumber[low].hash == little(low);
  }

  lemma LeakedWithout(hs: Hashes, little: nat -> Hash, count: nat, low: nat, d: Chain, c: Chain)
    requires Apart(hs, little, count) && Leaked(hs, little, count, low, d) && 1 <= low <= count
    requires c.localBlock == d.localBlock && c.blocksByNumber == d.blocksByNumber - {low}
    requires c.blocksByHash == d.blocksByHash - {little(low)}
    ensures Leaked(hs, little, count, low + 1, c)
  {
    forall n: nat | 1 <= n <= count ensures Lookup(c.blocksByHash, hs.block(n)) == Some(Block(little(n), n, 0, [])) {
      assert hs.block(n) != little(low);
    }
  }

  lemma LeastIsLow(hs: Hashes, little: nat -> Hash, count: nat, low: nat, d: Chain)
    requires Leaked(hs, little, count, low, d) && 1 <= low <= count && d.blocksByNumber != map[]
    ensures low in d.blocksByNumber && FirstKey(d.blocksByNumber) == low
  {
    assert IsFirst(d.blocksByNumber, low);
    FirstUnique(d.blocksByNumber, low, FirstKey(d.blocksByNumber));
  }

  /**
   The no-revert restriction is needed: a snapshot revert moves the block number back, the next transaction
   takes over the number, and the transaction of the replaced block stays behind with no block listing it.
   */
  lemma RevertLeavesOrphan(hs: Hashes, a: Request, b: Request)
    requires hs.Injective() && a.value != b.value
    ensures var once := Finalize(hs, EMPTY, a);
            var again := Finalize(hs, once.(localBlock := 0), b);
            && TxHash(hs, EMPTY, a) in again.transactions
            && (forall n :: n in again.blocksByNumber ==> TxHash(hs, EMPTY, a) !in again.blocksByNumber[n].transactions)
            && !Agree(again)
  {
    hide Prune, PopFirst;
    var s := Build(hs, EMPTY, a);
    SmallStore(EMPTY, s);
    var once := Finalize(hs, EMPTY, a);
    var reverted := once.(localBlock := 0);
    var t := Build(hs, reverted, b);
    SmallStore(reverted, t);
    assert Finalize(hs, reverted, b).blocksByNumber == map[1 := t.block];
    assert TxHash(hs, EMPTY, a) != TxHash(hs, reverted, b);
  }

  /** With at most one block before it, a stored block is not pruned. */
  lemma SmallStore(c: Chain, s: Stored)
    requires forall n :: n in c.blocksByNumber ==> n == s.block.number
    ensures Prune(Store(c, s)) == Store(c, s) && Store(c, s).blocksByNumber == map[s.block.number := s.block]
  {
    hide Prune, PopFirst;
    var d := Store(c, s);
    assert d.blocksByNumber == map[s.block.number := s.block];
    assert |d.blocksByNumber| == 1;
    PruneOne(d);
  }
}
