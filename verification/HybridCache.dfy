/** What the read cache of apps/mirage-rs/src/fork.rs serves, and what eviction leaves of it. */
module HybridCache {
  import opened Prelude
  import opened ForkTypes
  import opened HybridDb
  import Lru

  // ---- Eviction ----

  /** The later is the earlier without its least recently used entries. */
  ghost predicate MostRecentOf<K(!new), V>(d: Lru.Cache<K, V>, c: Lru.Cache<K, V>) {
    && |d.order| <= |c.order| && d.order == c.order[|c.order| - |d.order|..]
    && d.capacity == c.capacity
    && forall k :: Lookup(d.entries, k) == if k in d.order then Lookup(c.entries, k) else None
  }

  lemma AllMostRecent<K(!new), V>(c: Lru.Cache<K, V>)
    requires c.Wf()
    ensures MostRecentOf(c, c)
  {
  }

  lemma PopMostRecent<K(!new), V>(d: Lru.Cache<K, V>, c: Lru.Cache<K, V>)
    requires c.Wf() && c.order != [] && MostRecentOf(d, Lru.PopLru(c))
    ensures MostRecentOf(d, c)
  {
    var p := Lru.PopLru(c);
    assert |d.order| <= |p.order| == |c.order| - 1;
    assert p.order[|p.order| - |d.order|..] == c.order[|c.order| - |d.order|..];
    forall k | k in d.order ensures Lookup(d.entries, k) == Lookup(c.entries, k) {
      assert k in p.order;
      FirstIsNotLater(c.order, k);
    }
  }

  lemma FirstIsNotLater<K(!new)>(order: seq<K>, k: K)
    requires Lru.Distinct(order) && order != [] && k in order[1..]
    ensures k != order[0]
  {
  }

  ghost predicate RecentlyUsedPart(d: CacheState, c: CacheState) {
    && MostRecentOf(d.accounts, c.accounts) && MostRecentOf(d.storage, c.storage) && MostRecentOf(d.hashes, c.hashes)
    && d.ttl == c.ttl
  }

  lemma {:induction false} EvictKeepsRecent(c: CacheState, target: nat)
    requires InStep(c)
    ensures RecentlyUsedPart(EvictTo(c, target), c)
    decreases EntryCount(c)
  {
    hide MostRecentOf, Lru.PopLru, Lru.Cache.Wf, EvictTo;
    if EntryCount(c) <= target {
      AllMostRecent(c.accounts);
      AllMostRecent(c.storage);
      AllMostRecent(c.hashes);
      NothingEvicted(c, target);
    } else {
      EvictStep(c, target);
      EvictKeepsRecent(Popped(c), target);
      if c.accounts.order != [] {
        PopMostRecent(EvictTo(c, target).accounts, c.accounts);
      } else if c.storage.order != [] {
        PopMostRecent(EvictTo(c, target).storage, c.storage);
      } else if c.hashes.order != [] {
        PopMostRecent(EvictTo(c, target).hashes, c.hashes);
      }
    }
  }

  lemma NothingEvicted(c: CacheState, target: nat)
    requires InStep(c) && EntryCount(c) <= target
    ensures EvictTo(c, target) == c
  {
  }

  /** Of `a`, `s` and `h` entries the target leaves `a'`, `s'` and `h'`. */
  predicate Shares(target: nat, a: nat, s: nat, h: nat, a': nat, s': nat, h': nat) {
    var n := Min(a + s + h, target);
    h' == Min(h, n) && s' == Min(s, n - h') && a' == n - h' - s'
  }

  lemma OneFewerShares(target: nat, a: nat, s: nat, h: nat, a': nat, s': nat, h': nat)
    requires a + s + h > target
    ensures a > 0 && Shares(target, a - 1, s, h, a', s', h') ==> Shares(target, a, s, h, a', s', h')
    ensures a == 0 && s > 0 && Shares(target, a, s - 1, h, a', s', h') ==> Shares(target, a, s, h, a', s', h')
    ensures a == 0 && s == 0 && Shares(target, a, s, h - 1, a', s', h') ==> Shares(target, a, s, h, a', s', h')
  {
  }

  ghost predicate Shared(d: CacheState, c: CacheState, target: nat) {
    Shares(target, |c.accounts.entries|, |c.storage.entries|, |c.hashes.entries|,
           |d.accounts.entries|, |d.storage.entries|, |d.hashes.entries|)
  }

  /** The cache one entry is taken from. */
  function Popped(c: CacheState): CacheState {
    if c.accounts.order != [] then c.(accounts := Lru.PopLru(c.accounts))
    else if c.storage.order != [] then c.(storage := Lru.PopLru(c.storage))
    else if c.hashes.order != [] then c.(hashes := Lru.PopLru(c.hashes))
    else c
  }

  lemma EvictStep(c: CacheState, target: nat)
    requires InStep(c) && EntryCount(c) > target
    ensures InStep(Popped(c)) && EntryCount(Popped(c)) == EntryCount(c) - 1
    ensures EvictTo(c, target) == EvictTo(Popped(c), target)
  {
    PopLruShrinks(c.accounts);
    PopLruShrinks(c.storage);
    PopLruShrinks(c.hashes);
    hide Lru.PopLru, Lru.Cache.Wf;
  }

  lemma PoppedShares(c: CacheState, d: CacheState, target: nat)
    requires InStep(c) && EntryCount(c) > target && Shared(d, Popped(c), target)
    ensures Shared(d, c, target)
  {
    PopLruShrinks(c.accounts);
    PopLruShrinks(c.storage);
    PopLruShrinks(c.hashes);
    OneFewerShares(target, |c.accounts.entries|, |c.storage.entries|, |c.hashes.entries|,
                   |d.accounts.entries|, |d.storage.entries|, |d.hashes.entries|);
    hide Lru.PopLru, Lru.Cache.Wf, Shares;
  }

  lemma {:induction false} EvictCounts(c: CacheState, target: nat)
    requires InStep(c)
    ensures Shared(EvictTo(c, target), c, target)
    decreases EntryCount(c)
  {
    if EntryCount(c) > target {
      hide Shared;
      EvictStep(c, target);
      EvictCounts(Popped(c), target);
      hide Popped, EntryCount, InStep, EvictTo;
      PoppedShares(c, EvictTo(c, target), target);
    }
  }

  /**
   Eviction leaves exactly the target, or all there was if that is less: block hashes are kept first, then storage, then
   accounts, and of each the most recently used.
   */
  lemma EvictIs(c: CacheState, target: nat)
    requires InStep(c)
    ensures var d, n := EvictTo(c, target), Min(EntryCount(c), target);
            && |d.hashes.entries| == Min(|c.hashes.entries|, n)
            && |d.storage.entries| == Min(|c.storage.entries|, n - |d.hashes.entries|)
            && |d.accounts.entries| == n - |d.hashes.entries| - |d.storage.entries|
            && RecentlyUsedPart(d, c)
  {
    hide EvictTo, RecentlyUsedPart, InStep;
    EvictCounts(c, target);
    EvictKeepsRecent(c, target);
  }

  // ---- Hits ----

  /** A new database asked twice: the first answer holds until the time to live is over; then upstream is asked. */
  lemma AccountIsServed(
    up: Upstream, capacity: nat, ttl: nat, m: Accounts, a: Address, info: AccountInfo, at: Time, later: Time)
    requires a !in m && up.account(at, a) == Ok(Some(info)) && at <= later
    ensures var db := Db(m, NewCache(capacity, ttl));
            Sound(db.cache)
            && Run(up, db, [Event(ReadAccount(a), at), Event(ReadAccount(a), later)])
               == [AccountAnswer(Ok(Some(info))),
                   AccountAnswer(if later - at < ttl then Ok(Some(info)) else up.account(later, a))]
  {
    var db := Db(m, NewCache(capacity, ttl));
    TwoSteps(up, db, Event(ReadAccount(a), at), Event(ReadAccount(a), later));
  }

  lemma SlotIsServed(
    up: Upstream, capacity: nat, ttl: nat, m: Accounts, a: Address, s: Word, word: Word, at: Time, later: Time)
    requires (a in m ==> s !in m[a].storage) && up.slot(at, a, s) == Ok(word) && at <= later
    ensures var db := Db(m, NewCache(capacity, ttl));
            Sound(db.cache)
            && Run(up, db, [Event(ReadSlot(a, s), at), Event(ReadSlot(a, s), later)])
               == [SlotAnswer(Ok(word)), SlotAnswer(if later - at < ttl then Ok(word) else up.slot(later, a, s))]
  {
    var db := Db(m, NewCache(capacity, ttl));
    TwoSteps(up, db, Event(ReadSlot(a, s), at), Event(ReadSlot(a, s), later));
  }

  /** A block hash has no time to live. */
  lemma HashIsServed(up: Upstream, capacity: nat, ttl: nat, m: Accounts, n: nat, hash: Hash, at: Time, later: Time)
    requires up.blockHash(at, n) == Ok(hash)
    ensures var db := Db(m, NewCache(capacity, ttl));
            Sound(db.cache)
            && Run(up, db, [Event(ReadHash(n), at), Event(ReadHash(n), later)])
               == [HashAnswer(Ok(hash)), HashAnswer(Ok(hash))]
  {
    var db := Db(m, NewCache(capacity, ttl));
    TwoSteps(up, db, Event(ReadHash(n), at), Event(ReadHash(n), later));
  }

  lemma TwoSteps(up: Upstream, db: Db, e: Event, e': Event)
    requires Sound(db.cache)
    ensures var (db1, first) := Step(up, db, e);
            Run(up, db, [e, e']) == [first, Step(up, db1, e').1]
  {
    hide Step;
    var (db1, first) := Step(up, db, e);
    var (db2, second) := Step(up, db1, e');
    assert [e, e'][1..] == [e'] && [e'][1..] == [];
    assert Run(up, db1, [e']) == [second] + Run(up, db2, []);
    assert Run(up, db, [e, e']) == [first] + Run(up, db1, [e']);
  }
}
