/**
 The three-tier database of apps/mirage-rs/src/fork.rs: dirty overrides, then a read cache with a time to
 live and least-recently-used eviction, then upstream.
 */
module HybridDb {
  import opened Prelude
  import opened ForkTypes
  import opened Dirty
  import Diffs
  import Lru

  /** A reading of the monotonic clock. */
  type Time = nat

  datatype AccountInfo = AccountInfo(balance: Word, nonce: nat, codeHash: Hash, code: Option<Code>)

  const DEFAULT_INFO := AccountInfo(0, 0, 0, None)

  type Fetch<T> = Result<T, string>

  /** What upstream answers at each moment, at the block the database reads from. */
  datatype Upstream = Upstream(
    account: (Time, Address) -> Fetch<Option<AccountInfo>>,
    slot: (Time, Address, Word) -> Fetch<Word>,
    blockHash: (Time, nat) -> Fetch<Hash>)

  datatype Timed<T> = Timed(value: T, fetchedAt: Time)

  datatype CacheState = CacheState(
    accounts: Lru.Cache<Address, Timed<AccountInfo>>,
    storage: Lru.Cache<(Address, Word), Timed<Word>>,
    hashes: Lru.Cache<nat, Hash>,
    ttl: nat)

  function NewCache(capacity: nat, ttl: nat): CacheState {
    var c := Max(capacity, 1);
    CacheState(Lru.New(c), Lru.New(c), Lru.New(c), ttl)
  }

  /** `(now - cached_at) < cache_ttl`; an age is never negative. */
  predicate Fresh(ttl: nat, fetchedAt: Time, now: Time) { (if fetchedAt <= now then now - fetchedAt else 0) < ttl }

  /** A hit promotes the entry; an expired entry is dropped. */
  function GetTimed<K(==,!new), V>(c: Lru.Cache<K, Timed<V>>, ttl: nat, k: K, now: Time)
    : (Lru.Cache<K, Timed<V>>, Option<V>)
  {
    var (c', e) := Lru.Get(c, k);
    if e.None? then (c', None)
    else if Fresh(ttl, e.value.fetchedAt, now) then (c', Some(e.value.value))
    else (Lru.Pop(c', k), None)
  }

  function EntryCount(c: CacheState): nat { |c.accounts.entries| + |c.storage.entries| + |c.hashes.entries| }

  /** In each of the three caches the order holds exactly the keys of the map. */
  ghost predicate InStep(c: CacheState) { c.accounts.Wf() && c.storage.Wf() && c.hashes.Wf() }

  lemma PopLruShrinks<K(!new), V>(c: Lru.Cache<K, V>)
    requires c.Wf()
    ensures c.order == [] ==> c.entries == map[]
    ensures c.order != [] ==> Lru.PopLru(c).Wf() && |Lru.PopLru(c).entries| == |c.entries| - 1
  {
    if c.order != [] {
      var k := c.order[0];
      assert k in c.order;
      Lru.PopLruWf(c);
      hide Lru.Cache.Wf;
      OneFewer(c.entries, k);
    } else {
      assert forall k :: k in c.entries ==> k in c.order;
    }
  }

  lemma OneFewer<K, V>(m: map<K, V>, k: K)
    requires k in m
    ensures |m - {k}| == |m| - 1
  {
    assert m == (m - {k})[k := m[k]];
  }

  /** Accounts go first, then storage, then block hashes. */
  function EvictTo(c: CacheState, target: nat): CacheState
    requires InStep(c)
    decreases EntryCount(c)
  {
    PopLruShrinks(c.accounts);
    PopLruShrinks(c.storage);
    PopLruShrinks(c.hashes);
    if EntryCount(c) <= target then c
    else if c.accounts.order != [] then EvictTo(c.(accounts := Lru.PopLru(c.accounts)), target)
    else if c.storage.order != [] then EvictTo(c.(storage := Lru.PopLru(c.storage)), target)
    else EvictTo(c.(hashes := Lru.PopLru(c.hashes)), target)
  }

  // ---- Reads ----

  function Merge(d: DirtyAccount, base: AccountInfo): AccountInfo {
    AccountInfo(if d.balance.Some? then d.balance.value else base.balance,
                if d.nonce.Some? then d.nonce.value else base.nonce,
                if d.codeHash.Some? then d.codeHash.value else base.codeHash,
                OrElse(d.code, base.code))
  }

  /** An account some of whose overrides are missing is completed from upstream, past the cache. */
  function DirtyBasic(up: Upstream, d: DirtyAccount, a: Address, now: Time): Fetch<Option<AccountInfo>> {
    if d.balance.Some? && d.nonce.Some? && d.code.Some? then Ok(Some(Merge(d, DEFAULT_INFO))) else
    var fetched := up.account(now, a);
    if fetched.Err? then Err(fetched.error)
    else Ok(Some(Merge(d, if fetched.value.Some? then fetched.value.value else DEFAULT_INFO)))
  }

  function Basic(up: Upstream, m: Accounts, c: CacheState, a: Address, now: Time)
    : (CacheState, Fetch<Option<AccountInfo>>)
  {
    if a in m then (c, DirtyBasic(up, m[a], a, now)) else
    var (accounts, hit) := GetTimed(c.accounts, c.ttl, a, now);
    if hit.Some? then (c.(accounts := accounts), Ok(Some(hit.value))) else
    var r := up.account(now, a);
    (c.(accounts := if r.Ok? && r.value.Some? then Lru.Put(accounts, a, Timed(r.value.value, now)) else accounts), r)
  }

  function Storage(up: Upstream, m: Accounts, c: CacheState, a: Address, s: Word, now: Time)
    : (CacheState, Fetch<Word>) {
    if a in m && s in m[a].storage then (c, Ok(m[a].storage[s])) else
    var (storage, hit) := GetTimed(c.storage, c.ttl, (a, s), now);
    if hit.Some? then (c.(storage := storage), Ok(hit.value)) else
    var r := up.slot(now, a, s);
    (c.(storage := if r.Ok? then Lru.Put(storage, (a, s), Timed(r.value, now)) else storage), r)
  }

  function BlockHash(up: Upstream, c: CacheState, n: nat, now: Time): (CacheState, Fetch<Hash>) {
    var (hashes, hit) := Lru.Get(c.hashes, n);
    if hit.Some? then (c.(hashes := hashes), Ok(hit.value)) else
    var r := up.blockHash(now, n);
    (c.(hashes := if r.Ok? then Lru.Put(hashes, n, r.value) else hashes), r)
  }

  /** Reading past the cache, as on a clone of the fork, whose cache is empty. */
  function UncachedAccount(up: Upstream, m: Accounts, a: Address, now: Time): Fetch<Option<AccountInfo>> {
    if a in m then DirtyBasic(up, m[a], a, now) else up.account(now, a)
  }

  function UncachedSlot(up: Upstream, m: Accounts, a: Address, s: Word, now: Time): Fetch<Word> {
    if a in m && s in m[a].storage then Ok(m[a].storage[s]) else up.slot(now, a, s)
  }

  /** `mirage_prefetchAccount`: the account, overrides included, goes into the cache. */
  function PrefetchAccount(up: Upstream, m: Accounts, c: CacheState, a: Address, now: Time): CacheState {
    var r := UncachedAccount(up, m, a, now);
    if r.Ok? && r.value.Some? then c.(accounts := Lru.Put(c.accounts, a, Timed(r.value.value, now))) else c
  }

  /** `mirage_prefetchSlots`, for one slot. */
  function PrefetchSlot(up: Upstream, m: Accounts, c: CacheState, a: Address, s: Word, now: Time): CacheState {
    var r := UncachedSlot(up, m, a, s, now);
    if r.Ok? then c.(storage := Lru.Put(c.storage, (a, s), Timed(r.value, now))) else c
  }

  class HybridDB {
    const up: Upstream
    const dirty: DirtyStore
    var readCache: CacheState

    constructor (up: Upstream, dirty: DirtyStore, capacity: nat, ttl: nat)
      ensures readCache == NewCache(capacity, ttl) && this.dirty == dirty && this.up == up
    {
      this.up := up;
      this.dirty := dirty;
      readCache := NewCache(capacity, ttl);
    }

    method GetAccount(a: Address, now: Time) returns (r: Option<AccountInfo>)
      modifies this
      ensures (readCache, r) == var g := GetTimed(old(readCache).accounts, old(readCache).ttl, a, now);
                                (old(readCache).(accounts := g.0), g.1)
    {
      var (accounts, e) := Lru.Get(readCache.accounts, a);
      readCache := readCache.(accounts := accounts);
      if e.None? {
        return None;
      }
      if Fresh(readCache.ttl, e.value.fetchedAt, now) {
        return Some(e.value.value);
      }
      readCache := readCache.(accounts := Lru.Pop(readCache.accounts, a));
      return None;
    }

    method GetStorage(a: Address, s: Word, now: Time) returns (r: Option<Word>)
      modifies this
      ensures (readCache, r) == var g := GetTimed(old(readCache).storage, old(readCache).ttl, (a, s), now);
                                (old(readCache).(storage := g.0), g.1)
    {
      var (storage, e) := Lru.Get(readCache.storage, (a, s));
      readCache := readCache.(storage := storage);
      if e.None? {
        return None;
      }
      if Fresh(readCache.ttl, e.value.fetchedAt, now) {
        return Some(e.value.value);
      }
      readCache := readCache.(storage := Lru.Pop(readCache.storage, (a, s)));
      return None;
    }

    method ReadBasic(a: Address, now: Time) returns (r: Fetch<Option<AccountInfo>>)
      modifies this
      ensures (readCache, r) == Basic(up, dirty.accounts, old(readCache), a, now)
    {
      if a in dirty.accounts {
        var d := dirty.accounts[a];
        var needsUpstream := d.balance.None? || d.nonce.None? || d.code.None?;
        var base := DEFAULT_INFO;
        if needsUpstream {
          var fetched := up.account(now, a);
          if fetched.Err? {
            return Err(fetched.error);
          }
          if fetched.value.Some? {
            base := fetched.value.value;
          }
        }
        return Ok(Some(Merge(d, base)));
      }
      var hit := GetAccount(a, now);
      if hit.Some? {
        return Ok(hit);
      }
      r := up.account(now, a);
      if r.Ok? && r.value.Some? {
        readCache := readCache.(accounts := Lru.Put(readCache.accounts, a, Timed(r.value.value, now)));
      }
    }

    method ReadStorage(a: Address, s: Word, now: Time) returns (r: Fetch<Word>)
      modifies this
      ensures (readCache, r) == Storage(up, dirty.accounts, old(readCache), a, s, now)
    {
      if a in dirty.accounts {
        if s in dirty.accounts[a].storage {
          return Ok(dirty.accounts[a].storage[s]);
        }
      }
      var hit := GetStorage(a, s, now);
      if hit.Some? {
        return Ok(hit.value);
      }
      r := up.slot(now, a, s);
      if r.Ok? {
        readCache := readCache.(storage := Lru.Put(readCache.storage, (a, s), Timed(r.value, now)));
      }
    }

    method EvictReadCacheTo(target: nat)
      requires InStep(readCache)
      modifies this
      ensures InStep(readCache) && readCache == EvictTo(old(readCache), target) && EntryCount(readCache) <= target
    {
      while EntryCount(readCache) > target
        invariant InStep(readCache) && EvictTo(readCache, target) == EvictTo(old(readCache), target)
        decreases EntryCount(readCache)
      {
        PopLruShrinks(readCache.accounts);
        PopLruShrinks(readCache.storage);
        PopLruShrinks(readCache.hashes);
        if readCache.accounts.order != [] {
          readCache := readCache.(accounts := Lru.PopLru(readCache.accounts));
          continue;
        }
        if readCache.storage.order != [] {
          readCache := readCache.(storage := Lru.PopLru(readCache.storage));
          continue;
        }
        readCache := readCache.(hashes := Lru.PopLru(readCache.hashes));
      }
    }
  }

  // ---- What a cached value may be ----

  /** Every entry is what upstream answered at the time it was fetched. */
  ghost predicate Faithful(up: Upstream, c: CacheState, clock: Time) {
    && (forall a | a in c.accounts.entries :: var e := c.accounts.entries[a];
          e.fetchedAt <= clock && up.account(e.fetchedAt, a) == Ok(Some(e.value)))
    && (forall a, s | (a, s) in c.storage.entries :: var e := c.storage.entries[(a, s)];
          e.fetchedAt <= clock && up.slot(e.fetchedAt, a, s) == Ok(e.value))
    && (forall n | n in c.hashes.entries ::
          exists t: Time :: t <= clock && up.blockHash(t, n) == Ok(c.hashes.entries[n]))
  }

  /** Entries only ever leave a cache, except by a put. */
  lemma GetTimedShrinks<K(!new), V>(c: Lru.Cache<K, Timed<V>>, ttl: nat, k: K, now: Time)
    ensures forall x :: x in GetTimed(c, ttl, k, now).0.entries ==>
              x in c.entries && GetTimed(c, ttl, k, now).0.entries[x] == c.entries[x]
    ensures var hit := GetTimed(c, ttl, k, now).1;
            hit.Some? ==> k in c.entries && Fresh(ttl, c.entries[k].fetchedAt, now) && hit.value == c.entries[k].value
  {
  }

  lemma PutAddsOne<K(!new), V>(c: Lru.Cache<K, V>, k: K, v: V)
    ensures forall x | x in Lru.Put(c, k, v).entries ::
              if x == k && c.capacity > 0 then Lru.Put(c, k, v).entries[x] == v
              else x in c.entries && Lru.Put(c, k, v).entries[x] == c.entries[x]
  {
  }

  lemma {:induction false} EvictShrinks(up: Upstream, c: CacheState, clock: Time, target: nat)
    requires Faithful(up, c, clock) && InStep(c)
    ensures Faithful(up, EvictTo(c, target), clock) && InStep(EvictTo(c, target))
    ensures EntryCount(EvictTo(c, target)) <= target
    ensures EvictTo(c, target).ttl == c.ttl
    decreases EntryCount(c)
  {
    if EntryCount(c) > target {
      PopLruShrinks(c.accounts);
      PopLruShrinks(c.storage);
      PopLruShrinks(c.hashes);
      PopKeepsFaithful(up, c, clock);
      hide Faithful, Lru.PopLru;
      if c.accounts.order != [] {
        EvictShrinks(up, c.(accounts := Lru.PopLru(c.accounts)), clock, target);
      } else if c.storage.order != [] {
        EvictShrinks(up, c.(storage := Lru.PopLru(c.storage)), clock, target);
      } else {
        EvictShrinks(up, c.(hashes := Lru.PopLru(c.hashes)), clock, target);
      }
    }
  }

  lemma PopKeepsFaithful(up: Upstream, c: CacheState, clock: Time)
    requires Faithful(up, c, clock)
    ensures c.accounts.order != [] ==> Faithful(up, c.(accounts := Lru.PopLru(c.accounts)), clock)
    ensures c.storage.order != [] ==> Faithful(up, c.(storage := Lru.PopLru(c.storage)), clock)
    ensures c.hashes.order != [] ==> Faithful(up, c.(hashes := Lru.PopLru(c.hashes)), clock)
  {
  }

  lemma GetTimedWf<K(!new), V>(c: Lru.Cache<K, Timed<V>>, ttl: nat, k: K, now: Time)
    requires c.Wf()
    ensures GetTimed(c, ttl, k, now).0.Wf()
  {
    Lru.GetWf(c, k);
    Lru.PopWf(Lru.Get(c, k).0, k);
  }

  lemma BasicStaysInStep(up: Upstream, m: Accounts, c: CacheState, a: Address, now: Time)
    requires InStep(c)
    ensures InStep(Basic(up, m, c, a, now).0)
  {
    GetTimedWf(c.accounts, c.ttl, a, now);
    var accounts, r := GetTimed(c.accounts, c.ttl, a, now).0, up.account(now, a);
    if r.Ok? && r.value.Some? {
      Lru.PutWf(accounts, a, Timed(r.value.value, now));
    }
    hide GetTimed, Lru.Put;
  }

  lemma StorageStaysInStep(up: Upstream, m: Accounts, c: CacheState, a: Address, s: Word, now: Time)
    requires InStep(c)
    ensures InStep(Storage(up, m, c, a, s, now).0)
  {
    GetTimedWf(c.storage, c.ttl, (a, s), now);
    var storage, r := GetTimed(c.storage, c.ttl, (a, s), now).0, up.slot(now, a, s);
    if r.Ok? {
      Lru.PutWf(storage, (a, s), Timed(r.value, now));
    }
    hide GetTimed, Lru.Put;
  }

  lemma BlockHashStaysInStep(up: Upstream, c: CacheState, n: nat, now: Time)
    requires InStep(c)
    ensures InStep(BlockHash(up, c, n, now).0)
  {
    Lru.GetWf(c.hashes, n);
    var r := up.blockHash(now, n);
    if r.Ok? {
      Lru.PutWf(Lru.Get(c.hashes, n).0, n, r.value);
    }
    hide Lru.Get, Lru.Put;
  }

  /** An account answer for an address with no override: upstream now, or upstream less than a ttl ago. */
  ghost predicate RecentAccount(up: Upstream, ttl: nat, a: Address, now: Time, r: Fetch<Option<AccountInfo>>) {
    r == up.account(now, a)
    || exists t: Time :: t <= now && now - t < ttl && r == up.account(t, a) && r.Ok? && r.value.Some?
  }

  ghost predicate RecentSlot(up: Upstream, ttl: nat, a: Address, s: Word, now: Time, r: Fetch<Word>) {
    r == up.slot(now, a, s) || exists t: Time :: t <= now && now - t < ttl && r == up.slot(t, a, s) && r.Ok?
  }

  /**
   The answer for an account with overrides: field by field the override where there is one, and otherwise what
   upstream holds now. Upstream is asked only if balance, nonce or code is missing, so an account that overrides
   these three but not the code hash shows the default hash.
   */
  ghost predicate Overridden(up: Upstream, d: DirtyAccount, a: Address, now: Time, r: Fetch<Option<AccountInfo>>) {
    var u := up.account(now, a);
    var asked := d.balance.None? || d.nonce.None? || d.code.None?;
    if asked && u.Err? then r == Err(u.error) else
    r.Ok? && r.value.Some? && var i := r.value.value;
    && (d.balance.Some? ==> i.balance == d.balance.value)
    && (d.nonce.Some? ==> i.nonce == d.nonce.value)
    && (d.code.Some? ==> i.code == d.code)
    && (d.codeHash.Some? ==> i.codeHash == d.codeHash.value)
    && (u.Ok? && asked ==> var now_ := if u.value.Some? then u.value.value else DEFAULT_INFO;
          && (d.balance.None? ==> i.balance == now_.balance)
          && (d.nonce.None? ==> i.nonce == now_.nonce)
          && (d.code.None? ==> i.code == now_.code)
          && (d.codeHash.None? ==> i.codeHash == now_.codeHash))
    && (!asked && d.codeHash.None? ==> i.codeHash == DEFAULT_INFO.codeHash)
  }

  /** These clauses leave no choice. */
  lemma OverriddenIsUnique(up: Upstream, d: DirtyAccount, a: Address, now: Time,
                           r: Fetch<Option<AccountInfo>>, q: Fetch<Option<AccountInfo>>)
    requires Overridden(up, d, a, now, r) && Overridden(up, d, a, now, q)
    ensures r == q
  {
  }

  /** In a reachable layer a fully overridden account shows the hash of its own code, never the default one. */
  lemma FullyOverridden(up: Upstream, hash: Code -> Hash, ops: seq<Diffs.LayerOp>, c: CacheState, a: Address, now: Time)
    requires var m := Diffs.LayerAfter(hash, ops);
             a in m && m[a].balance.Some? && m[a].nonce.Some? && m[a].code.Some?
    ensures var m := Diffs.LayerAfter(hash, ops);
            Basic(up, m, c, a, now).1
            == Ok(Some(AccountInfo(m[a].balance.value, m[a].nonce.value, hash(m[a].code.value), m[a].code)))
  {
    Diffs.LayersFollowCode(hash, ops);
  }

  lemma BasicIsRecent(up: Upstream, m: Accounts, c: CacheState, a: Address, clock: Time, now: Time)
    requires Faithful(up, c, clock) && clock <= now
    ensures var (c', r) := Basic(up, m, c, a, now);
            && Faithful(up, c', now) && c'.ttl == c.ttl
            && (if a in m then Overridden(up, m[a], a, now, r) else RecentAccount(up, c.ttl, a, now, r))
  {
    if a !in m {
      GetTimedShrinks(c.accounts, c.ttl, a, now);
      var (accounts, hit) := GetTimed(c.accounts, c.ttl, a, now);
      var r := up.account(now, a);
      if hit.None? && r.Ok? && r.value.Some? {
        PutAddsOne(accounts, a, Timed(r.value.value, now));
      }
    }
  }

  lemma StorageIsRecent(up: Upstream, m: Accounts, c: CacheState, a: Address, s: Word, clock: Time, now: Time)
    requires Faithful(up, c, clock) && clock <= now
    ensures var (c', r) := Storage(up, m, c, a, s, now);
            && Faithful(up, c', now) && c'.ttl == c.ttl
            && (if a in m && s in m[a].storage then r == Ok(m[a].storage[s]) else RecentSlot(up, c.ttl, a, s, now, r))
  {
    if !(a in m && s in m[a].storage) {
      GetTimedShrinks(c.storage, c.ttl, (a, s), now);
      var (storage, hit) := GetTimed(c.storage, c.ttl, (a, s), now);
      var r := up.slot(now, a, s);
      if hit.None? && r.Ok? {
        PutAddsOne(storage, (a, s), Timed(r.value, now));
      }
    }
  }

  lemma BlockHashKeepsFaithful(up: Upstream, c: CacheState, n: nat, clock: Time, now: Time)
    requires Faithful(up, c, clock) && clock <= now
    ensures var (c', r) := BlockHash(up, c, n, now);
            && Faithful(up, c', now) && c'.ttl == c.ttl
            && (exists t: Time :: t <= now && r == up.blockHash(t, n))
  {
    var (hashes, hit) := Lru.Get(c.hashes, n);
    var r := up.blockHash(now, n);
    if hit.None? && r.Ok? {
      PutAddsOne(hashes, n, r.value);
    }
  }

  // ---- Prefetching ----

  /** What is prefetched is what upstream holds: no override is in force, or those that are change nothing. */
  ghost predicate HarmlessAccount(up: Upstream, m: Accounts, a: Address, now: Time) {
    a !in m || DirtyBasic(up, m[a], a, now).Err? || DirtyBasic(up, m[a], a, now) == up.account(now, a)
  }

  ghost predicate HarmlessSlot(up: Upstream, m: Accounts, a: Address, s: Word, now: Time) {
    a !in m || s !in m[a].storage || Ok(m[a].storage[s]) == up.slot(now, a, s)
  }

  /** A prefetched account keeps the cache faithful exactly when the overrides in force agree with upstream. */
  lemma PrefetchAccountFaithfulIff(up: Upstream, m: Accounts, c: CacheState, a: Address, clock: Time, now: Time)
    requires Faithful(up, c, clock) && clock <= now && c.accounts.capacity > 0
    ensures Faithful(up, PrefetchAccount(up, m, c, a, now), now) <==> HarmlessAccount(up, m, a, now)
  {
    var r := UncachedAccount(up, m, a, now);
    if r.Ok? && r.value.Some? {
      PutAddsOne(c.accounts, a, Timed(r.value.value, now));
      assert a in Lru.Put(c.accounts, a, Timed(r.value.value, now)).entries;
      hide Lru.Put;
    }
  }

  lemma PrefetchSlotFaithfulIff(up: Upstream, m: Accounts, c: CacheState, a: Address, s: Word, clock: Time, now: Time)
    requires Faithful(up, c, clock) && clock <= now && c.storage.capacity > 0
    ensures Faithful(up, PrefetchSlot(up, m, c, a, s, now), now) <==> HarmlessSlot(up, m, a, s, now)
  {
    var r := UncachedSlot(up, m, a, s, now);
    if r.Ok? {
      PutAddsOne(c.storage, (a, s), Timed(r.value, now));
      assert (a, s) in Lru.Put(c.storage, (a, s), Timed(r.value, now)).entries;
      hide Lru.Put;
    }
  }

  lemma PrefetchStaysInStep(up: Upstream, m: Accounts, c: CacheState, a: Address, s: Word, now: Time)
    requires InStep(c)
    ensures InStep(PrefetchAccount(up, m, c, a, now)) && InStep(PrefetchSlot(up, m, c, a, s, now))
  {
    var r, q := UncachedAccount(up, m, a, now), UncachedSlot(up, m, a, s, now);
    if r.Ok? && r.value.Some? {
      Lru.PutWf(c.accounts, a, Timed(r.value.value, now));
    }
    if q.Ok? {
      Lru.PutWf(c.storage, (a, s), Timed(q.value, now));
    }
    hide Lru.Put, UncachedAccount, UncachedSlot;
  }

  // ---- Whole runs ----

  /** `Write` replaces the dirty layer by anything at all: writes, commits, diffs, reverts. */
  datatype Op =
    | ReadAccount(a: Address)
    | ReadSlot(a: Address, s: Word)
    | ReadHash(n: nat)
    | FetchAccount(a: Address)
    | FetchSlot(a: Address, s: Word)
    | Write(accounts: Accounts)
    | Evict(target: nat)
    | Reset

  datatype Answer = AccountAnswer(info: Fetch<Option<AccountInfo>>) | SlotAnswer(word: Fetch<Word>)
                  | HashAnswer(hash: Fetch<Hash>) | Silent

  datatype Event = Event(op: Op, now: Time)

  datatype Db = Db(accounts: Accounts, cache: CacheState)

  /** Every cache has room for at least one entry. */
  ghost predicate Sound(c: CacheState) {
    InStep(c) && c.accounts.capacity > 0 && c.storage.capacity > 0
  }

  function Step(up: Upstream, db: Db, e: Event): (r: (Db, Answer))
    requires Sound(db.cache)
    ensures Sound(r.0.cache)
  {
    StepStaysSound(up, db, e);
    match e.op
    case ReadAccount(a) => var (c, r) := Basic(up, db.accounts, db.cache, a, e.now); (db.(cache := c), AccountAnswer(r))
    case ReadSlot(a, s) =>
      var (c, r) := Storage(up, db.accounts, db.cache, a, s, e.now); (db.(cache := c), SlotAnswer(r))
    case ReadHash(n) => var (c, r) := BlockHash(up, db.cache, n, e.now); (db.(cache := c), HashAnswer(r))
    case FetchAccount(a) => (db.(cache := PrefetchAccount(up, db.accounts, db.cache, a, e.now)), Silent)
    case FetchSlot(a, s) => (db.(cache := PrefetchSlot(up, db.accounts, db.cache, a, s, e.now)), Silent)
    case Write(accounts) => (db.(accounts := accounts), Silent)
    case Evict(target) => (db.(cache := EvictTo(db.cache, target)), Silent)
    case Reset => (Db(map[], NewCache(db.cache.accounts.capacity, db.cache.ttl)), Silent)
  }

  lemma StepStaysSound(up: Upstream, db: Db, e: Event)
    requires Sound(db.cache)
    ensures match e.op
            case ReadAccount(a) => Sound(Basic(up, db.accounts, db.cache, a, e.now).0)
            case ReadSlot(a, s) => Sound(Storage(up, db.accounts, db.cache, a, s, e.now).0)
            case ReadHash(n) => Sound(BlockHash(up, db.cache, n, e.now).0)
            case FetchAccount(a) => Sound(PrefetchAccount(up, db.accounts, db.cache, a, e.now))
            case FetchSlot(a, s) => Sound(PrefetchSlot(up, db.accounts, db.cache, a, s, e.now))
            case Evict(target) => Sound(EvictTo(db.cache, target))
            case _ => true
  {
    match e.op
    case ReadAccount(a) => BasicStaysInStep(up, db.accounts, db.cache, a, e.now);
    case ReadSlot(a, s) => StorageStaysInStep(up, db.accounts, db.cache, a, s, e.now);
    case ReadHash(n) => BlockHashStaysInStep(up, db.cache, n, e.now);
    case FetchAccount(a) => PrefetchStaysInStep(up, db.accounts, db.cache, a, 0, e.now);
    case FetchSlot(a, s) => PrefetchStaysInStep(up, db.accounts, db.cache, a, s, e.now);
    case Evict(target) => EvictStaysSound(db.cache, target);
    case _ =>
  }

  lemma {:induction false} EvictStaysSound(c: CacheState, target: nat)
    requires Sound(c)
    ensures Sound(EvictTo(c, target))
    decreases EntryCount(c)
  {
    PopLruShrinks(c.accounts);
    PopLruShrinks(c.storage);
    PopLruShrinks(c.hashes);
    if EntryCount(c) > target {
      if c.accounts.order != [] {
        EvictStaysSound(c.(accounts := Lru.PopLru(c.accounts)), target);
      } else if c.storage.order != [] {
        EvictStaysSound(c.(storage := Lru.PopLru(c.storage)), target);
      } else {
        EvictStaysSound(c.(hashes := Lru.PopLru(c.hashes)), target);
      }
    }
  }

  /** The same database with no cache between the overrides and upstream. */
  function DirectStep(up: Upstream, m: Accounts, e: Event): (Accounts, Answer) {
    match e.op
    case ReadAccount(a) => (m, AccountAnswer(UncachedAccount(up, m, a, e.now)))
    case ReadSlot(a, s) => (m, SlotAnswer(UncachedSlot(up, m, a, s, e.now)))
    case FetchAccount(_) => (m, Silent)
    case FetchSlot(_, _) => (m, Silent)
    case ReadHash(n) => (m, HashAnswer(up.blockHash(e.now, n)))
    case Write(accounts) => (accounts, Silent)
    case Evict(_) => (m, Silent)
    case Reset => (map[], Silent)
  }

  function Run(up: Upstream, db: Db, events: seq<Event>): seq<Answer>
    requires Sound(db.cache)
    decreases |events|
  {
    if events == [] then [] else
    var (db', answer) := Step(up, db, events[0]);
    [answer] + Run(up, db', events[1..])
  }

  function DirectRun(up: Upstream, m: Accounts, events: seq<Event>): seq<Answer>
    decreases |events|
  {
    if events == [] then [] else
    var (m', answer) := DirectStep(up, m, events[0]);
    [answer] + DirectRun(up, m', events[1..])
  }

  predicate InTime(events: seq<Event>, from: Time) {
    events == [] || (from <= events[0].now && InTime(events[1..], events[0].now))
  }

  /** Right answers: overrides where present, otherwise recent upstream values. */
  ghost predicate Acceptable(up: Upstream, ttl: nat, m: Accounts, e: Event, answer: Answer) {
    match e.op
    case ReadAccount(a) => answer.AccountAnswer? &&
      if a in m then Overridden(up, m[a], a, e.now, answer.info) else RecentAccount(up, ttl, a, e.now, answer.info)
    case ReadSlot(a, s) => answer.SlotAnswer? &&
      if a in m && s in m[a].storage then answer.word == Ok(m[a].storage[s])
      else RecentSlot(up, ttl, a, s, e.now, answer.word)
    case _ => true
  }

  /** Prefetches happen only where the overrides in force agree with upstream. */
  ghost predicate Harmless(up: Upstream, m: Accounts, e: Event) {
    && (e.op.FetchAccount? ==> HarmlessAccount(up, m, e.op.a, e.now))
    && (e.op.FetchSlot? ==> HarmlessSlot(up, m, e.op.a, e.op.s, e.now))
  }

  ghost predicate AllHarmless(up: Upstream, m: Accounts, events: seq<Event>)
    decreases |events|
  {
    events == [] || (Harmless(up, m, events[0]) && AllHarmless(up, DirectStep(up, m, events[0]).0, events[1..]))
  }

  lemma StepIsAcceptable(up: Upstream, db: Db, e: Event, clock: Time)
    requires Sound(db.cache) && Faithful(up, db.cache, clock) && clock <= e.now && Harmless(up, db.accounts, e)
    ensures var (db', answer) := Step(up, db, e);
            && Faithful(up, db'.cache, e.now) && db'.cache.ttl == db.cache.ttl
            && db'.accounts == DirectStep(up, db.accounts, e).0
            && Acceptable(up, db.cache.ttl, db.accounts, e, answer)
            && (e.op.ReadHash? ==>
               answer.HashAnswer? && exists t: Time :: t <= e.now && answer.hash == up.blockHash(t, e.op.n))
  {
    match e.op
    case ReadAccount(a) => BasicIsRecent(up, db.accounts, db.cache, a, clock, e.now);
    case ReadSlot(a, s) => StorageIsRecent(up, db.accounts, db.cache, a, s, clock, e.now);
    case ReadHash(n) => BlockHashKeepsFaithful(up, db.cache, n, clock, e.now);
    case FetchAccount(a) => PrefetchAccountFaithfulIff(up, db.accounts, db.cache, a, clock, e.now);
    case FetchSlot(a, s) => PrefetchSlotFaithfulIff(up, db.accounts, db.cache, a, s, clock, e.now);
    case Write(_) =>
    case Evict(target) => EvictShrinks(up, db.cache, e.now, target);
    case Reset =>
  }

  ghost predicate AllAcceptable(up: Upstream, ttl: nat, m: Accounts, events: seq<Event>, answers: seq<Answer>)
    requires |answers| == |events|
    decreases |events|
  {
    events == [] || (Acceptable(up, ttl, m, events[0], answers[0])
                     && AllAcceptable(up, ttl, DirectStep(up, m, events[0]).0, events[1..], answers[1..]))
  }

  /**
   For any upstream history and any interleaving of reads, writes, harmless prefetches, expiry and eviction, every
   read returns the override in force, or else a value upstream had less than a ttl ago.
   */
  lemma {:induction false} ReadsAreRecent(up: Upstream, db: Db, events: seq<Event>, clock: Time)
    requires Sound(db.cache) && Faithful(up, db.cache, clock) && InTime(events, clock)
    requires AllHarmless(up, db.accounts, events)
    ensures |Run(up, db, events)| == |events|
    ensures AllAcceptable(up, db.cache.ttl, db.accounts, events, Run(up, db, events))
    decreases |events|
  {
    if events != [] {
      StepIsAcceptable(up, db, events[0], clock);
      ReadsAreRecent(up, Step(up, db, events[0]).0, events[1..], events[0].now);
    }
  }

  ghost predicate Constant(up: Upstream) {
    && (forall t: Time, t': Time, a :: up.account(t, a) == up.account(t', a))
    && (forall t: Time, t': Time, a, s :: up.slot(t, a, s) == up.slot(t', a, s))
    && (forall t: Time, t': Time, n :: up.blockHash(t, n) == up.blockHash(t', n))
  }

  /** With a fixed upstream the cache is invisible: the answers are those of the database without it. */
  lemma {:induction false} CacheIsInvisible(up: Upstream, db: Db, events: seq<Event>, clock: Time)
    requires Constant(up) && Sound(db.cache) && Faithful(up, db.cache, clock) && InTime(events, clock)
    requires AllHarmless(up, db.accounts, events)
    ensures Run(up, db, events) == DirectRun(up, db.accounts, events)
    decreases |events|
  {
    if events != [] {
      StepIsAcceptable(up, db, events[0], clock);
      assert Step(up, db, events[0]).1 == DirectStep(up, db.accounts, events[0]).1;
      CacheIsInvisible(up, Step(up, db, events[0]).0, events[1..], events[0].now);
    }
  }

  /** A new database starts faithful, so both results hold from the beginning of its life. */
  lemma NewCacheIsFaithful(up: Upstream, capacity: nat, ttl: nat, clock: Time)
    ensures Faithful(up, NewCache(capacity, ttl), clock) && Sound(NewCache(capacity, ttl))
  {
  }

  /** So they do: every answer of a new database is acceptable, over any run of harmless prefetches and the rest. */
  lemma NewDatabaseReadsAreRecent(up: Upstream, capacity: nat, ttl: nat, m: Accounts, events: seq<Event>, clock: Time)
    requires InTime(events, clock) && AllHarmless(up, m, events)
    ensures var answers := Run(up, Db(m, NewCache(capacity, ttl)), events);
            |answers| == |events| && AllAcceptable(up, ttl, m, events, answers)
  {
    hide Run, AllAcceptable, AllHarmless, InTime, Faithful, Sound;
    NewCacheIsFaithful(up, capacity, ttl, clock);
    ReadsAreRecent(up, Db(m, NewCache(capacity, ttl)), events, clock);
  }

  lemma NewDatabaseCacheIsInvisible(up: Upstream, capacity: nat, ttl: nat, m: Accounts, events: seq<Event>, clock: Time)
    requires Constant(up) && InTime(events, clock) && AllHarmless(up, m, events)
    ensures Run(up, Db(m, NewCache(capacity, ttl)), events) == DirectRun(up, m, events)
  {
    hide Run, DirectRun, AllHarmless, InTime, Faithful, Sound, Constant;
    NewCacheIsFaithful(up, capacity, ttl, clock);
    CacheIsInvisible(up, Db(m, NewCache(capacity, ttl)), events, clock);
  }

  /**
   The restriction is needed: an account prefetched while overridden is served with its overrides after these are
   gone, for as long as the ttl lasts, whatever upstream holds.
   */
  lemma PrefetchOutlivesRevert(up: Upstream, db: Db, a: Address, info: AccountInfo, at: Time, later: Time)
    requires Sound(db.cache) && a in db.accounts && DirtyBasic(up, db.accounts[a], a, at) == Ok(Some(info))
    requires at <= later < at + db.cache.ttl
    ensures Run(up, db, [Event(FetchAccount(a), at), Event(Write(db.accounts - {a}), at), Event(ReadAccount(a), later)])
            == [Silent, Silent, AccountAnswer(Ok(Some(info)))]
  {
    var read := [Event(ReadAccount(a), later)];
    var rest := [Event(Write(db.accounts - {a}), at)] + read;
    var events := [Event(FetchAccount(a), at)] + rest;
    assert events[1..] == rest && rest[1..] == read && read[1..] == [];
    hide Step;
    FetchedIsServed(up, db, a, info, at, later);
    var db1 := Step(up, db, events[0]).0;
    var db2 := Step(up, db1, rest[0]).0;
    var db3 := Step(up, db2, read[0]).0;
    assert Run(up, db3, []) == [];
    assert Run(up, db2, read) == [AccountAnswer(Ok(Some(info)))] + [];
    assert Run(up, db1, rest) == [Silent] + Run(up, db2, read);
    assert Run(up, db, events) == [Silent] + Run(up, db1, rest);
  }

  /** Such an answer is right exactly when upstream itself held that value within the ttl. */
  lemma PrefetchedAnswerIff(up: Upstream, db: Db, a: Address, info: AccountInfo, at: Time, later: Time)
    requires Sound(db.cache) && a in db.accounts && DirtyBasic(up, db.accounts[a], a, at) == Ok(Some(info))
    requires at <= later < at + db.cache.ttl
    ensures var removed := db.accounts - {a};
            var read := Event(ReadAccount(a), later);
            var answers := Run(up, db, [Event(FetchAccount(a), at), Event(Write(removed), at), read]);
            && |answers| == 3
            && (Acceptable(up, db.cache.ttl, removed, read, answers[2])
                <==> exists t: Time :: t <= later && later - t < db.cache.ttl && up.account(t, a) == Ok(Some(info)))
  {
    hide Run, DirtyBasic, Sound;
    PrefetchOutlivesRevert(up, db, a, info, at, later);
    if up.account(later, a) == Ok(Some(info)) {
      assert later <= later && later - later < db.cache.ttl;
    }
  }

  lemma FetchedIsServed(up: Upstream, db: Db, a: Address, info: AccountInfo, at: Time, later: Time)
    requires Sound(db.cache) && a in db.accounts && DirtyBasic(up, db.accounts[a], a, at) == Ok(Some(info))
    requires at <= later < at + db.cache.ttl
    ensures var (db1, r1) := Step(up, db, Event(FetchAccount(a), at));
            var (db2, r2) := Step(up, db1, Event(Write(db.accounts - {a}), at));
            r1 == r2 == Silent && Step(up, db2, Event(ReadAccount(a), later)).1 == AccountAnswer(Ok(Some(info)))
  {
    hide DirtyBasic, InStep;
    var db1 := Step(up, db, Event(FetchAccount(a), at)).0;
    assert a in db1.cache.accounts.entries && db1.cache.accounts.entries[a] == Timed(info, at);
    hide Lru.Put;
  }

  /** A slot prefetched while overridden is served the same way. */
  lemma PrefetchedSlotOutlivesRevert(up: Upstream, db: Db, a: Address, s: Word, at: Time, later: Time)
    requires Sound(db.cache) && a in db.accounts && s in db.accounts[a].storage
    requires at <= later < at + db.cache.ttl
    ensures Run(up, db, [Event(FetchSlot(a, s), at), Event(Write(db.accounts - {a}), at), Event(ReadSlot(a, s), later)])
            == [Silent, Silent, SlotAnswer(Ok(db.accounts[a].storage[s]))]
  {
    var word := db.accounts[a].storage[s];
    var read := [Event(ReadSlot(a, s), later)];
    var rest := [Event(Write(db.accounts - {a}), at)] + read;
    var events := [Event(FetchSlot(a, s), at)] + rest;
    assert events[1..] == rest && rest[1..] == read && read[1..] == [];
    hide Step;
    FetchedSlotIsServed(up, db, a, s, at, later);
    var db1 := Step(up, db, events[0]).0;
    var db2 := Step(up, db1, rest[0]).0;
    var db3 := Step(up, db2, read[0]).0;
    assert Run(up, db3, []) == [];
    assert Run(up, db2, read) == [SlotAnswer(Ok(word))] + [];
    assert Run(up, db1, rest) == [Silent] + Run(up, db2, read);
    assert Run(up, db, events) == [Silent] + Run(up, db1, rest);
  }

  lemma FetchedSlotIsServed(up: Upstream, db: Db, a: Address, s: Word, at: Time, later: Time)
    requires Sound(db.cache) && a in db.accounts && s in db.accounts[a].storage
    requires at <= later < at + db.cache.ttl
    ensures var (db1, r1) := Step(up, db, Event(FetchSlot(a, s), at));
            var (db2, r2) := Step(up, db1, Event(Write(db.accounts - {a}), at));
            && r1 == r2 == Silent
            && Step(up, db2, Event(ReadSlot(a, s), later)).1 == SlotAnswer(Ok(db.accounts[a].storage[s]))
  {
    hide InStep;
    var db1 := Step(up, db, Event(FetchSlot(a, s), at)).0;
    assert (a, s) in db1.cache.storage.entries
      && db1.cache.storage.entries[(a, s)] == Timed(db.accounts[a].storage[s], at);
    hide Lru.Put;
  }

  lemma PrefetchedSlotAnswerIff(up: Upstream, db: Db, a: Address, s: Word, at: Time, later: Time)
    requires Sound(db.cache) && a in db.accounts && s in db.accounts[a].storage
    requires at <= later < at + db.cache.ttl
    ensures var removed, word := db.accounts - {a}, db.accounts[a].storage[s];
            var read := Event(ReadSlot(a, s), later);
            var answers := Run(up, db, [Event(FetchSlot(a, s), at), Event(Write(removed), at), read]);
            && |answers| == 3
            && (Acceptable(up, db.cache.ttl, removed, read, answers[2])
                <==> exists t: Time :: t <= later && later - t < db.cache.ttl && up.slot(t, a, s) == Ok(word))
  {
    hide Run, Sound;
    PrefetchedSlotOutlivesRevert(up, db, a, s, at, later);
    if up.slot(later, a, s) == Ok(db.accounts[a].storage[s]) {
      assert later <= later && later - later < db.cache.ttl;
    }
  }
}
