/**
 The least-recently-used discipline of src/cache.rs as functions on values.
 The `lru` crate behind the fork's read cache follows the same discipline.
 */
module Lru {
  import opened Prelude

  /** `order` runs from least to most recently used. */
  datatype Cache<K(!new), V> = Cache(capacity: nat, entries: map<K, V>, order: seq<K>) {
    ghost predicate Wf() {
      && Distinct(order)
      && (forall k :: k in order <==> k in entries)
      && |order| <= capacity
    }
  }

  function New<K(!new), V>(capacity: nat): Cache<K, V> { Cache(capacity, map[], []) }

  ghost predicate Distinct<K(!new)>(s: seq<K>) {
    forall i, j :: 0 <= i < j < |s| ==> s[i] != s[j]
  }

  /** Removal of the first occurrence of `k`. */
  function Drop<K(==)>(s: seq<K>, k: K): (r: seq<K>)
    ensures k !in s ==> r == s
    ensures k in s ==> |r| == |s| - 1
    ensures forall x :: x in r ==> x in s
    ensures forall x :: x in s && x != k ==> x in r
  {
    if s == [] then [] else if s[0] == k then s[1..] else [s[0]] + Drop(s[1..], k)
  }

  function Touch<K(==)>(s: seq<K>, k: K): seq<K> { Drop(s, k) + [k] }

  function Get<K(==,!new), V>(c: Cache<K, V>, k: K): (Cache<K, V>, Option<V>) {
    if k in c.entries then
      (c.(order := if k in c.order then Touch(c.order, k) else c.order), Some(c.entries[k]))
    else
      (c, None)
  }

  function Put<K(==,!new), V>(c: Cache<K, V>, k: K, v: V): Cache<K, V> {
    if c.capacity == 0 then c
    else if k in c.entries then c.(entries := c.entries[k := v], order := Touch(c.order, k))
    else
      var room := if |c.entries| == c.capacity && c.order != [] then PopLru(c) else c;
      room.(entries := room.entries[k := v], order := room.order + [k])
  }

  function PopLru<K(==,!new), V>(c: Cache<K, V>): Cache<K, V>
    requires c.order != []
  {
    c.(entries := c.entries - {c.order[0]}, order := c.order[1..])
  }

  function Pop<K(==,!new), V>(c: Cache<K, V>, k: K): Cache<K, V> {
    c.(entries := c.entries - {k}, order := Drop(c.order, k))
  }

  lemma {:induction false} DropDistinct<K(!new)>(s: seq<K>, k: K)
    requires Distinct(s)
    ensures Distinct(Drop(s, k)) && k !in Drop(s, k)
  {
    if s != [] && s[0] != k {
      DropDistinct(s[1..], k);
      assert s[0] !in s[1..] && s[0] !in Drop(s[1..], k);
    }
  }

  lemma {:induction false} DistinctCount<K(!new)>(order: seq<K>, keys: set<K>)
    requires Distinct(order) && forall k :: k in order <==> k in keys
    ensures |keys| == |order|
  {
    if order != [] {
      var k, rest := order[0], order[1..];
      assert order == [k] + rest && k !in rest;
      assert forall x :: x in rest <==> x in keys - {k};
      DistinctCount(rest, keys - {k});
    } else {
      assert keys == {};
    }
  }

  /** Order and entries always have the same size. */
  lemma SameSize<K(!new), V>(order: seq<K>, entries: map<K, V>)
    requires Distinct(order) && forall k :: k in order <==> k in entries
    ensures |entries| == |order|
  {
    DistinctCount(order, entries.Keys);
  }

  lemma PopWf<K(!new), V>(c: Cache<K, V>, k: K)
    requires c.Wf()
    ensures Pop(c, k).Wf()
  {
    DropDistinct(c.order, k);
  }

  lemma PopLruWf<K(!new), V>(c: Cache<K, V>)
    requires c.Wf() && c.order != []
    ensures PopLru(c).Wf()
  {
    assert c.order == [c.order[0]] + c.order[1..];
  }

  lemma GetWf<K(!new), V>(c: Cache<K, V>, k: K)
    requires c.Wf()
    ensures Get(c, k).0.Wf()
  {
    DropDistinct(c.order, k);
  }

  /** The size never passes the capacity, and order and entries stay in step. */
  lemma PutWf<K(!new), V>(c: Cache<K, V>, k: K, v: V)
    requires c.Wf()
    ensures Put(c, k, v).Wf()
  {
    if c.capacity > 0 {
      SameSize(c.order, c.entries);
      if k in c.entries {
        DropDistinct(c.order, k);
      } else if |c.entries| == c.capacity {
        PopLruWf(c);
      }
    }
  }

  // ---- Runs ----

  datatype Op<K, V> = OpGet(key: K) | OpPut(key: K, value: V)

  function Step<K(==,!new), V>(c: Cache<K, V>, op: Op<K, V>): Cache<K, V> {
    match op
    case OpGet(k) => Get(c, k).0
    case OpPut(k, v) => Put(c, k, v)
  }

  function Run<K(==,!new), V>(capacity: nat, ops: seq<Op<K, V>>): Cache<K, V> {
    if ops == [] then New(capacity) else Step(Run(capacity, ops[..|ops| - 1]), ops[|ops| - 1])
  }

  lemma {:induction false} RunWf<K(!new), V>(capacity: nat, ops: seq<Op<K, V>>)
    ensures Run(capacity, ops).Wf() && Run(capacity, ops).capacity == capacity
  {
    if ops != [] {
      RunWf(capacity, ops[..|ops| - 1]);
      var c, op := Run(capacity, ops[..|ops| - 1]), ops[|ops| - 1];
      if op.OpGet? { GetWf(c, op.key); } else { PutWf(c, op.key, op.value); }
    }
  }

  // ---- Inclusion: a larger cache holds everything a smaller one does ----

  ghost predicate Subsequence<K(!new)>(a: seq<K>, b: seq<K>) {
    a == [] || (b != [] && if a[0] == b[0] then Subsequence(a[1..], b[1..]) else Subsequence(a, b[1..]))
  }

  lemma {:induction false} SubsequenceRefl<K(!new)>(a: seq<K>)
    ensures Subsequence(a, a)
  {
    if a != [] { SubsequenceRefl(a[1..]); }
  }

  lemma {:induction false} SubsequenceSkip<K(!new)>(a: seq<K>, b: seq<K>)
    requires b != [] && Subsequence(a, b[1..])
    ensures Subsequence(a, b)
    decreases |b|, 0
  {
    if a != [] && a[0] == b[0] {
      SubsequenceTail(a, b[1..]);
    }
  }

  lemma {:induction false} SubsequenceTail<K(!new)>(a: seq<K>, b: seq<K>)
    requires a != [] && Subsequence(a, b)
    ensures Subsequence(a[1..], b)
    decreases |b|, 1
  {
    if a[0] == b[0] {
      SubsequenceSkip(a[1..], b);
    } else {
      SubsequenceTail(a, b[1..]);
      SubsequenceSkip(a[1..], b);
    }
  }

  lemma {:induction false} SubsequenceAppend<K(!new)>(a: seq<K>, b: seq<K>, k: K)
    requires Subsequence(a, b)
    ensures Subsequence(a + [k], b + [k])
  {
    if b == [] {
    } else {
      assert (b + [k])[1..] == b[1..] + [k];
      if a == [] {
        SubsequenceAppend(a, b[1..], k);
        assert a + [k] == [k];
        SubsequenceSkip([k], b + [k]);
      } else if a[0] == b[0] {
        SubsequenceAppend(a[1..], b[1..], k);
        assert (a + [k])[1..] == a[1..] + [k];
      } else {
        SubsequenceAppend(a, b[1..], k);
      }
    }
  }

  lemma {:induction false} SubsequenceDrop<K(!new)>(a: seq<K>, b: seq<K>, k: K)
    requires Subsequence(a, b) && Distinct(b)
    ensures Subsequence(Drop(a, k), Drop(b, k))
  {
    if a != [] {
      SubsequenceElements(a, b);
      if b[0] == k {
        if a[0] != k {
          SubsequenceElements(a, b[1..]);
          assert k !in b[1..];
        }
      } else if a[0] == b[0] {
        SubsequenceDrop(a[1..], b[1..], k);
      } else {
        SubsequenceDrop(a, b[1..], k);
        SubsequenceSkip(Drop(a, k), Drop(b, k));
      }
    }
  }

  lemma {:induction false} SubsequenceElements<K(!new)>(a: seq<K>, b: seq<K>)
    requires Subsequence(a, b)
    ensures forall x :: x in a ==> x in b
  {
    if a != [] {
      assert a == [a[0]] + a[1..];
      if a[0] == b[0] { SubsequenceElements(a[1..], b[1..]); } else { SubsequenceElements(a, b[1..]); }
    }
  }

  /** Every key of `small` is in `large`, with the same value and in the same relative order. */
  ghost predicate Included<K(!new), V>(small: Cache<K, V>, large: Cache<K, V>) {
    && Subsequence(small.order, large.order)
    && (forall k :: k in small.entries ==> k in large.entries && large.entries[k] == small.entries[k])
    // until the smaller cache first fills up the two have never differed
    && (|small.order| < small.capacity ==> small.order == large.order)
  }

  lemma GetKeepsIncluded<K(!new), V>(small: Cache<K, V>, large: Cache<K, V>, k: K)
    requires small.Wf() && large.Wf() && small.capacity <= large.capacity && Included(small, large)
    ensures Included(Get(small, k).0, Get(large, k).0)
  {
    SubsequenceDrop(small.order, large.order, k);
    SubsequenceAppend(Drop(small.order, k), Drop(large.order, k), k);
    if k in large.entries && k !in small.entries {
      SubsequenceDrop(small.order, large.order, k);
      SubsequenceAppendRight(small.order, Drop(large.order, k), k);
    }
  }

  lemma {:induction false} SubsequenceAppendRight<K(!new)>(a: seq<K>, b: seq<K>, k: K)
    requires Subsequence(a, b)
    ensures Subsequence(a, b + [k])
  {
    if a != [] {
      assert (b + [k])[1..] == b[1..] + [k];
      SubsequenceAppendRight(if a[0] == b[0] then a[1..] else a, b[1..], k);
    }
  }

  /** The least recently used key of a full smaller cache, and of a full larger one, can both go. */
  lemma EvictKeepsSubsequence<K(!new)>(a: seq<K>, b: seq<K>)
    requires a != [] && Subsequence(a, b)
    ensures Subsequence(a[1..], b) && Subsequence(a[1..], b[1..])
  {
    SubsequenceTail(a, b);
    if a[0] != b[0] {
      SubsequenceTail(a, b[1..]);
    }
  }

  /** A full smaller cache puts a new key that the larger one already holds. */
  lemma EvictAgainstHit<K(!new), V>(small: Cache<K, V>, large: Cache<K, V>, k: K, v: V)
    requires small.Wf() && large.Wf() && 0 < small.capacity <= large.capacity && Included(small, large)
    requires |small.entries| == |small.order| == small.capacity && k !in small.entries && k in large.entries
    ensures Included(Put(small, k, v), Put(large, k, v))
  {
    var rest := small.order[1..];
    EvictKeepsSubsequence(small.order, large.order);
    SubsequenceDrop(rest, large.order, k);
    SubsequenceAppend(rest, Drop(large.order, k), k);
    hide Subsequence;
  }

  /** Both caches are full: the key the larger one evicts, the smaller one has evicted too. */
  lemma EvictBoth<K(!new), V>(small: Cache<K, V>, large: Cache<K, V>, k: K, v: V)
    requires small.Wf() && large.Wf() && 0 < small.capacity <= large.capacity && Included(small, large)
    requires |small.entries| == |small.order| == small.capacity && |large.entries| == |large.order| == large.capacity
    requires k !in small.entries && k !in large.entries
    ensures Included(Put(small, k, v), Put(large, k, v))
  {
    var rest := small.order[1..];
    EvictKeepsSubsequence(small.order, large.order);
    SubsequenceAppend(rest, large.order[1..], k);
    SubsequenceElements(rest, large.order[1..]);
    hide Subsequence;
    forall x | x in small.entries && x != small.order[0]
      ensures x != large.order[0]
    {
      assert x in rest && x in large.order[1..];
    }
  }

  lemma EvictThenPut<K(!new), V>(small: Cache<K, V>, large: Cache<K, V>, k: K, v: V)
    requires small.Wf() && large.Wf() && 0 < small.capacity <= large.capacity && Included(small, large)
    requires |small.order| == small.capacity && k !in small.entries
    ensures Included(Put(small, k, v), Put(large, k, v))
  {
    SameSize(small.order, small.entries);
    SameSize(large.order, large.entries);
    if k in large.entries {
      EvictAgainstHit(small, large, k, v);
    } else if |large.order| == large.capacity {
      EvictBoth(small, large, k, v);
    } else {
      EvictKeepsSubsequence(small.order, large.order);
      SubsequenceAppend(small.order[1..], large.order, k);
      hide Subsequence;
    }
  }

  lemma PutKeepsIncluded<K(!new), V>(small: Cache<K, V>, large: Cache<K, V>, k: K, v: V)
    requires small.Wf() && large.Wf() && small.capacity <= large.capacity && Included(small, large)
    ensures Included(Put(small, k, v), Put(large, k, v))
  {
    SameSize(small.order, small.entries);
    SameSize(large.order, large.entries);
    if small.capacity == 0 {
    } else if k in small.entries {
      hide Subsequence;
      SubsequenceDrop(small.order, large.order, k);
      SubsequenceAppend(Drop(small.order, k), Drop(large.order, k), k);
    } else if |small.order| < small.capacity {
      SubsequenceRefl(large.order + [k]);
    } else {
      EvictThenPut(small, large, k, v);
    }
  }

  /** On any shared trace the larger cache holds every key of the smaller, with equal values. */
  lemma {:induction false} InclusionOverRuns<K(!new), V>(c1: nat, c2: nat, ops: seq<Op<K, V>>)
    requires c1 <= c2
    ensures Included(Run(c1, ops), Run(c2, ops))
  {
    if ops != [] {
      var front, op := ops[..|ops| - 1], ops[|ops| - 1];
      InclusionOverRuns(c1, c2, front);
      RunWf(c1, front);
      RunWf(c2, front);
      if op.OpGet? {
        GetKeepsIncluded(Run(c1, front), Run(c2, front), op.key);
      } else {
        PutKeepsIncluded(Run(c1, front), Run(c2, front), op.key, op.value);
      }
    }
  }

  /** So a hit in the smaller cache is a hit, with the same answer, in the larger. */
  lemma HitsAreIncluded<K(!new), V>(c1: nat, c2: nat, ops: seq<Op<K, V>>, k: K)
    requires c1 <= c2
    ensures var small, large := Get(Run(c1, ops), k).1, Get(Run(c2, ops), k).1;
            small.Some? ==> large == small
  {
    InclusionOverRuns(c1, c2, ops);
  }

  // ---- `order` is the most recent distinct keys, the entries their latest values ----

  /** The keys a cache of this capacity touched: every put, and every get that hit. */
  function Touches<K(==,!new), V>(capacity: nat, ops: seq<Op<K, V>>): seq<K> {
    if ops == [] then [] else
    var front, op := ops[..|ops| - 1], ops[|ops| - 1];
    Touches(capacity, front) +
    if op.OpPut? || op.key in Run(capacity, front).entries then [op.key] else []
  }

  /** Distinct keys by last occurrence, latest last. */
  function Recency<K(==)>(ts: seq<K>): seq<K> {
    if ts == [] then [] else Touch(Recency(ts[..|ts| - 1]), ts[|ts| - 1])
  }

  /** Index of the last occurrence. */
  function LastAt<K(==)>(ts: seq<K>, k: K): (i: nat)
    requires k in ts
    ensures i < |ts| && ts[i] == k && forall j :: i < j < |ts| ==> ts[j] != k
  {
    if ts[|ts| - 1] == k then |ts| - 1 else
    assert k in ts[..|ts| - 1];
    LastAt(ts[..|ts| - 1], k)
  }

  /** `Recency` holds each key once, sorted by its last occurrence. */
  lemma {:induction false} RecencyByLastOccurrence<K(!new)>(ts: seq<K>)
    ensures Distinct(Recency(ts)) && forall k :: k in Recency(ts) <==> k in ts
    ensures forall i, j :: 0 <= i < j < |Recency(ts)| ==>
              LastAt(ts, Recency(ts)[i]) < LastAt(ts, Recency(ts)[j])
  {
    if ts != [] {
      var front, k := ts[..|ts| - 1], ts[|ts| - 1];
      RecencyByLastOccurrence(front);
      var r := Recency(front);
      DropDistinct(r, k);
      assert ts == front + [k];
      forall i, j | 0 <= i < j < |Recency(ts)|
        ensures LastAt(ts, Recency(ts)[i]) < LastAt(ts, Recency(ts)[j])
      {
        var x := Drop(r, k)[i];
        assert Recency(ts)[i] == x != k && LastAt(ts, x) == LastAt(front, x);
        if j < |Drop(r, k)| {
          var y := Drop(r, k)[j];
          assert Recency(ts)[j] == y != k && LastAt(ts, y) == LastAt(front, y);
          DropKeepsOrder(r, k, i, j);
        }
      }
    }
  }

  lemma {:induction false} DropKeepsOrder<K(!new)>(s: seq<K>, k: K, i: nat, j: nat)
    requires i < j < |Drop(s, k)|
    ensures exists i', j' :: 0 <= i' < j' < |s| && s[i'] == Drop(s, k)[i] && s[j'] == Drop(s, k)[j]
  {
    if s[0] == k {
      assert s[i + 1] == Drop(s, k)[i] && s[j + 1] == Drop(s, k)[j];
    } else if i == 0 {
      assert Drop(s, k)[j] in s[1..];
      var j' :| 0 <= j' < |s[1..]| && s[1..][j'] == Drop(s, k)[j];
      assert s[0] == Drop(s, k)[0] && s[j' + 1] == Drop(s, k)[j];
    } else {
      DropKeepsOrder(s[1..], k, i - 1, j - 1);
      var i', j' :| 0 <= i' < j' < |s[1..]| && s[1..][i'] == Drop(s[1..], k)[i - 1]
        && s[1..][j'] == Drop(s[1..], k)[j - 1];
      assert s[i' + 1] == Drop(s, k)[i] && s[j' + 1] == Drop(s, k)[j];
    }
  }

  function Last<K>(s: seq<K>, n: nat): seq<K> {
    if n <= |s| then s[|s| - n..] else s
  }

  lemma {:induction false} DropSuffix<K(!new)>(a: seq<K>, b: seq<K>, k: K)
    ensures k !in a ==> Drop(a + b, k) == a + Drop(b, k)
    ensures k in a ==> Drop(a + b, k) == Drop(a, k) + b
  {
    if a == [] {
      assert a + b == b;
    } else {
      var rest := a[1..];
      assert a == [a[0]] + rest && (a + b)[1..] == rest + b;
      DropSuffix(rest, b, k);
      if a[0] != k {
        assert Drop(a + b, k) == [a[0]] + Drop(rest + b, k);
        if k in rest {
          assert [a[0]] + (Drop(rest, k) + b) == [a[0]] + Drop(rest, k) + b;
        } else {
          assert [a[0]] + (rest + Drop(b, k)) == [a[0]] + rest + Drop(b, k);
        }
      }
    }
  }

  lemma LastSplit<K(!new)>(a: seq<K>, b: seq<K>, n: nat)
    requires |b| == n || (a == [] && |b| < n)
    ensures Last(a + b, n) == b
  {
    if |b| == n {
      assert (a + b)[|a|..] == b;
    } else {
      assert a + b == b;
    }
  }

  /** Touching a key, seen on the last `n` keys `s` only; `p` holds the older ones. */
  lemma TouchLast<K(!new)>(p: seq<K>, s: seq<K>, k: K, n: nat)
    requires n > 0 && (|s| == n || (p == [] && |s| < n)) && !(k in p && k in s)
    ensures k in s ==> Last(Touch(p + s, k), n) == Touch(s, k)
    ensures k !in s ==> Last(Touch(p + s, k), n) == (if |s| == n then s[1..] else s) + [k]
  {
    DropSuffix(p, s, k);
    if k in s {
      assert Touch(p + s, k) == p + Touch(s, k);
      LastSplit(p, Touch(s, k), n);
    } else {
      var rest := if k in p then Drop(p, k) else p;
      assert Drop(p + s, k) == rest + s;
      if |s| == n {
        assert s == [s[0]] + s[1..];
        assert Touch(p + s, k) == (rest + [s[0]]) + (s[1..] + [k]);
        LastSplit(rest + [s[0]], s[1..] + [k], n);
      } else {
        assert Touch(p + s, k) == rest + (s + [k]);
        LastSplit(rest, s + [k], n);
      }
    }
  }

  lemma DistinctParts<K(!new)>(p: seq<K>, s: seq<K>, k: K)
    requires Distinct(p + s)
    ensures !(k in p && k in s)
  {
    forall i, j | 0 <= i < |p| && 0 <= j < |s| ensures p[i] != s[j] {
      assert (p + s)[i] == p[i] && (p + s)[|p| + j] == s[j];
    }
  }

  /** A put, or a get that hits, moves its key to the recent end, evicting the oldest key if it has to. */
  lemma StepOrder<K(!new), V>(c: Cache<K, V>, op: Op<K, V>)
    requires c.Wf() && c.capacity > 0 && (op.OpPut? || op.key in c.entries)
    ensures op.key in c.order ==> Step(c, op).order == Touch(c.order, op.key)
    ensures op.key !in c.order ==>
              Step(c, op).order == (if |c.order| == c.capacity then c.order[1..] else c.order) + [op.key]
  {
    SameSize(c.order, c.entries);
  }

  lemma StepTouches<K(!new), V>(c: Cache<K, V>, op: Op<K, V>, r: seq<K>)
    requires c.Wf() && c.capacity > 0 && Distinct(r) && c.order == Last(r, c.capacity)
    requires op.OpPut? || op.key in c.entries
    ensures Step(c, op).order == Last(Touch(r, op.key), c.capacity)
  {
    StepOrder(c, op);
    hide Cache.Wf, Step;
    var s := c.order;
    var p := r[..|r| - |s|];
    assert r == p + s;
    DistinctParts(p, s, op.key);
    hide Distinct;
    TouchLast(p, s, op.key, c.capacity);
  }

  /** `order` is exactly the last at-most-capacity distinct keys among puts and hits. */
  lemma {:induction false} OrderIsRecency<K(!new), V>(capacity: nat, ops: seq<Op<K, V>>)
    ensures Run(capacity, ops).order == Last(Recency(Touches(capacity, ops)), capacity)
  {
    if capacity == 0 {
      RunWf(capacity, ops);
    } else if ops != [] {
      var front, op := ops[..|ops| - 1], ops[|ops| - 1];
      OrderIsRecency(capacity, front);
      RunWf(capacity, front);
      var c, ts := Run(capacity, front), Touches(capacity, front);
      if op.OpPut? || op.key in c.entries {
        RecencyByLastOccurrence(ts);
        StepTouches(c, op, Recency(ts));
        assert Touches(capacity, ops) == ts + [op.key] && (ts + [op.key])[..|ts|] == ts;
      } else {
        assert Touches(capacity, ops) == ts;
      }
    }
  }

  function LastPut<K(==,!new), V>(ops: seq<Op<K, V>>, k: K): Option<V> {
    if ops == [] then None
    else if ops[|ops| - 1].OpPut? && ops[|ops| - 1].key == k then Some(ops[|ops| - 1].value)
    else LastPut(ops[..|ops| - 1], k)
  }

  /** A cached value is the latest one put under its key. */
  lemma {:induction false} EntriesAreLatest<K(!new), V>(capacity: nat, ops: seq<Op<K, V>>, k: K)
    requires k in Run(capacity, ops).entries
    ensures LastPut(ops, k) == Some(Run(capacity, ops).entries[k])
  {
    if ops != [] {
      var front, op := ops[..|ops| - 1], ops[|ops| - 1];
      RunWf(capacity, front);
      if !(op.OpPut? && op.key == k) {
        var c := Run(capacity, front);
        assert k in Step(c, op).entries ==> k in c.entries && Step(c, op).entries[k] == c.entries[k];
        EntriesAreLatest(capacity, front, k);
      }
    }
  }
}

/** The cache itself: `entries` and `order` are changed in place by both `get` and `put`. */
module LruCacheClass {
  import opened Prelude
  import opened Lru

  class LruCache<K(==,!new), V> {
    const capacity: nat
    var entries: map<K, V>
    var order: seq<K>

    function Model(): Cache<K, V>
      reads this
    {
      Cache(capacity, entries, order)
    }

    constructor (capacity: nat)
      ensures Model() == New(capacity)
    {
      this.capacity := capacity;
      entries := map[];
      order := [];
    }

    method Get(key: K) returns (r: Option<V>)
      modifies this
      ensures (Model(), r) == Lru.Get(old(Model()), key)
    {
      if key in entries {
        if key in order {
          order := Drop(order, key);
          order := order + [key];
        }
        return Some(entries[key]);
      }
      return None;
    }

    method Put(key: K, value: V)
      modifies this
      ensures Model() == Lru.Put(old(Model()), key, value)
    {
      if capacity == 0 {
        return;
      }
      if key in entries {
        entries := entries[key := value];
        order := Drop(order, key);
        order := order + [key];
        return;
      }
      if |entries| == capacity {
        if order != [] {
          var oldest := order[0];
          order := order[1..];
          entries := entries - {oldest};
        }
      }
      order := order + [key];
      entries := entries[key := value];
    }
  }
}
