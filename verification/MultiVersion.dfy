/** The multi-version store of the Block-STM harness: apps/mirage-rs/src/cow.rs and replay.rs. */
module MultiVersion {
  import opened Prelude
  import opened MapSum
  import opened ForkTypes

  type Key = (Address, Word)

  datatype Version = Version(tx: nat, value: Word, incarnation: nat)

  type Versions = map<Key, seq<Version>>

  predicate AtMost(a: Version, b: Version) { a.tx < b.tx || (a.tx == b.tx && a.incarnation <= b.incarnation) }

  /** `max_by_key`: of several greatest elements the last one wins. */
  function MaxVersion(vs: seq<Version>): (m: Version)
    requires vs != []
    ensures m in vs && forall v :: v in vs ==> AtMost(v, m)
  {
    var last := vs[|vs| - 1];
    if |vs| == 1 then last else
    var m := MaxVersion(vs[..|vs| - 1]);
    assert vs == vs[..|vs| - 1] + [last];
    if AtMost(m, last) then last else m
  }

  function Of(vs: Versions, k: Key): seq<Version> { if k in vs then vs[k] else [] }

  function Record(vs: Versions, k: Key, v: Version): Versions { vs[k := Of(vs, k) + [v]] }

  function Materialize(vs: Versions): map<Key, Word> {
    map k | k in vs && vs[k] != [] :: MaxVersion(vs[k]).value
  }

  class MultiVersionStore {
    var versions: Versions

    constructor ()
      ensures versions == map[]
    {
      versions := map[];
    }

    method DoRecord(k: Key, v: Version)
      modifies this
      ensures versions == Record(old(versions), k, v)
    {
      if k !in versions {
        versions := versions[k := []];
      }
      versions := versions[k := versions[k] + [v]];
    }

    /** Collapses the versions to one highest incarnation per transaction and adds these up. */
    method ReExecutionCount() returns (count: nat)
      ensures IsCount(versions, count)
    {
      var txs: map<nat, nat> := map[];
      var left := versions.Keys;
      while left != {}
        invariant left <= versions.Keys && IsHighest(txs, versions, versions.Keys - left)
      {
        var k :| k in left;
        ghost var before := txs;
        txs := CollapseSlot(txs, versions[k]);
        CollapseExtends(before, versions, versions.Keys - left, k, txs);
        left := left - {k};
        assert versions.Keys - left == versions.Keys - (left + {k}) + {k};
      }
      assert versions.Keys - left == versions.Keys;
      count := AddUp(txs);
    }
  }

  /** `into_values().sum()`. */
  method AddUp(m: map<nat, nat>) returns (sum: nat)
    ensures sum == Sum(m)
  {
    sum := 0;
    var rest := m;
    while rest != map[]
      invariant sum + Sum(rest) == Sum(m)
      decreases |rest|
    {
      var t :| t in rest;
      SumRemove(rest, t);
      Smaller(rest, t);
      sum := sum + rest[t];
      rest := rest - {t};
    }
  }

  /** What one slot adds to the highest incarnations collected so far. */
  ghost predicate Collapsed(txs: map<nat, nat>, vs: seq<Version>, r: map<nat, nat>) {
    && (forall t :: t in txs ==> t in r && txs[t] <= r[t])
    && (forall v :: v in vs ==> v.tx in r && v.incarnation <= r[v.tx])
    && (forall t :: t in r ==>
          (t in txs && r[t] == txs[t]) || exists v :: v in vs && v.tx == t && v.incarnation == r[t])
  }

  /** `and_modify(max).or_insert` over the versions of one slot. */
  method CollapseSlot(txs: map<nat, nat>, vs: seq<Version>) returns (r: map<nat, nat>)
    ensures Collapsed(txs, vs, r)
  {
    r := txs;
    for i := 0 to |vs|
      invariant Collapsed(txs, vs[..i], r)
    {
      var v := vs[i];
      assert vs[..i + 1] == vs[..i] + [v];
      r := r[v.tx := if v.tx in r then Max(r[v.tx], v.incarnation) else v.incarnation];
    }
    assert vs[..|vs|] == vs;
  }

  lemma CollapseExtends(txs: map<nat, nat>, vs: Versions, slots: set<Key>, k: Key, r: map<nat, nat>)
    requires k in vs && IsHighest(txs, vs, slots) && Collapsed(txs, vs[k], r)
    ensures IsHighest(r, vs, slots + {k})
  {
    forall t | t in r
      ensures exists j, v :: j in slots + {k} && j in vs && v in vs[j] && v.tx == t && v.incarnation == r[t]
    {
      if t in txs && r[t] == txs[t] {
        var j: Key, v: Version :| j in slots && j in vs && v in vs[j] && v.tx == t && v.incarnation == txs[t];
        assert j in slots + {k};
      } else {
        var v: Version :| v in vs[k] && v.tx == t && v.incarnation == r[t];
        assert k in slots + {k};
      }
    }
  }

  /** `m` gives every transaction recorded in the given slots its highest recorded incarnation. */
  ghost predicate IsHighest(m: map<nat, nat>, vs: Versions, slots: set<Key>) {
    && (forall k, v :: k in slots && k in vs && v in vs[k] ==> v.tx in m && v.incarnation <= m[v.tx])
    && (forall t :: t in m ==> exists k, v :: k in slots && k in vs && v in vs[k] && v.tx == t && v.incarnation == m[t])
  }

  /** The highest incarnations of all transactions add up to `count`. */
  ghost predicate IsCount(vs: Versions, count: nat) {
    exists m: map<nat, nat> :: IsHighest(m, vs, vs.Keys) && Sum(m) == count
  }

  lemma HighestBelow(m: map<nat, nat>, n: map<nat, nat>, vs: Versions, t: nat)
    requires IsHighest(m, vs, vs.Keys) && IsHighest(n, vs, vs.Keys) && t in m
    ensures t in n && m[t] <= n[t]
  {
    var k: Key, v: Version :| k in vs.Keys && k in vs && v in vs[k] && v.tx == t && v.incarnation == m[t];
  }

  lemma HighestIsUnique(m: map<nat, nat>, n: map<nat, nat>, vs: Versions)
    requires IsHighest(m, vs, vs.Keys) && IsHighest(n, vs, vs.Keys)
    ensures m == n
  {
    hide IsHighest;
    forall t | t in m ensures t in n && m[t] <= n[t] {
      HighestBelow(m, n, vs, t);
    }
    forall t | t in n ensures t in m && n[t] <= m[t] {
      HighestBelow(n, m, vs, t);
    }
  }

  /** So the count is determined. */
  lemma CountIsUnique(vs: Versions, c: nat, d: nat)
    requires IsCount(vs, c) && IsCount(vs, d)
    ensures c == d
  {
    var m: map<nat, nat> :| IsHighest(m, vs, vs.Keys) && Sum(m) == c;
    var n: map<nat, nat> :| IsHighest(n, vs, vs.Keys) && Sum(n) == d;
    HighestIsUnique(m, n, vs);
  }

  // ---- Recording order ----

  type Log = seq<(Key, Version)>

  function RecordAll(log: Log): Versions {
    if log == [] then map[] else Record(RecordAll(log[..|log| - 1]), log[|log| - 1].0, log[|log| - 1].1)
  }

  lemma {:induction false} RecordedVersions(log: Log, k: Key, v: Version)
    ensures v in Of(RecordAll(log), k) <==> (k, v) in log
    ensures k in RecordAll(log) ==> RecordAll(log)[k] != []
  {
    if log != [] {
      RecordedVersions(log[..|log| - 1], k, v);
      assert log == log[..|log| - 1] + [log[|log| - 1]];
    }
  }

  /** The versions of a slot with the greatest transaction and incarnation carry one value. */
  ghost predicate TopsAgree(log: Log) {
    forall k, v, w :: (k, v) in log && (k, w) in log && IsTop(log, k, v) && IsTop(log, k, w) ==> v.value == w.value
  }

  ghost predicate IsTop(log: Log, k: Key, v: Version) {
    (k, v) in log && forall w :: (k, w) in log ==> AtMost(w, v)
  }

  ghost predicate SameRecords(a: Log, b: Log) { multiset(a) == multiset(b) }

  lemma MaterializedTop(log: Log, k: Key)
    ensures k in Materialize(RecordAll(log)) <==> exists v :: (k, v) in log
    ensures k in Materialize(RecordAll(log)) ==>
              exists v :: IsTop(log, k, v) && v.value == Materialize(RecordAll(log))[k]
  {
    var vs := RecordAll(log);
    forall v ensures v in Of(vs, k) <==> (k, v) in log {
      RecordedVersions(log, k, v);
    }
    if k in vs {
      RecordedVersions(log, k, Version(0, 0, 0));
      var m := MaxVersion(vs[k]);
      assert IsTop(log, k, m);
    }
  }

  /** Recording order does not matter when the top versions of each slot agree. */
  lemma AgreeingTopsOrderFree(a: Log, b: Log)
    requires TopsAgree(a) && SameRecords(a, b)
    ensures Materialize(RecordAll(a)) == Materialize(RecordAll(b))
  {
    forall e ensures e in a <==> e in b {
      assert e in a <==> e in multiset(a);
      assert e in b <==> e in multiset(b);
    }
    var x, y := Materialize(RecordAll(a)), Materialize(RecordAll(b));
    forall k ensures k in x <==> k in y {
      MaterializedTop(a, k);
      MaterializedTop(b, k);
    }
    forall k | k in x ensures x[k] == y[k] {
      MaterializedTop(a, k);
      MaterializedTop(b, k);
      var v :| IsTop(a, k, v) && v.value == x[k];
      var w :| IsTop(b, k, w) && w.value == y[k];
      assert IsTop(a, k, w);
    }
  }

  lemma MoveToEnd(log: Log, i: nat)
    requires i < |log|
    ensures SameRecords(log, log[..i] + log[i + 1..] + [log[i]])
  {
    assert log == log[..i] + [log[i]] + log[i + 1..];
  }

  lemma MaxIsLast(vs: seq<Version>, v: Version)
    requires forall w :: w in vs ==> AtMost(w, v)
    ensures MaxVersion(vs + [v]) == v
  {
    assert (vs + [v])[..|vs|] == vs;
  }

  /** Recording a top version last makes its value the materialised one. */
  lemma TopRecordedLast(log: Log, k: Key, v: Version) returns (b: Log)
    requires IsTop(log, k, v)
    ensures SameRecords(log, b) && k in Materialize(RecordAll(b)) && Materialize(RecordAll(b))[k] == v.value
  {
    hide MaxVersion;
    var i :| 0 <= i < |log| && log[i] == (k, v);
    var rest := log[..i] + log[i + 1..];
    b := rest + [(k, v)];
    MoveToEnd(log, i);
    hide SameRecords;
    assert b[..|b| - 1] == rest;
    forall w | w in Of(RecordAll(rest), k) ensures AtMost(w, v) {
      RecordedVersions(rest, k, w);
      assert (k, w) in log;
    }
    MaxIsLast(Of(RecordAll(rest), k), v);
  }

  /** The materialised map is independent of recording order exactly when the top versions of each slot agree. */
  lemma OrderFreeIffTopsAgree(log: Log)
    ensures (forall b :: SameRecords(log, b) ==> Materialize(RecordAll(b)) == Materialize(RecordAll(log)))
            <==> TopsAgree(log)
  {
    if TopsAgree(log) {
      forall b | SameRecords(log, b) ensures Materialize(RecordAll(b)) == Materialize(RecordAll(log)) {
        AgreeingTopsOrderFree(log, b);
      }
    } else {
      var k, v, w :| (k, v) in log && (k, w) in log && IsTop(log, k, v) && IsTop(log, k, w) && v.value != w.value;
      var b := TopRecordedLast(log, k, v);
      var c := TopRecordedLast(log, k, w);
      assert SameRecords(log, b) && SameRecords(log, c);
    }
  }

  // ---- Sequential meaning ----

  /** A block run: `writes(t, i)` is what incarnation i of transaction t wrote, `last(t)` its final incarnation. */
  datatype Block = Block(size: nat, last: nat -> nat, writes: (nat, nat) -> map<Key, Word>)

  function Final(b: Block, t: nat): map<Key, Word> { b.writes(t, b.last(t)) }

  /** The final writes applied in transaction order. */
  function Sequential(b: Block, n: nat): map<Key, Word> {
    if n == 0 then map[] else Sequential(b, n - 1) + Final(b, n - 1)
  }

  /** `log` holds every write of every incarnation, in any order. */
  ghost predicate LogOf(log: Log, b: Block) {
    forall k, v :: (k, v) in log <==>
      v.tx < b.size && v.incarnation <= b.last(v.tx) && Lookup(b.writes(v.tx, v.incarnation), k) == Some(v.value)
  }

  /** No incarnation writes a slot that the final one leaves alone. */
  ghost predicate StableWrites(b: Block) {
    forall t: nat, i: nat :: t < b.size && i <= b.last(t) ==> b.writes(t, i).Keys <= Final(b, t).Keys
  }

  lemma {:induction false} SequentialLastWriter(b: Block, n: nat, k: Key)
    ensures k in Sequential(b, n) ==>
              exists t: nat :: t < n && Lookup(Final(b, t), k) == Some(Sequential(b, n)[k])
                            && forall u: nat :: t < u < n ==> k !in Final(b, u)
    ensures k !in Sequential(b, n) ==> forall t: nat :: t < n ==> k !in Final(b, t)
  {
    if n > 0 {
      SequentialLastWriter(b, n - 1, k);
      if k in Final(b, n - 1) {
        assert Lookup(Final(b, n - 1), k) == Some(Sequential(b, n)[k]);
      }
    }
  }

  lemma RecordedWrite(log: Log, b: Block, t: nat, i: nat, k: Key)
    requires LogOf(log, b) && t < b.size && i <= b.last(t) && k in b.writes(t, i)
    ensures (k, Version(t, b.writes(t, i)[k], i)) in log
  {
  }

  /** What a top version left by an abandoned incarnation shows is what the block should show anyway. */
  ghost predicate AbandonedTopsHidden(log: Log, b: Block) {
    forall k, v :: IsTop(log, k, v) && k !in Final(b, v.tx) ==> Lookup(Sequential(b, b.size), k) == Some(v.value)
  }

  /** The top version of a slot a final incarnation wrote is the last such write. */
  lemma FinalTopIsSequential(log: Log, b: Block, k: Key, v: Version)
    requires LogOf(log, b) && IsTop(log, k, v) && k in Final(b, v.tx)
    ensures Lookup(Sequential(b, b.size), k) == Some(v.value)
  {
    assert (k, v) in log;
    RecordedWrite(log, b, v.tx, b.last(v.tx), k);
    assert v.incarnation == b.last(v.tx);
    SequentialLastWriter(b, b.size, k);
    var y := Sequential(b, b.size);
    assert k in y;
    var t: nat :| t < b.size && Lookup(Final(b, t), k) == Some(y[k])
      && forall u: nat :: t < u < b.size ==> k !in Final(b, u);
    RecordedWrite(log, b, t, b.last(t), k);
    assert v.tx <= t <= v.tx;
  }

  lemma SequentialIsRecorded(log: Log, b: Block, k: Key)
    requires LogOf(log, b) && k in Sequential(b, b.size)
    ensures exists v :: (k, v) in log
  {
    SequentialLastWriter(b, b.size, k);
    var t: nat :| t < b.size && Lookup(Final(b, t), k) == Some(Sequential(b, b.size)[k]);
    RecordedWrite(log, b, t, b.last(t), k);
  }

  /** Each log holds a transaction and incarnation at most once for a slot, so its top version is the one
      materialised. */
  lemma TopIsMaterialized(log: Log, b: Block, k: Key, v: Version)
    requires LogOf(log, b) && IsTop(log, k, v)
    ensures Lookup(Materialize(RecordAll(log)), k) == Some(v.value)
  {
    MaterializedTop(log, k);
    var w :| IsTop(log, k, w) && w.value == Materialize(RecordAll(log))[k];
    assert (k, v) in log && (k, w) in log && AtMost(v, w) && AtMost(w, v);
  }

  /**
   The store materialises what running the final writes in order gives, exactly when every abandoned write that
   is still on top is hidden, that is, shows the value the final writes give that slot.
   */
  lemma MaterializeIsSequentialIff(log: Log, b: Block)
    requires LogOf(log, b)
    ensures Materialize(RecordAll(log)) == Sequential(b, b.size) <==> AbandonedTopsHidden(log, b)
  {
    var x, y := Materialize(RecordAll(log)), Sequential(b, b.size);
    if x == y {
      forall k, v | IsTop(log, k, v) && k !in Final(b, v.tx) ensures Lookup(y, k) == Some(v.value) {
        TopIsMaterialized(log, b, k, v);
      }
    }
    if AbandonedTopsHidden(log, b) {
      forall k ensures Lookup(x, k) == Lookup(y, k) {
        MaterializedTop(log, k);
        if k in x {
          var v :| IsTop(log, k, v) && v.value == x[k];
          if k in Final(b, v.tx) {
            FinalTopIsSequential(log, b, k, v);
          }
        } else if k in y {
          SequentialIsRecorded(log, b, k);
          assert false;
        }
      }
      SameLookups(x, y);
    }
  }

  /** With stable write sets the store materialises what running the final writes in order gives. */
  lemma MaterializeIsSequential(log: Log, b: Block)
    requires LogOf(log, b) && StableWrites(b)
    ensures Materialize(RecordAll(log)) == Sequential(b, b.size)
  {
    forall k, v | IsTop(log, k, v) ensures k in Final(b, v.tx) {
      assert (k, v) in log && k in b.writes(v.tx, v.incarnation);
    }
    MaterializeIsSequentialIff(log, b);
  }

  lemma SameLookups(x: map<Key, Word>, y: map<Key, Word>)
    requires forall k :: Lookup(x, k) == Lookup(y, k)
    ensures x == y
  {
    forall k ensures k in x <==> k in y { assert Lookup(x, k) == Lookup(y, k); }
    forall k | k in x ensures x[k] == y[k] { assert Lookup(x, k) == Lookup(y, k); }
  }

  /** Without stability a write of an abandoned incarnation survives: here slot (0, 0) should not exist at all. */
  lemma AbandonedWriteSurvives() returns (log: Log, b: Block)
    ensures LogOf(log, b) && (0, 0) in Materialize(RecordAll(log)) && (0, 0) !in Sequential(b, b.size)
  {
    var k: Key := (0, 0);
    b := Block(1, t => 1, (t, i) => if i == 0 then map[(0, 0) := 7] else map[]);
    log := [(k, Version(0, 7, 0))];
    forall k', v
      ensures (k', v) in log <==>
        v.tx < b.size && v.incarnation <= b.last(v.tx) && Lookup(b.writes(v.tx, v.incarnation), k') == Some(v.value)
    {
      if v.tx == 0 && v.incarnation == 0 && k' == k && v.value == 7 {
        assert v == Version(0, 7, 0);
      }
    }
    MaterializedTop(log, k);
    assert log[0] == (k, Version(0, 7, 0));
    assert Sequential(b, 1) == Sequential(b, 0) + Final(b, 0);
  }

  // ---- Re-execution count ----

  function SumTo(n: nat, f: nat -> nat): nat {
    if n == 0 then 0 else SumTo(n - 1, f) + f(n - 1)
  }

  ghost function HighestRecorded(m: map<nat, nat>): nat -> nat { (t: nat) => if t in m then m[t] else 0 }

  lemma {:induction false} SumOfMap(m: map<nat, nat>, n: nat)
    requires forall t :: t in m ==> t < n
    ensures Sum(m) == SumTo(n, HighestRecorded(m))
  {
    if n == 0 {
      assert forall t :: t !in m;
      assert m == map[];
    } else {
      var k: nat := n - 1;
      var rest := m - {k};
      SumOfMap(rest, k);
      SumToSame(k, HighestRecorded(rest), HighestRecorded(m));
      if k in m {
        SumRemove(m, k);
      } else {
        assert rest == m;
      }
    }
  }

  lemma {:induction false} SumToSame(n: nat, f: nat -> nat, g: nat -> nat)
    requires forall t: nat :: t < n ==> f(t) == g(t)
    ensures SumTo(n, f) == SumTo(n, g)
  {
    if n > 0 { SumToSame(n - 1, f, g); }
  }

  lemma {:induction false} SumToBelow(n: nat, f: nat -> nat, g: nat -> nat)
    requires forall t: nat :: t < n ==> f(t) <= g(t)
    ensures SumTo(n, f) <= SumTo(n, g)
    ensures SumTo(n, f) == SumTo(n, g) <==> forall t: nat :: t < n ==> f(t) == g(t)
  {
    if n > 0 { SumToBelow(n - 1, f, g); }
  }

  lemma HighestWasWritten(log: Log, b: Block, m: map<nat, nat>, t: nat)
    requires LogOf(log, b) && IsHighest(m, RecordAll(log), RecordAll(log).Keys) && t in m
    ensures t < b.size && m[t] <= b.last(t) && b.writes(t, m[t]) != map[]
  {
    var vs := RecordAll(log);
    var k: Key, v: Version :| k in vs.Keys && k in vs && v in vs[k] && v.tx == t && v.incarnation == m[t];
    hide RecordAll, IsHighest;
    RecordedVersions(log, k, v);
    assert (k, v) in log && k in b.writes(t, m[t]);
  }

  lemma FinalWriteCounts(log: Log, b: Block, m: map<nat, nat>, t: nat)
    requires LogOf(log, b) && IsHighest(m, RecordAll(log), RecordAll(log).Keys) && t < b.size && Final(b, t) != map[]
    ensures t in m && b.last(t) <= m[t]
  {
    var k: Key :| k in Final(b, t);
    var v := Version(t, Final(b, t)[k], b.last(t));
    RecordedWrite(log, b, t, b.last(t), k);
    hide LogOf, RecordAll;
    RecordedVersions(log, k, v);
    assert k in RecordAll(log).Keys && v in RecordAll(log)[k];
  }

  /**
   The count never exceeds the number of re-executions of the block, and equals it exactly when every
   transaction that was re-executed wrote something in its final incarnation.
   */
  lemma CountIsSumOfLastIncarnations(log: Log, b: Block, count: nat)
    requires LogOf(log, b) && IsCount(RecordAll(log), count)
    ensures count <= SumTo(b.size, b.last)
    ensures count == SumTo(b.size, b.last)
            <==> forall t: nat :: t < b.size && b.last(t) > 0 ==> Final(b, t) != map[]
  {
    var vs := RecordAll(log);
    var m: map<nat, nat> :| IsHighest(m, vs, vs.Keys) && Sum(m) == count;
    forall t | t in m ensures t < b.size && m[t] <= b.last(t) && b.writes(t, m[t]) != map[] {
      HighestWasWritten(log, b, m, t);
    }
    var f := HighestRecorded(m);
    forall t: nat | t < b.size
      ensures f(t) == b.last(t) <==> (b.last(t) > 0 ==> Final(b, t) != map[])
    {
      if b.last(t) > 0 && Final(b, t) != map[] {
        FinalWriteCounts(log, b, m, t);
      }
    }
    hide IsHighest, LogOf, RecordAll;
    SumOfMap(m, b.size);
    SumToBelow(b.size, f, b.last);
  }
}
