/** The hand-written open-addressing table of src/hashmap.rs: linear probing, tombstones, growth. */
module HashTable {
  import opened Prelude

  datatype Entry = Empty | Deleted | Occupied(key: string, value: int)

  /** `hasher.finish() as usize`; the table must be right whatever it returns. */
  type Hash = string -> nat

  function Home(hash: Hash, key: string, n: nat): (h: nat)
    requires 0 < n
    ensures h < n
  {
    hash(key) % n
  }

  function Next(i: nat, n: nat): (r: nat)
    requires i < n
    ensures r == if i + 1 < n then i + 1 else 0
  {
    (i + 1) % n
  }

  /** How many probes from home slot `h` reach slot `i`. */
  function Dist(h: nat, i: nat, n: nat): (d: nat)
    requires h < n && i < n
    ensures d < n
  {
    if h <= i then i - h else i - h + n
  }

  /** No probe chain crosses an Empty slot. */
  ghost predicate Chained(s: seq<Entry>, hash: Hash) {
    forall i, j | 0 <= i < |s| && 0 <= j < |s| && s[i].Occupied? ::
      var h := Home(hash, s[i].key, |s|);
      Dist(h, j, |s|) < Dist(h, i, |s|) ==> s[j] != Empty
  }

  ghost predicate UniqueKeys(s: seq<Entry>) {
    forall i, j :: 0 <= i < j < |s| && s[i].Occupied? && s[j].Occupied? ==> s[i].key != s[j].key
  }

  /** The occupied slots are exactly the bindings of `m`. */
  ghost predicate Agrees(s: seq<Entry>, m: map<string, int>) {
    && (forall i :: 0 <= i < |s| && s[i].Occupied? ==> s[i].key in m && m[s[i].key] == s[i].value)
    && (forall k :: k in m ==> exists i :: 0 <= i < |s| && s[i].Occupied? && s[i].key == k)
  }

  ghost predicate Table(s: seq<Entry>, hash: Hash, m: map<string, int>) {
    Chained(s, hash) && UniqueKeys(s) && Agrees(s, m)
  }

  function NumOccupied(s: seq<Entry>): nat {
    if s == [] then 0 else NumOccupied(s[..|s| - 1]) + if s[|s| - 1].Occupied? then 1 else 0
  }

  lemma AgreesFront(front: seq<Entry>, e: Entry, m: map<string, int>)
    requires UniqueKeys(front + [e]) && Agrees(front + [e], m)
    ensures UniqueKeys(front)
    ensures !e.Occupied? ==> Agrees(front, m)
    ensures e.Occupied? ==> Agrees(front, m - {e.key}) && |m| == |m - {e.key}| + 1
  {
    var s, m' := front + [e], if e.Occupied? then m - {e.key} else m;
    assert forall i :: 0 <= i < |front| ==> s[i] == front[i];
    assert s[|front|] == e;
    if e.Occupied? {
      assert m == m'[e.key := e.value];
    }
    forall k | k in m' ensures exists i :: 0 <= i < |front| && front[i].Occupied? && front[i].key == k {
      var i :| 0 <= i < |s| && s[i].Occupied? && s[i].key == k;
      assert front[i].key == k;
    }
  }

  /** Distinct keys make the number of occupied slots the size of the map. */
  lemma {:induction false} OccupiedCountsMap(s: seq<Entry>, m: map<string, int>)
    requires UniqueKeys(s) && Agrees(s, m)
    ensures NumOccupied(s) == |m|
  {
    if s == [] {
      assert m == map[];
    } else {
      var front, e := s[..|s| - 1], s[|s| - 1];
      assert s == front + [e];
      AgreesFront(front, e, m);
      OccupiedCountsMap(front, if e.Occupied? then m - {e.key} else m);
    }
  }

  lemma TableCount(s: seq<Entry>, hash: Hash, m: map<string, int>)
    requires Table(s, hash, m)
    ensures NumOccupied(s) == |m|
  {
    OccupiedCountsMap(s, m);
  }

  lemma {:induction false} OccupiedBound(s: seq<Entry>)
    ensures NumOccupied(s) <= |s|
    ensures (forall i :: 0 <= i < |s| ==> s[i].Occupied?) ==> NumOccupied(s) == |s|
  {
    if s != [] {
      var front := s[..|s| - 1];
      OccupiedBound(front);
      if forall i :: 0 <= i < |s| ==> s[i].Occupied? {
        assert forall i :: 0 <= i < |front| ==> front[i] == s[i];
      }
    }
  }

  /** The first `step` probes for `key` met no Empty slot and not the key. */
  ghost predicate Searched(s: seq<Entry>, h: nat, key: string, step: nat)
    requires h < |s|
  {
    forall j | 0 <= j < |s| && Dist(h, j, |s|) < step :: s[j] != Empty && !(s[j].Occupied? && s[j].key == key)
  }

  lemma Found(s: seq<Entry>, hash: Hash, m: map<string, int>, i: nat)
    requires i < |s| && Table(s, hash, m) && s[i].Occupied?
    ensures Lookup(m, s[i].key) == Some(s[i].value)
  {
  }

  ghost predicate NoneDeleted(s: seq<Entry>, h: nat, step: nat)
    requires h < |s|
  {
    forall j | 0 <= j < |s| && Dist(h, j, |s|) < step :: s[j] != Deleted
  }

  lemma SearchStart(s: seq<Entry>, h: nat, key: string)
    requires h < |s|
    ensures Searched(s, h, key, 0) && NoneDeleted(s, h, 0) && Dist(h, h, |s|) == 0
  {
  }

  lemma SearchPrefix(s: seq<Entry>, h: nat, key: string, d: nat, step: nat)
    requires h < |s| && Searched(s, h, key, step) && d <= step
    ensures Searched(s, h, key, d)
  {
  }

  /** A search of the whole ring that met neither an Empty nor a Deleted slot found the table full. */
  lemma FullTableCount(s: seq<Entry>, h: nat, key: string)
    requires h < |s| && Searched(s, h, key, |s|) && NoneDeleted(s, h, |s|)
    ensures NumOccupied(s) == |s|
  {
    forall j | 0 <= j < |s| ensures s[j].Occupied? {
      assert Dist(h, j, |s|) < |s|;
    }
    OccupiedBound(s);
  }

  lemma SearchStep(s: seq<Entry>, h: nat, key: string, step: nat, index: nat)
    requires h < |s| && index < |s| && Searched(s, h, key, step) && Dist(h, index, |s|) == step
    requires s[index] != Empty && !(s[index].Occupied? && s[index].key == key)
    ensures Searched(s, h, key, step + 1)
    ensures NoneDeleted(s, h, step) && s[index] != Deleted ==> NoneDeleted(s, h, step + 1)
    ensures step + 1 < |s| ==> Dist(h, Next(index, |s|), |s|) == step + 1
  {
  }

  /** A probe that reached an Empty slot, or every slot, without meeting `key` proves it absent. */
  lemma Absent(s: seq<Entry>, hash: Hash, m: map<string, int>, key: string, step: nat)
    requires 0 < |s| && Table(s, hash, m) && step <= |s| && Searched(s, Home(hash, key, |s|), key, step)
    requires step == |s| || exists i :: 0 <= i < |s| && Dist(Home(hash, key, |s|), i, |s|) == step && s[i] == Empty
    ensures key !in m
  {
  }

  lemma PlaceKeepsChained(s: seq<Entry>, hash: Hash, key: string, value: int, t: nat)
    requires t < |s| && Chained(s, hash) && !s[t].Occupied?
    requires Searched(s, Home(hash, key, |s|), key, Dist(Home(hash, key, |s|), t, |s|))
    ensures Chained(s[t := Occupied(key, value)], hash)
  {
    hide Home, Dist;
  }

  lemma PlaceKeepsAgrees(s: seq<Entry>, m: map<string, int>, key: string, value: int, t: nat)
    requires t < |s| && UniqueKeys(s) && Agrees(s, m) && key !in m && !s[t].Occupied?
    ensures UniqueKeys(s[t := Occupied(key, value)]) && Agrees(s[t := Occupied(key, value)], m[key := value])
  {
    var s', m' := s[t := Occupied(key, value)], m[key := value];
    forall k | k in m' ensures exists i :: 0 <= i < |s'| && s'[i].Occupied? && s'[i].key == k {
      if k == key {
        assert s'[t].key == k;
      } else {
        var i :| 0 <= i < |s| && s[i].Occupied? && s[i].key == k;
        assert s'[i] == s[i];
      }
    }
  }

  /** Writing a new key into a slot whose probe prefix has no Empty keeps the table. */
  lemma PlaceKeepsTable(s: seq<Entry>, hash: Hash, m: map<string, int>, key: string, value: int, t: nat)
    requires t < |s| && Table(s, hash, m) && key !in m && !s[t].Occupied?
    requires Searched(s, Home(hash, key, |s|), key, Dist(Home(hash, key, |s|), t, |s|))
    ensures Table(s[t := Occupied(key, value)], hash, m[key := value])
  {
    hide Home, Dist, Chained, Agrees, UniqueKeys, Searched;
    PlaceKeepsChained(s, hash, key, value, t);
    PlaceKeepsAgrees(s, m, key, value, t);
  }

  lemma ReplaceKeepsTable(s: seq<Entry>, hash: Hash, m: map<string, int>, value: int, t: nat)
    requires t < |s| && Table(s, hash, m) && s[t].Occupied?
    ensures Table(s[t := Occupied(s[t].key, value)], hash, m[s[t].key := value])
    ensures NoTombstones(s) ==> NoTombstones(s[t := Occupied(s[t].key, value)])
  {
    var s', m' := s[t := Occupied(s[t].key, value)], m[s[t].key := value];
    forall k | k in m' ensures exists i :: 0 <= i < |s'| && s'[i].Occupied? && s'[i].key == k {
      var i :| 0 <= i < |s| && s[i].Occupied? && s[i].key == k;
      assert s'[i].key == s[i].key;
    }
    forall i, j | 0 <= i < |s'| && 0 <= j < |s'| && s'[i].Occupied? &&
      Dist(Home(hash, s'[i].key, |s'|), j, |s'|) < Dist(Home(hash, s'[i].key, |s'|), i, |s'|)
      ensures s'[j] != Empty
    {
      assert s'[i].key == s[i].key;
    }
  }

  lemma TombstoneKeepsChained(s: seq<Entry>, hash: Hash, t: nat)
    requires t < |s| && Chained(s, hash)
    ensures Chained(s[t := Deleted], hash)
  {
    hide Home, Dist;
  }

  lemma TombstoneKeepsAgrees(s: seq<Entry>, m: map<string, int>, t: nat)
    requires t < |s| && UniqueKeys(s) && Agrees(s, m) && s[t].Occupied?
    ensures UniqueKeys(s[t := Deleted]) && Agrees(s[t := Deleted], m - {s[t].key})
  {
    var s', m' := s[t := Deleted], m - {s[t].key};
    forall k | k in m' ensures exists i :: 0 <= i < |s'| && s'[i].Occupied? && s'[i].key == k {
      var i :| 0 <= i < |s| && s[i].Occupied? && s[i].key == k;
      assert s'[i] == s[i];
    }
  }

  /** A tombstone, unlike an Empty slot, keeps every other probe chain intact. */
  lemma TombstoneKeepsTable(s: seq<Entry>, hash: Hash, m: map<string, int>, t: nat)
    requires t < |s| && Table(s, hash, m) && s[t].Occupied?
    ensures Table(s[t := Deleted], hash, m - {s[t].key})
    ensures |m - {s[t].key}| == |m| - 1
  {
    TombstoneKeepsChained(s, hash, t);
    TombstoneKeepsAgrees(s, m, t);
    assert m == (m - {s[t].key})[s[t].key := s[t].value];
    hide Home, Dist, Chained, Agrees, UniqueKeys;
  }

  predicate NoTombstones(s: seq<Entry>) {
    forall i :: 0 <= i < |s| ==> s[i] != Deleted
  }

  /** One turn of the drain loop: the bindings of a longer prefix. */
  lemma DrainStep(s: seq<Entry>, hash: Hash, m: map<string, int>, i: nat, part: map<string, int>)
    requires i < |s| && Table(s, hash, m) && Agrees(s[..i], part)
    ensures !s[i].Occupied? ==> Agrees(s[..i + 1], part)
    ensures s[i].Occupied? ==> Agrees(s[..i + 1], part[s[i].key := s[i].value])
  {
    assert s[..i + 1] == s[..i] + [s[i]];
    forall j | 0 <= j < i ensures s[..i][j] == s[j] { }
    DrainAppend(s[..i], s[i], part);
  }

  lemma DrainAppend(front: seq<Entry>, e: Entry, part: map<string, int>)
    requires Agrees(front, part)
    requires e.Occupied? ==> forall j :: 0 <= j < |front| && front[j].Occupied? ==> front[j].key != e.key
    ensures Agrees(front + [e], if e.Occupied? then part[e.key := e.value] else part)
  {
    var s, after := front + [e], if e.Occupied? then part[e.key := e.value] else part;
    forall k | k in after ensures exists j :: 0 <= j < |s| && s[j].Occupied? && s[j].key == k {
      if e.Occupied? && e.key == k {
        assert s[|front|].key == k;
      } else {
        var j :| 0 <= j < |front| && front[j].Occupied? && front[j].key == k;
        assert s[j] == front[j];
      }
    }
  }

  lemma DrainStart(s: seq<Entry>)
    ensures Agrees(s[..0], map[])
  {
  }

  lemma DrainedAll(s: seq<Entry>, hash: Hash, m: map<string, int>, part: map<string, int>)
    requires Table(s, hash, m) && Agrees(s, part)
    ensures part == m
  {
  }

  predicate IsPow2(n: nat) {
    n == 1 || (n > 1 && n % 2 == 0 && IsPow2(n / 2))
  }

  /** `usize::next_power_of_two`, counting up from a power of two `p` that is small enough. */
  function NextPow2From(p: nat, c: nat): (r: nat)
    requires IsPow2(p)
    ensures IsPow2(r) && c <= r && p <= r
    ensures r == p || r < 2 * c
    decreases c - p
  {
    if c <= p then p else NextPow2From(2 * p, c)
  }

  lemma {:induction false} Pow2IsItsOwnNext(p: nat, c: nat)
    requires IsPow2(p) && IsPow2(c) && p <= c
    ensures NextPow2From(p, c) == c
    decreases c - p
  {
    if p < c {
      Pow2Gap(p, c);
      Pow2IsItsOwnNext(2 * p, c);
    }
  }

  lemma {:induction false} Pow2Gap(p: nat, c: nat)
    requires IsPow2(p) && IsPow2(c) && p < c
    ensures 2 * p <= c
  {
    if p > 1 {
      Pow2Gap(p / 2, c / 2);
    }
  }

  class HashMap {
    const hash: Hash
    var buckets: array<Entry>
    var len: nat
    ghost var contents: map<string, int>

    ghost predicate Valid()
      reads this, buckets
    {
      && 0 < buckets.Length && IsPow2(buckets.Length)
      && Table(buckets[..], hash, contents)
      && len == |contents| == NumOccupied(buckets[..])
    }

    /** The load test of `insert` seen from the other side: `len * 100 / capacity < 70`. */
    ghost predicate UnderLoad()
      reads this
    {
      len * 100 < 70 * buckets.Length
    }

    constructor WithCapacity(hash: Hash, capacity: nat)
      ensures Valid() && UnderLoad() && fresh(buckets) && this.hash == hash
      ensures contents == map[] && NoTombstones(buckets[..]) && buckets.Length == NextPow2From(1, Max(capacity, 1))
    {
      var n := NextPow2From(1, Max(capacity, 1));
      this.hash := hash;
      buckets := new Entry[n](_ => Empty);
      len := 0;
      contents := map[];
      new;
      OccupiedCountsMap(buckets[..], map[]);
    }

    method Get(key: string) returns (r: Option<int>)
      requires Valid()
      ensures r == Lookup(contents, key)
    {
      hide Home, Next, Dist, Table, Searched, NoneDeleted, NumOccupied, IsPow2, NoTombstones;
      var n := buckets.Length;
      var h := Home(hash, key, n);
      var index: nat := h;
      SearchStart(buckets[..], h, key);
      for step := 0 to n
        invariant index < n && (step < n ==> Dist(h, index, n) == step)
        invariant Searched(buckets[..], h, key, step)
      {
        match buckets[index] {
          case Empty =>
            Absent(buckets[..], hash, contents, key, step);
            return None;
          case Deleted =>
          case Occupied(k, v) =>
            if k == key {
              Found(buckets[..], hash, contents, index);
              return Some(v);
            }
        }
        SearchStep(buckets[..], h, key, step, index);
        index := Next(index, n);
      }
      Absent(buckets[..], hash, contents, key, n);
      return None;
    }

    method Remove(key: string) returns (r: Option<int>)
      requires Valid()
      modifies this, buckets
      ensures Valid() && buckets == old(buckets)
      ensures old(UnderLoad()) ==> UnderLoad()
      ensures r == Lookup(old(contents), key) && contents == old(contents) - {key}
    {
      hide Home, Next, Dist, Table, Searched, NoneDeleted, NumOccupied, IsPow2, NoTombstones;
      ghost var s := buckets[..];
      var n := buckets.Length;
      var h := Home(hash, key, n);
      var index: nat := h;
      SearchStart(buckets[..], h, key);
      for step := 0 to n
        invariant index < n && (step < n ==> Dist(h, index, n) == step)
        invariant unchanged(this) && unchanged(old(buckets)) && buckets[..] == s && Table(s, hash, contents)
        invariant Searched(buckets[..], h, key, step)
      {
        match buckets[index] {
          case Empty =>
            Absent(buckets[..], hash, contents, key, step);
            assert contents - {key} == contents;
            return None;
          case Deleted =>
          case Occupied(k, v) =>
            if k == key {
              Found(buckets[..], hash, contents, index);
              TombstoneKeepsTable(buckets[..], hash, contents, index);
              buckets[index] := Deleted;
              assert buckets[..] == s[index := Deleted];
              len := len - 1;
              contents := contents - {key};
              TableCount(buckets[..], hash, contents);
              return Some(v);
            }
        }
        SearchStep(buckets[..], h, key, step, index);
        index := Next(index, n);
      }
      Absent(buckets[..], hash, contents, key, n);
      assert contents - {key} == contents;
      return None;
    }

    /** Writes a new binding into slot `target`. */
    method Place(key: string, value: int, target: nat)
      requires Valid() && target < buckets.Length && !buckets[target].Occupied? && key !in contents
      requires var h := Home(hash, key, buckets.Length);
               Searched(buckets[..], h, key, Dist(h, target, buckets.Length))
      modifies this, buckets
      ensures Valid() && buckets == old(buckets)
      ensures contents == old(contents)[key := value] && len == old(len) + 1
      ensures old(NoTombstones(buckets[..])) ==> NoTombstones(buckets[..])
    {
      hide Table, Searched, Home, Dist;
      PlaceKeepsTable(buckets[..], hash, contents, key, value, target);
      ghost var s := buckets[..];
      buckets[target] := Occupied(key, value);
      assert buckets[..] == s[target := Occupied(key, value)];
      len := len + 1;
      contents := contents[key := value];
      TableCount(buckets[..], hash, contents);
    }

    method InsertInternal(key: string, value: int) returns (r: Option<int>)
      requires Valid()
      modifies this, buckets
      ensures Valid() && (buckets == old(buckets) || fresh(buckets))
      ensures r == Lookup(old(contents), key) && contents == old(contents)[key := value]
      // growing is the last resort of a table with no free slot at all
      ensures old(len) < old(buckets.Length) ==> buckets == old(buckets)
      ensures old(NoTombstones(buckets[..])) ==> NoTombstones(buckets[..])
      decreases if len == buckets.Length then 2 else 0
    {
      hide Home, Next, Dist, Table, Searched, NoneDeleted, NumOccupied, IsPow2, NoTombstones;
      ghost var s := buckets[..];
      var n := buckets.Length;
      var h := Home(hash, key, n);
      var index: nat := h;
      var firstDeleted: Option<nat> := None;
      SearchStart(buckets[..], h, key);
      for step := 0 to n
        invariant index < n && (step < n ==> Dist(h, index, n) == step)
        invariant unchanged(this) && unchanged(old(buckets)) && buckets[..] == s && Table(s, hash, contents)
        invariant Searched(buckets[..], h, key, step)
        invariant firstDeleted.Some? ==> firstDeleted.value < n && Dist(h, firstDeleted.value, n) < step
                                         && buckets[firstDeleted.value] == Deleted
        invariant firstDeleted.None? ==> NoneDeleted(buckets[..], h, step)
      {
        match buckets[index] {
          case Empty =>
            Absent(buckets[..], hash, contents, key, step);
            var target := if firstDeleted.Some? then firstDeleted.value else index;
            SearchPrefix(s, h, key, Dist(h, target, n), step);
            Place(key, value, target);
            return None;
          case Deleted =>
            if firstDeleted.None? { firstDeleted := Some(index); }
          case Occupied(k, v) =>
            if k == key {
              Found(buckets[..], hash, contents, index);
              ReplaceKeepsTable(buckets[..], hash, contents, value, index);
              buckets[index] := Occupied(k, value);
              assert buckets[..] == s[index := Occupied(k, value)];
              contents := contents[key := value];
              TableCount(buckets[..], hash, contents);
              return Some(v);
            }
        }
        SearchStep(buckets[..], h, key, step, index);
        index := Next(index, n);
      }
      Absent(buckets[..], hash, contents, key, n);
      if firstDeleted.Some? {
        SearchPrefix(s, h, key, Dist(h, firstDeleted.value, n), n);
        Place(key, value, firstDeleted.value);
        return None;
      }
      FullTableCount(s, h, key);
      Resize();
      r := InsertInternal(key, value);
    }

    /** Re-inserts every occupied entry into a table twice as large, dropping tombstones. */
    method Resize()
      requires Valid()
      modifies this
      ensures Valid() && fresh(buckets)
      ensures contents == old(contents) && buckets.Length == 2 * old(buckets.Length)
      ensures NoTombstones(buckets[..])
      decreases 1
    {
      hide Home, Next, Dist, Table, Searched, NumOccupied, IsPow2, NoTombstones, Agrees;
      ghost var s := buckets[..];
      var newMap := new HashMap.WithCapacity(hash, buckets.Length * 2);
      Pow2IsItsOwnNext(1, buckets.Length * 2);
      DrainStart(s);
      for i := 0 to buckets.Length
        invariant unchanged(this) && buckets[..] == s
        invariant newMap.Valid() && newMap.hash == hash && fresh(newMap) && fresh(newMap.buckets)
        invariant newMap.buckets.Length == 2 * buckets.Length && newMap.len <= i
        invariant Agrees(s[..i], newMap.contents) && NoTombstones(newMap.buckets[..])
      {
        DrainStep(s, hash, contents, i, newMap.contents);
        if buckets[i].Occupied? {
          var _ := newMap.InsertInternal(buckets[i].key, buckets[i].value);
        }
      }
      assert s[..|s|] == s;
      DrainedAll(s, hash, contents, newMap.contents);
      buckets := newMap.buckets;
      len := newMap.len;
    }

    method Insert(key: string, value: int) returns (r: Option<int>)
      requires Valid() && UnderLoad()
      modifies this, buckets
      ensures Valid() && UnderLoad() && (buckets == old(buckets) || fresh(buckets))
      ensures r == Lookup(old(contents), key) && contents == old(contents)[key := value]
      // the only growth is the one the load test asks for
      ensures buckets.Length == if (old(len) + 1) * 100 / old(buckets.Length) >= 70 then 2 * old(buckets.Length)
                                else old(buckets.Length)
    {
      if (len + 1) * 100 / buckets.Length >= 70 {
        Resize();
      } else {
        LoadTest((len + 1) * 100, buckets.Length);
      }
      r := InsertInternal(key, value);
    }
  }

  lemma LoadTest(scaled: nat, n: nat)
    requires 0 < n && scaled / n < 70
    ensures scaled < 70 * n
  {
    assert scaled == n * (scaled / n) + scaled % n;
    assert n * (scaled / n) <= n * 69;
  }

  /** A call on the table, as a client makes it. */
  datatype Call = Insert(key: string, value: int) | Get(key: string) | Remove(key: string)

  /** What a call leaves in a plain map. */
  function After(call: Call, m: map<string, int>): map<string, int> {
    match call
    case Insert(k, v) => m[k := v]
    case Get(_) => m
    case Remove(k) => m - {k}
  }

  /** What a plain map answers to a run of calls. */
  function MapRun(calls: seq<Call>, m: map<string, int>): (answers: seq<Option<int>>)
    ensures |answers| == |calls|
  {
    if calls == [] then [] else [Lookup(m, calls[0].key)] + MapRun(calls[1..], After(calls[0], m))
  }

  method Answer(t: HashMap, call: Call) returns (answer: Option<int>)
    requires t.Valid() && t.UnderLoad()
    modifies t, t.buckets
    ensures t.Valid() && t.UnderLoad() && (t.buckets == old(t.buckets) || fresh(t.buckets))
    ensures answer == Lookup(old(t.contents), call.key) && t.contents == After(call, old(t.contents))
  {
    hide HashMap.Valid, HashMap.UnderLoad;
    match call {
      case Insert(k, v) => answer := t.Insert(k, v);
      case Get(k) => answer := t.Get(k);
      case Remove(k) => answer := t.Remove(k);
    }
  }

  /** Every run of calls on a table of any capacity and any hash function answers as a plain map does. */
  method Run(hash: Hash, capacity: nat, calls: seq<Call>) returns (answers: seq<Option<int>>)
    ensures answers == MapRun(calls, map[])
  {
    hide HashMap.Valid, HashMap.UnderLoad, NextPow2From, After;
    var t := new HashMap.WithCapacity(hash, capacity);
    answers := [];
    for i := 0 to |calls|
      invariant t.Valid() && t.UnderLoad() && fresh(t) && fresh(t.buckets)
      invariant answers + MapRun(calls[i..], t.contents) == MapRun(calls, map[])
    {
      ghost var rest := MapRun(calls[i..], t.contents);
      assert calls[i..][1..] == calls[i + 1..];
      var answer := Answer(t, calls[i]);
      assert rest == [answer] + MapRun(calls[i + 1..], t.contents);
      answers := answers + [answer];
    }
  }
}
