/** When the messages of a topic are in number order: the publishers of apps/agent-relay/src/bus.rs, interleaved. */
module BusOrder {
  import opened Prelude
  import opened Bus

  ghost predicate Ascending(log: seq<Envelope>) {
    forall x, y :: 0 <= x < y < |log| ==> log[x].number < log[y].number
  }

  predicate TakesOn(a: Action, topic: string) { a.PubTake? && a.topic == topic }

  /** Two publishes on the topic are pushed in the opposite order to the one they took their numbers in. */
  ghost predicate Crossed(acts: seq<Action>, topic: string) {
    exists i: nat, j: nat, k: nat, l: nat :: Cross(acts, topic, i, j, k, l)
  }

  ghost predicate Cross(acts: seq<Action>, topic: string, i: nat, j: nat, k: nat, l: nat) {
    && i < j < |acts| && k < l < |acts|
    && TakesOn(acts[i], topic) && TakesOn(acts[j], topic)
    && acts[k] == PubPush(acts[j].call) && acts[l] == PubPush(acts[i].call)
  }

  // ---- Takes ----

  /** Step `i` gave call `p` the number in `e`. */
  ghost predicate Gave(capacity: nat, acts: seq<Action>, i: nat, p: nat, e: Envelope)
    requires Legal(capacity, acts)
  {
    i < |acts| && TakesOn(acts[i], e.topic) && acts[i].call == p && e.number == At(capacity, acts, i).bus.nextSeq
  }

  /** Every numbered call took its number at some step. */
  lemma {:induction false} TakenAt(capacity: nat, acts: seq<Action>, n: nat, p: nat) returns (i: nat)
    requires Legal(capacity, acts) && n <= |acts|
    requires p in At(capacity, acts, n).calls && HasNumber(At(capacity, acts, n).calls[p])
    ensures i < n && Gave(capacity, acts, i, p, At(capacity, acts, n).calls[p].e)
  {
    if n == 0 {
      assert false;
    } else {
      AtStep(capacity, acts, n - 1);
      var s, a := At(capacity, acts, n - 1), acts[n - 1];
      hide Exec, Legal;
      if a.PubTake? && a.call == p {
        i := n - 1;
      } else {
        NumberIsOld(s, a, p);
        i := TakenAt(capacity, acts, n - 1, p);
      }
    }
  }

  lemma NumberIsOld(s: System, a: Action, p: nat)
    requires Enabled(s, a) && !(a.PubTake? && a.call == p)
    requires p in Step(s, a).calls && HasNumber(Step(s, a).calls[p])
    ensures p in s.calls && HasNumber(s.calls[p]) && s.calls[p].e == Step(s, a).calls[p].e
  {
  }

  lemma {:induction false} TakenGrows(capacity: nat, acts: seq<Action>, m: nat, n: nat)
    requires Legal(capacity, acts) && m <= n <= |acts|
    ensures At(capacity, acts, m).taken <= At(capacity, acts, n).taken
    ensures m < n && acts[m].PubTake? ==> At(capacity, acts, m).taken < At(capacity, acts, n).taken
    decreases n - m
  {
    if m < n {
      AtStep(capacity, acts, m);
      hide Exec, Legal;
      TakenGrows(capacity, acts, m + 1, n);
    }
  }

  /** Below the wrap, later takes give greater numbers. */
  lemma LaterTakeIsGreater(capacity: nat, acts: seq<Action>, i: nat, j: nat)
    requires Legal(capacity, acts) && At(capacity, acts, |acts|).taken < U64 - 1
    requires i < j < |acts| && acts[i].PubTake?
    ensures At(capacity, acts, i).bus.nextSeq < At(capacity, acts, j).bus.nextSeq
  {
    hide Exec, Legal, HasNumber;
    TakenGrows(capacity, acts, j, |acts|);
    TakenGrows(capacity, acts, i, j);
    NumbersAreUnique(capacity, acts, i);
    NumbersAreUnique(capacity, acts, j);
  }

  /** A call takes at most one number and pushes at most once. */
  lemma CallOnce(capacity: nat, acts: seq<Action>, i: nat, j: nat)
    requires Legal(capacity, acts) && i < j < |acts|
    ensures acts[i].PubTake? && acts[j].PubTake? ==> acts[i].call != acts[j].call
    ensures acts[i].PubPush? && acts[j].PubPush? ==> acts[i].call != acts[j].call
  {
    AtStep(capacity, acts, i);
    AtStep(capacity, acts, j);
    var c := match acts[i] case PubTake(c, _, _) => c case PubPush(c) => c case _ => 0;
    hide Exec, Legal;
    if c in At(capacity, acts, i + 1).calls {
      CallKeeps(capacity, acts, i + 1, j, c);
    }
  }

  // ---- Pushes ----

  ghost predicate PushesOn(capacity: nat, acts: seq<Action>, k: nat, topic: string)
    requires Legal(capacity, acts)
  {
    k < |acts| && acts[k].PubPush? && var p := Lookup(At(capacity, acts, k).calls, acts[k].call);
    p.Some? && p.value.Numbered? && p.value.e.topic == topic
  }

  ghost function PushedAt(capacity: nat, acts: seq<Action>, k: nat): Envelope
    requires Legal(capacity, acts) && k < |acts| && acts[k].PubPush?
  {
    AtStep(capacity, acts, k);
    At(capacity, acts, k).calls[acts[k].call].e
  }

  /** The steps that pushed the messages of a topic, in order. */
  ghost function PushSteps(capacity: nat, acts: seq<Action>, n: nat, topic: string): seq<nat>
    requires Legal(capacity, acts) && n <= |acts|
  {
    if n == 0 then [] else
    PushSteps(capacity, acts, n - 1, topic) + if PushesOn(capacity, acts, n - 1, topic) then [n - 1] else []
  }

  /** `steps` are the pushes that made `log`. */
  ghost predicate Made(capacity: nat, acts: seq<Action>, topic: string, n: nat, steps: seq<nat>, log: seq<Envelope>)
    requires Legal(capacity, acts)
  {
    && |steps| == |log|
    && (forall x :: 0 <= x < |steps| ==>
          steps[x] < n && PushesOn(capacity, acts, steps[x], topic) && PushedAt(capacity, acts, steps[x]) == log[x])
    && (forall x, y :: 0 <= x < y < |steps| ==> steps[x] < steps[y])
    && (forall k: nat :: k < n && PushesOn(capacity, acts, k, topic) ==> k in steps)
  }

  lemma {:induction false} StepsMakeLog(capacity: nat, acts: seq<Action>, n: nat, topic: string)
    requires Legal(capacity, acts) && n <= |acts|
    ensures Made(capacity, acts, topic, n, PushSteps(capacity, acts, n, topic),
                 OnTopic(At(capacity, acts, n).log, topic))
  {
    hide Exec, Legal, OnTopic, PushesOn, PushedAt, At, Made;
    if n > 0 {
      StepsMakeLog(capacity, acts, n - 1, topic);
      LogStep(capacity, acts, n - 1, topic);
      MadeStep(capacity, acts, topic, n - 1, PushSteps(capacity, acts, n - 1, topic),
               OnTopic(At(capacity, acts, n - 1).log, topic));
    } else {
      NothingMade(capacity, acts, topic);
    }
  }

  lemma NothingMade(capacity: nat, acts: seq<Action>, topic: string)
    requires Legal(capacity, acts)
    ensures Made(capacity, acts, topic, 0, [], OnTopic(At(capacity, acts, 0).log, topic))
  {
    hide PushesOn, PushedAt;
  }

  lemma LogStep(capacity: nat, acts: seq<Action>, k: nat, topic: string)
    requires Legal(capacity, acts) && k < |acts|
    ensures OnTopic(At(capacity, acts, k + 1).log, topic)
            == OnTopic(At(capacity, acts, k).log, topic)
               + if PushesOn(capacity, acts, k, topic) then [PushedAt(capacity, acts, k)] else []
  {
    AtStep(capacity, acts, k);
    hide Exec, Legal;
    var s := At(capacity, acts, k);
    if acts[k].PubPush? {
      assert (s.log + [s.calls[acts[k].call].e])[..|s.log|] == s.log;
    }
  }

  lemma MadeStep(capacity: nat, acts: seq<Action>, topic: string, n: nat, steps: seq<nat>, log: seq<Envelope>)
    requires Legal(capacity, acts) && n < |acts| && Made(capacity, acts, topic, n, steps, log)
    ensures Made(capacity, acts, topic, n + 1,
                 steps + (if PushesOn(capacity, acts, n, topic) then [n] else []),
                 log + (if PushesOn(capacity, acts, n, topic) then [PushedAt(capacity, acts, n)] else []))
  {
    hide PushesOn, PushedAt, Legal;
    var more := steps + if PushesOn(capacity, acts, n, topic) then [n] else [];
    forall k: nat | k < n + 1 && PushesOn(capacity, acts, k, topic) ensures k in more {
      if k == n {
        assert more[|steps|] == n;
      }
    }
  }

  // ---- Order ----

  lemma PushOfTake(capacity: nat, acts: seq<Action>, topic: string, i: nat, k: nat)
    requires Legal(capacity, acts) && i < |acts| && k < |acts| && TakesOn(acts[i], topic)
            && acts[k] == PubPush(acts[i].call)
    ensures PushesOn(capacity, acts, k, topic)
    ensures PushedAt(capacity, acts, k).number == At(capacity, acts, i).bus.nextSeq
  {
    AtStep(capacity, acts, k);
    hide Exec, Legal;
    var p := acts[i].call;
    var t := TakenAt(capacity, acts, k, p);
    if t < i {
      CallOnce(capacity, acts, t, i);
    } else if i < t {
      CallOnce(capacity, acts, i, t);
    }
  }

  lemma TakeOfPush(capacity: nat, acts: seq<Action>, topic: string, k: nat) returns (i: nat)
    requires Legal(capacity, acts) && PushesOn(capacity, acts, k, topic)
    ensures i < |acts| && TakesOn(acts[i], topic) && acts[k] == PubPush(acts[i].call)
    ensures PushedAt(capacity, acts, k).number == At(capacity, acts, i).bus.nextSeq
  {
    i := TakenAt(capacity, acts, k, acts[k].call);
  }

  /** Where the two pushes of a crossing are in the log: a descent. */
  lemma CrossingDescends(capacity: nat, acts: seq<Action>, topic: string, i: nat, j: nat, k: nat, l: nat)
    returns (x: nat, y: nat)
    requires Legal(capacity, acts) && At(capacity, acts, |acts|).taken < U64 - 1 && Cross(acts, topic, i, j, k, l)
    ensures var steps, log := PushSteps(capacity, acts, |acts|, topic), OnTopic(At(capacity, acts, |acts|).log, topic);
            x < y < |steps| == |log| && steps[x] == k && steps[y] == l && log[y].number < log[x].number
  {
    hide Exec, Legal, OnTopic, PushesOn, PushedAt, At, PushSteps;
    StepsMakeLog(capacity, acts, |acts|, topic);
    PushOfTake(capacity, acts, topic, i, l);
    PushOfTake(capacity, acts, topic, j, k);
    LaterTakeIsGreater(capacity, acts, i, j);
    var steps := PushSteps(capacity, acts, |acts|, topic);
    x :| 0 <= x < |steps| && steps[x] == k;
    y :| 0 <= y < |steps| && steps[y] == l;
  }

  lemma DescentIsCrossing(capacity: nat, acts: seq<Action>, topic: string, k: nat, l: nat) returns (i: nat, j: nat)
    requires Legal(capacity, acts) && At(capacity, acts, |acts|).taken < U64 - 1 && k < l
    requires PushesOn(capacity, acts, k, topic) && PushesOn(capacity, acts, l, topic)
    requires PushedAt(capacity, acts, l).number <= PushedAt(capacity, acts, k).number
    ensures Cross(acts, topic, i, j, k, l)
  {
    j := TakeOfPush(capacity, acts, topic, k);
    i := TakeOfPush(capacity, acts, topic, l);
    CallOnce(capacity, acts, k, l);
    hide Exec, Legal, PushesOn, PushedAt, At;
    if j < i {
      LaterTakeIsGreater(capacity, acts, j, i);
    }
  }

  /** The step that pushed message `from` of the topic; there is none after the last one. */
  ghost function FirstStep(capacity: nat, acts: seq<Action>, topic: string, from: nat): nat
    requires Legal(capacity, acts)
  {
    var steps := PushSteps(capacity, acts, |acts|, topic);
    if from < |steps| then steps[from] else |acts|
  }

  /** Two publishes cross, both of them pushed no earlier than step `first`. */
  ghost predicate CrossedSince(acts: seq<Action>, topic: string, first: nat) {
    exists i: nat, j: nat, k: nat, l: nat :: first <= k && Cross(acts, topic, i, j, k, l)
  }

  /**
   Below the wrap, the messages pushed on a topic from number `from` on ascend in sequence number exactly when no two
   publishes among them are pushed in the opposite order to the one they took their numbers in.
   */
  lemma SuffixAscendsIff(capacity: nat, acts: seq<Action>, topic: string, from: nat)
    requires Legal(capacity, acts) && At(capacity, acts, |acts|).taken < U64 - 1
    requires from <= |OnTopic(At(capacity, acts, |acts|).log, topic)|
    ensures Ascending(OnTopic(At(capacity, acts, |acts|).log, topic)[from..])
            <==> !CrossedSince(acts, topic, FirstStep(capacity, acts, topic, from))
  {
    hide Exec, Legal, OnTopic, PushesOn, PushedAt, At, PushSteps, Cross;
    StepsMakeLog(capacity, acts, |acts|, topic);
    var steps, log := PushSteps(capacity, acts, |acts|, topic), OnTopic(At(capacity, acts, |acts|).log, topic);
    var first, kept := FirstStep(capacity, acts, topic, from), log[from..];
    if CrossedSince(acts, topic, first) {
      var i: nat, j: nat, k: nat, l: nat :| first <= k && Cross(acts, topic, i, j, k, l);
      var x, y := CrossingDescends(capacity, acts, topic, i, j, k, l);
      LaterStepsOnly(steps, from, first, x, |acts|);
      assert kept[x - from] == log[x] && kept[y - from] == log[y];
    }
    if !Ascending(kept) {
      var x, y :| 0 <= x < y < |kept| && kept[y].number <= kept[x].number;
      assert kept[x] == log[from + x] && kept[y] == log[from + y];
      var i, j := DescentIsCrossing(capacity, acts, topic, steps[from + x], steps[from + y]);
      assert first <= steps[from + x];
    }
  }

  lemma LaterStepsOnly(steps: seq<nat>, from: nat, first: nat, x: nat, n: nat)
    requires x < |steps| && forall y, z :: 0 <= y < z < |steps| ==> steps[y] < steps[z]
    requires first == if from < |steps| then steps[from] else n
    requires first <= steps[x] < n
    ensures from <= x
  {
  }

  lemma CrossedSinceAny(capacity: nat, acts: seq<Action>, topic: string)
    requires Legal(capacity, acts) && At(capacity, acts, |acts|).taken < U64 - 1
    ensures CrossedSince(acts, topic, FirstStep(capacity, acts, topic, 0)) <==> Crossed(acts, topic)
  {
    hide Exec, Legal, OnTopic, PushesOn, PushedAt, At, PushSteps, Cross;
    StepsMakeLog(capacity, acts, |acts|, topic);
    if Crossed(acts, topic) {
      var i: nat, j: nat, k: nat, l: nat :| Cross(acts, topic, i, j, k, l);
      var x, y := CrossingDescends(capacity, acts, topic, i, j, k, l);
      assert FirstStep(capacity, acts, topic, 0) <= k;
    }
  }

  /** Of all the messages ever pushed on a topic: they ascend exactly when no two publishes on it cross. */
  lemma AscendingIffUncrossed(capacity: nat, acts: seq<Action>, topic: string)
    requires Legal(capacity, acts) && At(capacity, acts, |acts|).taken < U64 - 1
    ensures Ascending(OnTopic(At(capacity, acts, |acts|).log, topic)) <==> !Crossed(acts, topic)
  {
    hide Exec, Legal, OnTopic, At, FirstStep, CrossedSince, Crossed;
    var log := OnTopic(At(capacity, acts, |acts|).log, topic);
    assert log[0..] == log;
    SuffixAscendsIff(capacity, acts, topic, 0);
    CrossedSinceAny(capacity, acts, topic);
  }

  /** The number, among the messages of the topic, of the oldest one its ring still holds. */
  ghost function OldestHeld(capacity: nat, acts: seq<Action>, topic: string): nat
    requires Legal(capacity, acts)
  {
    var pushed := |OnTopic(At(capacity, acts, |acts|).log, topic)|;
    if pushed <= Max(1, capacity) then 0 else pushed - Max(1, capacity)
  }

  /** The ring ascends exactly when no two of the publishes whose messages it still holds cross. */
  lemma RingAscendsIff(capacity: nat, acts: seq<Action>, topic: string)
    requires Legal(capacity, acts) && At(capacity, acts, |acts|).taken < U64 - 1
    ensures Ascending(Ring(At(capacity, acts, |acts|).bus, topic))
            <==> !CrossedSince(acts, topic, FirstStep(capacity, acts, topic, OldestHeld(capacity, acts, topic)))
  {
    hide Exec, Legal, OnTopic, At, FirstStep, CrossedSince, Ring;
    RingIsLastPushes(capacity, acts, |acts|, topic);
    var log, from := OnTopic(At(capacity, acts, |acts|).log, topic), OldestHeld(capacity, acts, topic);
    assert LastN(log, Max(1, capacity)) == log[from..];
    SuffixAscendsIff(capacity, acts, topic, from);
  }

  /** At most one publish on the topic is between its number and its push at any time. */
  ghost predicate OneAtATime(acts: seq<Action>, topic: string) {
    forall i: nat, j: nat | i < j < |acts| && TakesOn(acts[i], topic) && TakesOn(acts[j], topic) ::
      exists k :: i < k < j && acts[k] == PubPush(acts[i].call)
  }

  /** What a caller can arrange: one publish in flight per topic keeps the whole topic, and its ring, in number
      order. */
  lemma OneAtATimeAscends(capacity: nat, acts: seq<Action>, topic: string)
    requires Legal(capacity, acts) && At(capacity, acts, |acts|).taken < U64 - 1 && OneAtATime(acts, topic)
    ensures Ascending(OnTopic(At(capacity, acts, |acts|).log, topic))
    ensures Ascending(Ring(At(capacity, acts, |acts|).bus, topic))
  {
    hide Exec, Legal, OnTopic, At, Ring;
    if Crossed(acts, topic) {
      var i: nat, j: nat, k: nat, l: nat :| Cross(acts, topic, i, j, k, l);
      var m :| i < m < j && acts[m] == PubPush(acts[i].call);
      TakeBeforePush(capacity, acts, topic, j, k);
      CallOnce(capacity, acts, m, l);
      assert false;
    }
    AscendingIffUncrossed(capacity, acts, topic);
    RingIsLastPushes(capacity, acts, |acts|, topic);
    LastAscends(OnTopic(At(capacity, acts, |acts|).log, topic), Max(1, capacity));
  }

  lemma TakeBeforePush(capacity: nat, acts: seq<Action>, topic: string, j: nat, k: nat)
    requires Legal(capacity, acts) && j < |acts| && k < |acts| && TakesOn(acts[j], topic)
            && acts[k] == PubPush(acts[j].call)
    ensures j < k
  {
    AtStep(capacity, acts, k);
    var t := TakenAt(capacity, acts, k, acts[j].call);
    hide Exec, Legal, At;
    if t < j {
      CallOnce(capacity, acts, t, j);
    }
  }

  lemma LastAscends(log: seq<Envelope>, n: nat)
    requires Ascending(log)
    ensures Ascending(LastN(log, n))
  {
  }
}
