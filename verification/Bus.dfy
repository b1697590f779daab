/**
 The relay's topic bus, apps/agent-relay/src/bus.rs.
 Every lock-protected critical section is one atomic step; `subscribe` and `publish` are several steps
 that other threads may interleave with.
 */
module Bus {
  import opened Prelude

  /** The payload stands for every other field of a topic envelope. */
  datatype Envelope = Envelope(topic: string, payload: string, number: nat)

  const U64: nat := 0x1_0000_0000_0000_0000

  datatype State = State(
    capacity: nat,
    subscriptions: map<string, seq<string>>,
    rings: map<string, seq<Envelope>>,
    nextSeq: nat)

  function Subscribers(s: State, topic: string): seq<string> {
    if topic in s.subscriptions then s.subscriptions[topic] else []
  }

  function Ring(s: State, topic: string): seq<Envelope> {
    if topic in s.rings then s.rings[topic] else []
  }

  function Without(agents: seq<string>, agent: string): (r: seq<string>)
    ensures forall x :: x in r <==> x in agents && x != agent
  {
    if agents == [] then [] else
    (if agents[0] == agent then [] else [agents[0]]) + Without(agents[1..], agent)
  }

  // ---- The atomic steps ----

  function AddSubscriber(s: State, agent: string, topic: string): State {
    var agents := Subscribers(s, topic);
    s.(subscriptions := s.subscriptions[topic := if agent in agents then agents else agents + [agent]])
  }

  function RemoveSubscriber(s: State, agent: string, topic: string): State {
    if topic !in s.subscriptions then s else
    var left := Without(s.subscriptions[topic], agent);
    s.(subscriptions := if left == [] then s.subscriptions - {topic} else s.subscriptions[topic := left])
  }

  function RemoveEverywhere(s: State, agent: string): State {
    s.(subscriptions := map t | t in s.subscriptions && Without(s.subscriptions[t], agent) != []
                            :: Without(s.subscriptions[t], agent))
  }

  /** `fetch_add` returns the old value and wraps. */
  function TakeSeq(s: State): (nat, State) {
    (s.nextSeq, s.(nextSeq := (s.nextSeq + 1) % U64))
  }

  function PushRing(s: State, e: Envelope): State {
    var ring := Ring(s, e.topic);
    var room := if |ring| >= s.capacity && ring != [] then ring[1..] else ring;
    s.(rings := s.rings[e.topic := room + [e]])
  }

  class TopicBus {
    const ringCapacity: nat
    var subscriptions: map<string, seq<string>>
    var rings: map<string, seq<Envelope>>
    var seqCounter: nat

    function Model(): State
      reads this
    {
      State(ringCapacity, subscriptions, rings, seqCounter)
    }

    constructor (ringCapacity: nat)
      ensures Model() == Init(ringCapacity)
    {
      this.ringCapacity := ringCapacity;
      subscriptions := map[];
      rings := map[];
      seqCounter := 1;
    }

    method Subscribe(agent: string, topic: string) returns (replay: seq<Envelope>)
      modifies this
      ensures Model() == AddSubscriber(old(Model()), agent, topic) && replay == Ring(Model(), topic)
    {
      if topic !in subscriptions {
        subscriptions := subscriptions[topic := []];
      }
      if agent !in subscriptions[topic] {
        subscriptions := subscriptions[topic := subscriptions[topic] + [agent]];
      }
      replay := if topic in rings then rings[topic] else [];
    }

    method Unsubscribe(agent: string, topic: string)
      modifies this
      ensures Model() == RemoveSubscriber(old(Model()), agent, topic)
    {
      if topic in subscriptions {
        subscriptions := subscriptions[topic := Without(subscriptions[topic], agent)];
        if subscriptions[topic] == [] {
          subscriptions := subscriptions - {topic};
        }
      }
    }

    method UnsubscribeAll(agent: string)
      modifies this
      ensures Model() == RemoveEverywhere(old(Model()), agent)
    {
      var topics := subscriptions.Keys;
      ghost var before := subscriptions;
      while topics != {}
        invariant topics <= before.Keys && subscriptions.Keys <= before.Keys
        invariant rings == old(rings) && seqCounter == old(seqCounter)
        invariant forall t :: t in topics ==> t in subscriptions && subscriptions[t] == before[t]
        invariant forall t :: t in before && t !in topics ==>
          (t in subscriptions <==> Without(before[t], agent) != []) &&
          (t in subscriptions ==> subscriptions[t] == Without(before[t], agent))
      {
        var t :| t in topics;
        var left := Without(subscriptions[t], agent);
        subscriptions := if left == [] then subscriptions - {t} else subscriptions[t := left];
        topics := topics - {t};
      }
    }

    method Publish(topic: string, payload: string) returns (seqNo: nat, subscribers: seq<string>)
      modifies this
      ensures seqNo == old(seqCounter)
      ensures Model() == PushRing(TakeSeq(old(Model())).1, Envelope(topic, payload, seqNo))
      ensures subscribers == Subscribers(old(Model()), topic)
    {
      seqNo := seqCounter;
      seqCounter := (seqCounter + 1) % U64;
      var ring := if topic in rings then rings[topic] else [];
      if |ring| >= ringCapacity && ring != [] {
        ring := ring[1..];
      }
      rings := rings[topic := ring + [Envelope(topic, payload, seqNo)]];
      subscribers := if topic in subscriptions then subscriptions[topic] else [];
    }
  }

  // ---- The interleaved system ----

  /** How far a call in flight, or finished, has come. */
  datatype Phase =
    | Added(agent: string, topic: string)
    | Replayed(agent: string, topic: string, replay: seq<Envelope>)
    | Numbered(e: Envelope)
    | Pushed(e: Envelope)
    | FannedOut(e: Envelope, to: seq<string>)

  /** One atomic step of some thread; `call` names the call it belongs to. */
  datatype Action =
    | SubAdd(call: nat, agent: string, topic: string)
    | SubRead(call: nat)
    | PubTake(call: nat, topic: string, payload: string)
    | PubPush(call: nat)
    | PubFan(call: nat)
    | Unsub(agent: string, topic: string)
    | UnsubAll(agent: string)

  /** `log` records every push ever made, `taken` how many sequence numbers were handed out. */
  datatype System = System(bus: State, calls: map<nat, Phase>, log: seq<Envelope>, taken: nat)

  function Init(capacity: nat): State { State(capacity, map[], map[], 1) }

  predicate Enabled(s: System, a: Action) {
    match a
    case SubAdd(c, _, _) => c !in s.calls
    case SubRead(c) => c in s.calls && s.calls[c].Added?
    case PubTake(c, _, _) => c !in s.calls
    case PubPush(c) => c in s.calls && s.calls[c].Numbered?
    case PubFan(c) => c in s.calls && s.calls[c].Pushed?
    case Unsub(_, _) => true
    case UnsubAll(_) => true
  }

  function Step(s: System, a: Action): System
    requires Enabled(s, a)
  {
    match a
    case SubAdd(c, agent, topic) =>
      s.(bus := AddSubscriber(s.bus, agent, topic), calls := s.calls[c := Added(agent, topic)])
    case SubRead(c) =>
      var p := s.calls[c];
      s.(calls := s.calls[c := Replayed(p.agent, p.topic, Ring(s.bus, p.topic))])
    case PubTake(c, topic, payload) =>
      var (n, bus) := TakeSeq(s.bus);
      s.(bus := bus, calls := s.calls[c := Numbered(Envelope(topic, payload, n))], taken := s.taken + 1)
    case PubPush(c) =>
      var e := s.calls[c].e;
      s.(bus := PushRing(s.bus, e), calls := s.calls[c := Pushed(e)], log := s.log + [e])
    case PubFan(c) =>
      var e := s.calls[c].e;
      s.(calls := s.calls[c := FannedOut(e, Subscribers(s.bus, e.topic))])
    case Unsub(agent, topic) => s.(bus := RemoveSubscriber(s.bus, agent, topic))
    case UnsubAll(agent) => s.(bus := RemoveEverywhere(s.bus, agent))
  }

  /** `Some` state after a run of enabled steps, `None` if some step was not enabled. */
  function Exec(capacity: nat, acts: seq<Action>): Option<System> {
    if acts == [] then Some(System(Init(capacity), map[], [], 0)) else
    var before := Exec(capacity, acts[..|acts| - 1]);
    if before.Some? && Enabled(before.value, acts[|acts| - 1])
    then Some(Step(before.value, acts[|acts| - 1])) else None
  }

  ghost predicate Legal(capacity: nat, acts: seq<Action>) { Exec(capacity, acts).Some? }

  /** The state in which step `n` of the run is taken. */
  ghost function At(capacity: nat, acts: seq<Action>, n: nat): System
    requires Legal(capacity, acts) && n <= |acts|
  {
    LegalPrefix(capacity, acts, n);
    Exec(capacity, acts[..n]).value
  }

  lemma {:induction false} LegalPrefix(capacity: nat, acts: seq<Action>, n: nat)
    requires Legal(capacity, acts) && n <= |acts|
    ensures Legal(capacity, acts[..n])
  {
    if n < |acts| {
      LegalPrefix(capacity, acts[..|acts| - 1], n);
      assert acts[..|acts| - 1][..n] == acts[..n];
    } else {
      assert acts[..n] == acts;
    }
  }

  lemma AtStep(capacity: nat, acts: seq<Action>, n: nat)
    requires Legal(capacity, acts) && n < |acts|
    ensures Enabled(At(capacity, acts, n), acts[n])
    ensures At(capacity, acts, n + 1) == Step(At(capacity, acts, n), acts[n])
  {
    LegalPrefix(capacity, acts, n + 1);
    assert acts[..n + 1][..n] == acts[..n];
  }

  // ---- Rings ----

  function OnTopic(log: seq<Envelope>, topic: string): (r: seq<Envelope>)
    ensures |r| <= |log|
  {
    if log == [] then [] else
    OnTopic(log[..|log| - 1], topic) + if log[|log| - 1].topic == topic then [log[|log| - 1]] else []
  }

  function LastN<T>(s: seq<T>, n: nat): seq<T> { if |s| <= n then s else s[|s| - n..] }

  lemma PushKeepsLast(s: State, e: Envelope, pushed: seq<Envelope>)
    requires Ring(s, e.topic) == LastN(pushed, Max(1, s.capacity))
    ensures Ring(PushRing(s, e), e.topic) == LastN(pushed + [e], Max(1, s.capacity))
  {
    var n := Max(1, s.capacity);
    if |pushed| >= n {
      assert (pushed + [e])[|pushed| + 1 - n..] == pushed[|pushed| - n..][1..] + [e];
    } else {
      assert LastN(pushed + [e], n) == pushed + [e];
    }
  }

  /** Each ring is the last max(1, capacity) pushes on its topic. */
  lemma {:induction false} RingIsLastPushes(capacity: nat, acts: seq<Action>, n: nat, topic: string)
    requires Legal(capacity, acts) && n <= |acts|
    ensures Ring(At(capacity, acts, n).bus, topic) == LastN(OnTopic(At(capacity, acts, n).log, topic), Max(1, capacity))
    ensures At(capacity, acts, n).bus.capacity == capacity
  {
    if n > 0 {
      hide Exec, Step, LastN, Ring, OnTopic;
      RingIsLastPushes(capacity, acts, n - 1, topic);
      AtStep(capacity, acts, n - 1);
      StepKeepsRing(At(capacity, acts, n - 1), acts[n - 1], topic);
    }
  }

  lemma StepKeepsRing(s: System, a: Action, topic: string)
    requires Enabled(s, a) && Ring(s.bus, topic) == LastN(OnTopic(s.log, topic), Max(1, s.bus.capacity))
    ensures var t := Step(s, a);
            t.bus.capacity == s.bus.capacity
              && Ring(t.bus, topic) == LastN(OnTopic(t.log, topic), Max(1, s.bus.capacity))
  {
    hide LastN, OnTopic;
    if a.PubPush? {
      hide Ring, PushRing;
      PushKeepsRing(s, a.call, topic);
    } else {
      OtherStepsKeepRings(s, a);
    }
  }

  /** Only a push touches the log and the rings. */
  lemma OtherStepsKeepRings(s: System, a: Action)
    requires Enabled(s, a) && !a.PubPush?
    ensures var t := Step(s, a); t.log == s.log && t.bus.rings == s.bus.rings && t.bus.capacity == s.bus.capacity
  {
    hide Without;
  }

  lemma PushKeepsRing(s: System, call: nat, topic: string)
    requires Enabled(s, PubPush(call)) && Ring(s.bus, topic) == LastN(OnTopic(s.log, topic), Max(1, s.bus.capacity))
    ensures var t := Step(s, PubPush(call));
            t.bus.capacity == s.bus.capacity
              && Ring(t.bus, topic) == LastN(OnTopic(t.log, topic), Max(1, s.bus.capacity))
  {
    hide LastN;
    var e := s.calls[call].e;
    OnTopicMore(s.log, e, topic);
    hide OnTopic;
    if e.topic == topic {
      PushKeepsLast(s.bus, e, OnTopic(s.log, topic));
    }
  }

  lemma OnTopicMore(log: seq<Envelope>, e: Envelope, topic: string)
    ensures OnTopic(log + [e], topic) == if e.topic == topic then OnTopic(log, topic) + [e] else OnTopic(log, topic)
  {
    assert (log + [e])[..|log|] == log;
    assert OnTopic(log, topic) + [] == OnTopic(log, topic);
  }

  lemma {:induction false} LogGrows(capacity: nat, acts: seq<Action>, m: nat, n: nat, topic: string)
    requires Legal(capacity, acts) && m <= n <= |acts|
    ensures OnTopic(At(capacity, acts, m).log, topic) <= OnTopic(At(capacity, acts, n).log, topic)
  {
    hide Exec, Legal, At, OnTopic, Step;
    if m < n {
      LogGrows(capacity, acts, m, n - 1, topic);
      AtStep(capacity, acts, n - 1);
      StepGrowsLog(At(capacity, acts, n - 1), acts[n - 1], topic);
    }
  }

  lemma StepGrowsLog(s: System, a: Action, topic: string)
    requires Enabled(s, a)
    ensures OnTopic(s.log, topic) <= OnTopic(Step(s, a).log, topic)
  {
    hide OnTopic;
    if a.PubPush? {
      OnTopicMore(s.log, s.calls[a.call].e, topic);
    } else {
      OtherStepsKeepRings(s, a);
    }
  }

  // ---- Calls ----

  /** A finished call keeps its result. */
  predicate Done(p: Phase) { p.Replayed? || p.FannedOut? }

  /** A pushed message keeps its envelope while its fan-out is pending, an added subscriber its topic. */
  lemma {:induction false} CallKeeps(capacity: nat, acts: seq<Action>, m: nat, n: nat, call: nat)
    requires Legal(capacity, acts) && m <= n <= |acts| && call in At(capacity, acts, m).calls
    ensures call in At(capacity, acts, n).calls
    ensures var p, q := At(capacity, acts, m).calls[call], At(capacity, acts, n).calls[call];
            && (Done(p) ==> q == p)
            && (p.Pushed? ==> q == p || (q.FannedOut? && q.e == p.e))
            && (p.Added? ==> q == p || (q.Replayed? && q.agent == p.agent && q.topic == p.topic))
  {
    if m < n {
      CallKeeps(capacity, acts, m, n - 1, call);
      AtStep(capacity, acts, n - 1);
    }
  }

  ghost predicate Unsubscribes(a: Action, agent: string, topic: string) {
    a == Unsub(agent, topic) || a == UnsubAll(agent)
  }

  /** A subscription lasts until somebody removes it. */
  lemma {:induction false} SubscriptionLasts(
    capacity: nat, acts: seq<Action>, m: nat, n: nat, agent: string, topic: string)
    requires Legal(capacity, acts) && m <= n <= |acts|
    requires agent in Subscribers(At(capacity, acts, m).bus, topic)
    requires forall x :: m <= x < n ==> !Unsubscribes(acts[x], agent, topic)
    ensures agent in Subscribers(At(capacity, acts, n).bus, topic)
  {
    hide Exec, Legal, At, Step, Subscribers;
    if m < n {
      SubscriptionLasts(capacity, acts, m, n - 1, agent, topic);
      AtStep(capacity, acts, n - 1);
      StepKeepsSubscriber(At(capacity, acts, n - 1), acts[n - 1], agent, topic);
    }
  }

  lemma StepKeepsSubscriber(s: System, a: Action, agent: string, topic: string)
    requires Enabled(s, a) && agent in Subscribers(s.bus, topic) && !Unsubscribes(a, agent, topic)
    ensures agent in Subscribers(Step(s, a).bus, topic)
  {
    hide Without;
  }

  /**
   No lost message. Call `p` publishes (push at step i, fan-out read at step j), call `q` subscribes
   (subscriber added at step k, ring read at step l). Unless the subscription was dropped again before
   the fan-out, the subscriber is in the fan-out, or finds the message in its replay, or at least
   max(1, capacity) later messages were pushed on that topic before the replay was read.
   */
  lemma NoLostMessage(
    capacity: nat, acts: seq<Action>, p: nat, q: nat, i: nat, j: nat, k: nat, l: nat, agent: string, e: Envelope)
    requires Legal(capacity, acts) && i < j < |acts| && k < l < |acts|
    requires acts[i] == PubPush(p) && acts[j] == PubFan(p)
            && Lookup(At(capacity, acts, i).calls, p) == Some(Numbered(e))
    requires acts[k] == SubAdd(q, agent, e.topic) && acts[l] == SubRead(q)
    requires forall x :: k < x < j ==> !Unsubscribes(acts[x], agent, e.topic)
    ensures p in At(capacity, acts, |acts|).calls && q in At(capacity, acts, |acts|).calls
    ensures var end := At(capacity, acts, |acts|);
            var pushesAfter := |OnTopic(At(capacity, acts, l).log, e.topic)|
                             - |OnTopic(At(capacity, acts, i + 1).log, e.topic)|;
            && end.calls[p].FannedOut? && end.calls[p].e == e && end.calls[q].Replayed?
            && (agent in end.calls[p].to || e in end.calls[q].replay
                || (i < l && pushesAfter >= Max(1, capacity)))
  {
    PublishResult(capacity, acts, p, i, j, e);
    SubscribeResult(capacity, acts, q, k, l, agent, e.topic);
    if agent !in Subscribers(At(capacity, acts, j).bus, e.topic) {
      if k < j {
        AtStep(capacity, acts, k);
        SubscriptionLasts(capacity, acts, k + 1, j, agent, e.topic);
        assert false;
      }
      ReplayHolds(capacity, acts, p, i, l, e);
    }
  }

  lemma PublishResult(capacity: nat, acts: seq<Action>, p: nat, i: nat, j: nat, e: Envelope)
    requires Legal(capacity, acts) && i < j < |acts|
    requires acts[i] == PubPush(p) && acts[j] == PubFan(p)
            && Lookup(At(capacity, acts, i).calls, p) == Some(Numbered(e))
    ensures p in At(capacity, acts, |acts|).calls
    ensures At(capacity, acts, |acts|).calls[p] == FannedOut(e, Subscribers(At(capacity, acts, j).bus, e.topic))
  {
    hide At, Legal, Subscribers;
    AtStep(capacity, acts, i);
    CallKeeps(capacity, acts, i + 1, j, p);
    AtStep(capacity, acts, j);
    CallKeeps(capacity, acts, j + 1, |acts|, p);
  }

  lemma SubscribeResult(
    capacity: nat, acts: seq<Action>, q: nat, k: nat, l: nat, agent: string, topic: string)
    requires Legal(capacity, acts) && k < l < |acts|
    requires acts[k] == SubAdd(q, agent, topic) && acts[l] == SubRead(q)
    ensures q in At(capacity, acts, |acts|).calls
    ensures At(capacity, acts, |acts|).calls[q] == Replayed(agent, topic, Ring(At(capacity, acts, l).bus, topic))
    ensures agent in Subscribers(At(capacity, acts, k + 1).bus, topic)
  {
    AtStep(capacity, acts, k);
    CallKeeps(capacity, acts, k + 1, l, q);
    AtStep(capacity, acts, l);
    CallKeeps(capacity, acts, l + 1, |acts|, q);
  }

  /** A pushed message stays in its ring until max(1, capacity) others have followed it. */
  lemma ReplayHolds(capacity: nat, acts: seq<Action>, p: nat, i: nat, l: nat, e: Envelope)
    requires Legal(capacity, acts) && i < l <= |acts|
    requires acts[i] == PubPush(p) && Lookup(At(capacity, acts, i).calls, p) == Some(Numbered(e))
    ensures var later := OnTopic(At(capacity, acts, l).log, e.topic);
            var then_ := OnTopic(At(capacity, acts, i + 1).log, e.topic);
            |later| - |then_| < Max(1, capacity) ==> e in Ring(At(capacity, acts, l).bus, e.topic)
  {
    AtStep(capacity, acts, i);
    LogGrows(capacity, acts, i + 1, l, e.topic);
    RingIsLastPushes(capacity, acts, l, e.topic);
    var s := At(capacity, acts, i);
    assert (s.log + [e])[..|s.log|] == s.log;
    var then_ := OnTopic(At(capacity, acts, i + 1).log, e.topic);
    assert then_[|then_| - 1] == e;
    assert OnTopic(At(capacity, acts, l).log, e.topic)[|then_| - 1] == e;
  }

  // ---- Sequence numbers ----

  predicate HasNumber(p: Phase) { p.Numbered? || p.Pushed? || p.FannedOut? }

  /** Until the counter wraps, no two messages share a sequence number. */
  lemma {:induction false} NumbersAreUnique(capacity: nat, acts: seq<Action>, n: nat)
    requires Legal(capacity, acts) && n <= |acts| && At(capacity, acts, n).taken < U64 - 1
    ensures var s := At(capacity, acts, n);
            && s.bus.nextSeq == s.taken + 1
            && (forall c :: c in s.calls && HasNumber(s.calls[c]) ==> s.calls[c].e.number <= s.taken)
            && (forall c, d :: c in s.calls && d in s.calls && c != d && HasNumber(s.calls[c]) && HasNumber(s.calls[d])
                  ==> s.calls[c].e.number != s.calls[d].e.number)
  {
    if n > 0 {
      AtStep(capacity, acts, n - 1);
      NumbersAreUnique(capacity, acts, n - 1);
    }
  }

  /**
   The ring holds messages in push order, which need not be the order of their numbers: a publisher
   can be overtaken between taking its number and pushing.
   */
  lemma PushOrderIsNotNumberOrder() returns (acts: seq<Action>)
    ensures Legal(2, acts)
    ensures Ring(At(2, acts, |acts|).bus, "t") == [Envelope("t", "b", 2), Envelope("t", "a", 1)]
  {
    var a, b, c, d := PubTake(0, "t", "a"), PubTake(1, "t", "b"), PubPush(1), PubPush(0);
    acts := [a, b, c, d];
    assert acts[..3] == [a, b, c] && [a, b, c][..2] == [a, b] && [a, b][..1] == [a] && [a][..0] == [];
    var s1 := Step(System(Init(2), map[], [], 0), a);
    assert Exec(2, [a]) == Some(s1);
    var s2 := Step(s1, b);
    assert Exec(2, [a, b]) == Some(s2);
    var s3 := Step(s2, c);
    assert Exec(2, [a, b, c]) == Some(s3);
    var s4 := Step(s3, d);
    assert Exec(2, acts) == Some(s4);
    assert acts[..|acts|] == acts;
    assert Ring(s4.bus, "t") == [Envelope("t", "b", 2), Envelope("t", "a", 1)];
  }
}
