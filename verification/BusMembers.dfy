/** Who is subscribed when, in every interleaving: apps/agent-relay/src/bus.rs. */
module BusMembers {
  import opened Prelude
  import opened Bus

  // ---- Standing subscriptions, from the steps alone ----

  /** The step that made the agent's present subscription: the first of its subscriptions since it was last removed. */
  ghost function Since(acts: seq<Action>, n: nat, agent: string, topic: string): Option<nat>
    requires n <= |acts|
  {
    if n == 0 then None else
    var before := Since(acts, n - 1, agent, topic);
    match acts[n - 1]
    case SubAdd(_, a, t) => if a == agent && t == topic && before.None? then Some(n - 1) else before
    case Unsub(a, t) => if a == agent && t == topic then None else before
    case UnsubAll(a) => if a == agent then None else before
    case _ => before
  }

  ghost predicate SubscribesAt(a: Action, agent: string, topic: string) {
    a.SubAdd? && a.agent == agent && a.topic == topic
  }

  /** The agent has asked for the topic, and nobody has taken it off since. */
  ghost predicate Subscribed(acts: seq<Action>, n: nat, agent: string, topic: string)
    requires n <= |acts|
  {
    exists k: nat :: k < n && SubscribesAt(acts[k], agent, topic)
                     && forall x: nat :: k < x < n ==> !Unsubscribes(acts[x], agent, topic)
  }

  lemma {:induction false} SinceIffSubscribed(acts: seq<Action>, n: nat, agent: string, topic: string)
    requires n <= |acts|
    ensures Since(acts, n, agent, topic).Some? <==> Subscribed(acts, n, agent, topic)
    ensures Since(acts, n, agent, topic).Some? ==>
              var k := Since(acts, n, agent, topic).value;
              && k < n && SubscribesAt(acts[k], agent, topic)
              && forall x: nat :: k < x < n ==> !Unsubscribes(acts[x], agent, topic)
  {
    if n > 0 {
      SinceIffSubscribed(acts, n - 1, agent, topic);
      if Subscribed(acts, n - 1, agent, topic) && !Unsubscribes(acts[n - 1], agent, topic) {
        var k: nat :| k < n - 1 && SubscribesAt(acts[k], agent, topic)
                      && forall x: nat :: k < x < n - 1 ==> !Unsubscribes(acts[x], agent, topic);
        assert forall x: nat :: k < x < n ==> !Unsubscribes(acts[x], agent, topic);
      }
    }
  }

  // ---- The subscriber list ----

  ghost function SinceKey(acts: seq<Action>, n: nat, topic: string): string -> nat
    requires n <= |acts|
  {
    (a: string) => if n <= |acts| && Since(acts, n, a, topic).Some? then Since(acts, n, a, topic).value else n
  }

  /** The list holds just the standing subscribers, the longest standing first. */
  ghost predicate BySeniority(acts: seq<Action>, n: nat, topic: string, agents: seq<string>)
    requires n <= |acts|
  {
    && (forall a :: a in agents <==> Since(acts, n, a, topic).Some?)
    && Rising(agents, SinceKey(acts, n, topic))
  }

  ghost predicate Rising(agents: seq<string>, key: string -> nat) {
    forall i, j :: 0 <= i < j < |agents| ==> key(agents[i]) < key(agents[j])
  }

  lemma {:induction false} WithoutRises(agents: seq<string>, agent: string, key: string -> nat)
    requires Rising(agents, key)
    ensures Rising(Without(agents, agent), key)
  {
    if agents != [] {
      var rest := Without(agents[1..], agent);
      WithoutRises(agents[1..], agent, key);
      forall a | a in rest ensures key(agents[0]) < key(a) {
        var j :| 0 <= j < |agents[1..]| && agents[1..][j] == a;
        assert agents[j + 1] == a;
      }
    }
  }

  lemma SameKeyRises(agents: seq<string>, key: string -> nat, key': string -> nat)
    requires Rising(agents, key) && forall a :: a in agents ==> key'(a) == key(a)
    ensures Rising(agents, key')
  {
  }

  lemma SinceBelow(acts: seq<Action>, n: nat, topic: string)
    requires n <= |acts|
    ensures forall a :: Since(acts, n, a, topic).Some? ==> Since(acts, n, a, topic).value < n
  {
    forall a ensures Since(acts, n, a, topic).Some? ==> Since(acts, n, a, topic).value < n {
      SinceIffSubscribed(acts, n, a, topic);
    }
  }

  /** The list of a topic after one step. */
  function NextList(agents: seq<string>, a: Action, topic: string): seq<string> {
    match a
    case SubAdd(_, agent, t) => if t == topic && agent !in agents then agents + [agent] else agents
    case Unsub(agent, t) => if t == topic then Without(agents, agent) else agents
    case UnsubAll(agent) => Without(agents, agent)
    case _ => agents
  }

  lemma StepList(s: System, a: Action, topic: string)
    requires Enabled(s, a)
    ensures Subscribers(Step(s, a).bus, topic) == NextList(Subscribers(s.bus, topic), a, topic)
  {
  }

  lemma {:induction false} WithoutStranger(agents: seq<string>, agent: string)
    requires agent !in agents
    ensures Without(agents, agent) == agents
  {
    if agents != [] {
      WithoutStranger(agents[1..], agent);
    }
  }

  lemma NextMembers(acts: seq<Action>, n: nat, topic: string, agents: seq<string>)
    requires n < |acts| && forall a :: a in agents <==> Since(acts, n, a, topic).Some?
    ensures var next := NextList(agents, acts[n], topic);
            && (forall a :: a in next <==> Since(acts, n + 1, a, topic).Some?)
            && (forall a :: a in next && a in agents ==> Since(acts, n + 1, a, topic) == Since(acts, n, a, topic))
            && (!acts[n].SubAdd? ==> forall a :: a in next ==> a in agents)
            && (acts[n].SubAdd? && next != agents ==>
                  next == agents + [acts[n].agent] && Since(acts, n + 1, acts[n].agent, topic) == Some(n))
  {
    hide Without;
  }

  lemma NextRising(acts: seq<Action>, n: nat, topic: string, agents: seq<string>)
    requires n < |acts| && BySeniority(acts, n, topic, agents)
    ensures Rising(NextList(agents, acts[n], topic), SinceKey(acts, n + 1, topic))
  {
    var key, key' := SinceKey(acts, n, topic), SinceKey(acts, n + 1, topic);
    var next := NextList(agents, acts[n], topic);
    SinceBelow(acts, n, topic);
    NextMembers(acts, n, topic, agents);
    if acts[n].Unsub? || acts[n].UnsubAll? {
      WithoutRises(agents, acts[n].agent, key);
      hide Since, Rising, Without;
      SameKeyRises(next, key, key');
    } else {
      hide Since, Without;
      SameKeyRises(agents, key, key');
    }
  }

  lemma NextBySeniority(acts: seq<Action>, n: nat, topic: string, agents: seq<string>)
    requires n < |acts| && BySeniority(acts, n, topic, agents)
    ensures BySeniority(acts, n + 1, topic, NextList(agents, acts[n], topic))
  {
    hide Since, Rising, NextList;
    NextMembers(acts, n, topic, agents);
    NextRising(acts, n, topic, agents);
  }

  lemma {:induction false} SubscribersBySeniority(capacity: nat, acts: seq<Action>, n: nat, topic: string)
    requires Legal(capacity, acts) && n <= |acts|
    ensures BySeniority(acts, n, topic, Subscribers(At(capacity, acts, n).bus, topic))
  {
    hide Step, BySeniority, Exec, Legal, At;
    if n == 0 {
      NobodyYet(capacity, acts, topic);
    } else {
      SubscribersBySeniority(capacity, acts, n - 1, topic);
      AtStep(capacity, acts, n - 1);
      var s := At(capacity, acts, n - 1);
      StepList(s, acts[n - 1], topic);
      NextBySeniority(acts, n - 1, topic, Subscribers(s.bus, topic));
    }
  }

  lemma NobodyYet(capacity: nat, acts: seq<Action>, topic: string)
    requires Legal(capacity, acts)
    ensures BySeniority(acts, 0, topic, Subscribers(At(capacity, acts, 0).bus, topic))
  {
    assert acts[..0] == [];
  }

  // ---- Fan-outs ----

  /**
   In every interleaving a fan-out goes to the agents that have subscribed and not been taken off since, each once: so
   not to one that was, until it subscribes again, and to all the others still.
   */
  lemma FanOutIsTheSubscribed(capacity: nat, acts: seq<Action>, p: nat, i: nat, j: nat, e: Envelope)
    requires Legal(capacity, acts) && i < j < |acts|
    requires acts[i] == PubPush(p) && acts[j] == PubFan(p)
            && Lookup(At(capacity, acts, i).calls, p) == Some(Numbered(e))
    ensures var calls := At(capacity, acts, |acts|).calls;
            && p in calls && calls[p].FannedOut? && calls[p].e == e
            && BySeniority(acts, j, e.topic, calls[p].to)
            && (forall a :: a in calls[p].to <==> Subscribed(acts, j, a, e.topic))
            && (forall x, y :: 0 <= x < y < |calls[p].to| ==> calls[p].to[x] != calls[p].to[y])
  {
    hide Legal, At, Subscribed, Since;
    PublishResult(capacity, acts, p, i, j, e);
    SubscribersBySeniority(capacity, acts, j, e.topic);
    forall a ensures Since(acts, j, a, e.topic).Some? <==> Subscribed(acts, j, a, e.topic) {
      SinceIffSubscribed(acts, j, a, e.topic);
    }
  }

  /** No topic is kept without a subscriber. */
  lemma {:induction false} TopicsHaveSubscribers(capacity: nat, acts: seq<Action>, n: nat)
    requires Legal(capacity, acts) && n <= |acts|
    ensures var subscriptions := At(capacity, acts, n).bus.subscriptions;
            forall t :: t in subscriptions ==> subscriptions[t] != []
  {
    if n == 0 {
      assert acts[..0] == [];
    } else {
      TopicsHaveSubscribers(capacity, acts, n - 1);
      AtStep(capacity, acts, n - 1);
      hide At, Legal;
    }
  }
}
