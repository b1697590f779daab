/** Who is registered and who is waiting, from the steps of a run alone: apps/agent-relay/src/state.rs. */
module RelayHistory {
  import opened Prelude
  import opened Relay

  /** The state in which step `n` of the run is taken. */
  ghost function At(acts: seq<Action>, n: nat): System
    requires Exec(acts).Some? && n <= |acts|
  {
    LegalPrefix(acts, n);
    Exec(acts[..n]).value
  }

  lemma {:induction false} LegalPrefix(acts: seq<Action>, n: nat)
    requires Exec(acts).Some? && n <= |acts|
    ensures Exec(acts[..n]).Some?
  {
    if n < |acts| {
      LegalPrefix(acts[..|acts| - 1], n);
      assert acts[..|acts| - 1][..n] == acts[..n];
    } else {
      assert acts[..n] == acts;
    }
  }

  lemma AtStep(acts: seq<Action>, n: nat)
    requires Exec(acts).Some? && n < |acts|
    ensures Enabled(At(acts, n), acts[n]) && At(acts, n + 1) == Step(At(acts, n), acts[n])
  {
    LegalPrefix(acts, n + 1);
    assert acts[..n + 1][..n] == acts[..n];
  }

  // ---- Registrations ----

  /** Step `k` registered the agent under the session, and neither a newer registration nor its own end came since. */
  ghost predicate Stands(acts: seq<Action>, n: nat, k: nat, agent: AgentId, session: Session)
    requires n <= |acts|
  {
    && k < n && acts[k] == DoRegister(agent, session)
    && forall x: nat :: k < x < n ==>
         acts[x] != DoUnregister(agent, session) && !(acts[x].DoRegister? && acts[x].agent == agent)
  }

  lemma StandsNext(acts: seq<Action>, n: nat, k: nat, agent: AgentId, session: Session)
    requires n < |acts|
    ensures Stands(acts, n + 1, k, agent, session)
            <==> (k == n && acts[n] == DoRegister(agent, session))
                 || (Stands(acts, n, k, agent, session)
                     && acts[n] != DoUnregister(agent, session) && !(acts[n].DoRegister? && acts[n].agent == agent))
  {
  }

  lemma {:induction false} CurrentIff(acts: seq<Action>, n: nat, agent: AgentId, session: Session)
    requires Exec(acts).Some? && n <= |acts|
    ensures Current(At(acts, n).relay, agent, session) <==> exists k: nat :: Stands(acts, n, k, agent, session)
  {
    hide Stands, Step, Exec, At;
    if n == 0 {
      NothingYet(acts);
      forall k: nat ensures !Stands(acts, 0, k, agent, session) {
        NeverStands(acts, k, agent, session);
      }
    } else {
      var before: nat := n - 1;
      CurrentIff(acts, before, agent, session);
      AtStep(acts, n - 1);
      CurrentNext(At(acts, n - 1), acts[n - 1], agent, session);
      forall k: nat
        ensures Stands(acts, n, k, agent, session)
                <==> (k == n - 1 && acts[n - 1] == DoRegister(agent, session))
                     || (Stands(acts, n - 1, k, agent, session) && acts[n - 1] != DoUnregister(agent, session)
                         && !(acts[n - 1].DoRegister? && acts[n - 1].agent == agent))
      {
        StandsNext(acts, n - 1, k, agent, session);
      }
      if acts[n - 1] == DoRegister(agent, session) {
        assert Stands(acts, n, n - 1, agent, session);
      } else if k: nat :| Stands(acts, before, k, agent, session) {
        assert Current(At(acts, n).relay, agent, session) ==> Stands(acts, n, k, agent, session);
      }
    }
  }

  lemma NothingYet(acts: seq<Action>)
    requires Exec(acts).Some?
    ensures At(acts, 0) == START
  {
    assert acts[..0] == [];
  }

  lemma NeverStands(acts: seq<Action>, k: nat, agent: AgentId, session: Session)
    ensures !Stands(acts, 0, k, agent, session)
  {
  }

  lemma CurrentNext(s: System, a: Action, agent: AgentId, session: Session)
    requires Enabled(s, a)
    ensures Current(Step(s, a).relay, agent, session)
            <==> a == DoRegister(agent, session)
                 || (Current(s.relay, agent, session) && a != DoUnregister(agent, session)
                     && !(a.DoRegister? && a.agent == agent))
  {
  }

  // ---- Waiting messages ----

  /** A step that ends the wait for a message to the agent: a failed send, an answer, or the agent's own end. */
  ghost predicate Ends(s: State, a: Action, m: MessageId, agent: AgentId) {
    || a == DoRollback(m)
    || a == DoResolve(m)
    || (a.DoUnregister? && a.agent == agent && Current(s, agent, a.session))
  }

  /** Step `k` began the message to the agent, then registered, and no step has ended the wait since. */
  ghost predicate Waits(acts: seq<Action>, n: nat, k: nat, m: MessageId, agent: AgentId)
    requires Exec(acts).Some? && n <= |acts|
  {
    && k < n && acts[k] == DoBegin(m, agent) && agent in At(acts, k).relay.agents
    && forall x: nat :: k < x < n ==> !Ends(At(acts, x).relay, acts[x], m, agent)
  }

  lemma WaitsNext(acts: seq<Action>, n: nat, k: nat, m: MessageId, agent: AgentId)
    requires Exec(acts).Some? && n < |acts|
    ensures Waits(acts, n + 1, k, m, agent)
            <==> (k == n && acts[n] == DoBegin(m, agent) && agent in At(acts, n).relay.agents)
                 || (Waits(acts, n, k, m, agent) && !Ends(At(acts, n).relay, acts[n], m, agent))
  {
    hide Exec, At, Ends;
  }

  lemma NeverWaits(acts: seq<Action>, k: nat, m: MessageId, agent: AgentId)
    requires Exec(acts).Some?
    ensures !Waits(acts, 0, k, m, agent)
  {
  }

  lemma WaitingNext(s: System, a: Action, m: MessageId, agent: AgentId)
    requires Enabled(s, a) && Inv(s)
    ensures Lookup(Step(s, a).relay.pending, m) == Some(agent)
            <==> (a == DoBegin(m, agent) && agent in s.relay.agents)
                 || (Lookup(s.relay.pending, m) == Some(agent) && !Ends(s.relay, a, m, agent))
  {
  }

  /** A message waits for an answer of its agent exactly when it was begun to it and nothing has ended the wait. */
  lemma {:induction false} WaitingIff(acts: seq<Action>, n: nat, m: MessageId, agent: AgentId)
    requires Exec(acts).Some? && n <= |acts|
    ensures Lookup(At(acts, n).relay.pending, m) == Some(agent) <==> exists k: nat :: Waits(acts, n, k, m, agent)
  {
    hide Waits, Step, Exec, At, Ends, Inv;
    if n == 0 {
      NothingYet(acts);
      forall k: nat ensures !Waits(acts, 0, k, m, agent) {
        NeverWaits(acts, k, m, agent);
      }
    } else {
      var before: nat := n - 1;
      WaitingIff(acts, before, m, agent);
      AtStep(acts, n - 1);
      AtIsInv(acts, n - 1);
      var s, a := At(acts, n - 1), acts[n - 1];
      WaitingNext(s, a, m, agent);
      forall k: nat
        ensures Waits(acts, n, k, m, agent)
                <==> (k == n - 1 && a == DoBegin(m, agent) && agent in s.relay.agents)
                     || (Waits(acts, n - 1, k, m, agent) && !Ends(s.relay, a, m, agent))
      {
        WaitsNext(acts, n - 1, k, m, agent);
      }
      if a == DoBegin(m, agent) && agent in s.relay.agents {
        assert Waits(acts, n, n - 1, m, agent);
      } else if k: nat :| Waits(acts, before, k, m, agent) {
        assert !Ends(s.relay, a, m, agent) ==> Waits(acts, n, k, m, agent);
      }
    }
  }

  lemma AtIsInv(acts: seq<Action>, n: nat)
    requires Exec(acts).Some? && n <= |acts|
    ensures Inv(At(acts, n))
  {
    LegalPrefix(acts, n);
    ReachableInv(acts[..n]);
  }

  // ---- Feeds ----

  /** The agent's list as of its last report; an empty report and its own end leave none. */
  ghost function Reported(acts: seq<Action>, n: nat, agent: AgentId): Option<seq<string>>
    requires Exec(acts).Some? && n <= |acts|
  {
    if n == 0 then None else
    match acts[n - 1]
    case DoFeed(a, list) =>
      if a != agent then Reported(acts, n - 1, agent) else if list == [] then None else Some(list)
    case DoUnregister(a, session) =>
      if a == agent && Current(At(acts, n - 1).relay, agent, session) then None else Reported(acts, n - 1, agent)
    case _ => Reported(acts, n - 1, agent)
  }

  lemma {:induction false} FeedsAreReported(acts: seq<Action>, n: nat, agent: AgentId)
    requires Exec(acts).Some? && n <= |acts|
    ensures Lookup(At(acts, n).relay.feeds, agent) == Reported(acts, n, agent)
  {
    hide Exec, At;
    if n == 0 {
      NothingYet(acts);
    } else {
      FeedsAreReported(acts, n - 1, agent);
      AtStep(acts, n - 1);
    }
  }
}
