/**
 The relay's agent directory and request/response table, apps/agent-relay/src/state.rs.
 Each critical section under the write lock is one atomic step; `begin_message` has two, around the send.
 Session ids and message ids are fresh UUIDs, so a step that creates one requires it to be new.
 */
module Relay {
  import opened Prelude

  type AgentId = string
  type MessageId = string
  type Session = nat

  datatype State = State(
    agents: map<AgentId, Session>,
    pending: map<MessageId, AgentId>,
    feeds: map<AgentId, seq<string>>)

  // ---- The atomic steps ----

  function Register(s: State, agent: AgentId, session: Session): State {
    s.(agents := s.agents[agent := session])
  }

  /** The messages an accepted unregistration fails with "agent disconnected". */
  function Orphans(s: State, agent: AgentId): set<MessageId> {
    set m | m in s.pending && s.pending[m] == agent
  }

  predicate Current(s: State, agent: AgentId, session: Session) {
    agent in s.agents && s.agents[agent] == session
  }

  function Unregister(s: State, agent: AgentId, session: Session): State {
    if !Current(s, agent, session) then s else
    State(s.agents - {agent}, s.pending - Orphans(s, agent), s.feeds - {agent})
  }

  function Close(s: State, message: MessageId): State { s.(pending := s.pending - {message}) }

  class RelayState {
    var agents: map<AgentId, Session>
    var pending: map<MessageId, AgentId>
    var feeds: map<AgentId, seq<string>>

    function Model(): State
      reads this
    {
      State(agents, pending, feeds)
    }

    constructor ()
      ensures Model() == State(map[], map[], map[])
    {
      agents, pending, feeds := map[], map[], map[];
    }

    method RegisterAgent(agent: AgentId, session: Session)
      modifies this
      ensures Model() == Register(old(Model()), agent, session)
    {
      agents := agents[agent := session];
    }

    /** `disconnected` are the messages whose callers are told the agent is gone. */
    method UnregisterAgent(agent: AgentId, session: Session) returns (disconnected: set<MessageId>)
      modifies this
      ensures Model() == Unregister(old(Model()), agent, session)
      ensures disconnected == if Current(old(Model()), agent, session) then Orphans(old(Model()), agent) else {}
    {
      disconnected := {};
      if agent !in agents || agents[agent] != session {
        return;
      }
      agents := agents - {agent};
      var taken := pending;
      pending := map[];
      var left := taken.Keys;
      while left != {}
        invariant left <= taken.Keys && agents == old(agents) - {agent} && feeds == old(feeds)
        invariant disconnected == set m | m in taken && m !in left && taken[m] == agent
        invariant pending == map m | m in taken && m !in left && taken[m] != agent :: taken[m]
      {
        var m :| m in left;
        left := left - {m};
        if taken[m] == agent {
          disconnected := disconnected + {m};
        } else {
          pending := pending[m := taken[m]];
        }
      }
      feeds := feeds - {agent};
    }

    /** `delivered` is the outcome of the channel send between the two critical sections. */
    method BeginMessage(agent: AgentId, message: MessageId, delivered: bool)
      returns (r: Result<MessageId, BeginError>)
      requires message !in pending
      modifies this
      ensures r == if agent !in old(agents) then Err(UnknownAgent)
                   else if delivered then Ok(message) else Err(NotConnected)
      ensures Model() == if r.Ok? then old(Model()).(pending := old(pending)[message := agent]) else old(Model())
    {
      if agent !in agents {
        return Err(UnknownAgent);
      }
      pending := pending[message := agent];
      if !delivered {
        pending := pending - {message};
        return Err(NotConnected);
      }
      return Ok(message);
    }

    method ResolveResponse(message: MessageId) returns (settled: bool)
      modifies this
      ensures settled == (message in old(pending)) && Model() == Close(old(Model()), message)
    {
      if message !in pending {
        assert pending == pending - {message};
        return false;
      }
      pending := pending - {message};
      return true;
    }
  }

  datatype BeginError = UnknownAgent | NotConnected

  // ---- The interleaved system ----

  datatype Action =
    | DoRegister(agent: AgentId, session: Session)
    | DoUnregister(agent: AgentId, session: Session)
    | DoBegin(message: MessageId, agent: AgentId)
    | DoRollback(message: MessageId)
    | DoSendOk(message: MessageId)
    | DoResolve(message: MessageId)
    | DoFeed(agent: AgentId, list: seq<string>)

  /** `sending` are begun messages whose send has not come back; `closed` counts every removal. */
  datatype System = System(
    relay: State,
    sessions: set<Session>,
    begun: map<MessageId, AgentId>,
    sending: set<MessageId>,
    settled: multiset<MessageId>,
    rolledBack: multiset<MessageId>)

  predicate Enabled(s: System, a: Action) {
    match a
    case DoRegister(_, session) => session !in s.sessions
    case DoUnregister(_, _) => true
    case DoBegin(m, _) => m !in s.begun
    case DoRollback(m) => m in s.sending
    case DoSendOk(m) => m in s.sending
    case DoResolve(_) => true
    case DoFeed(_, _) => true
  }

  function Step(s: System, a: Action): System
    requires Enabled(s, a)
  {
    match a
    case DoRegister(agent, session) =>
      s.(relay := Register(s.relay, agent, session), sessions := s.sessions + {session})
    case DoUnregister(agent, session) =>
      s.(relay := Unregister(s.relay, agent, session),
         settled := s.settled + if Current(s.relay, agent, session) then multiset(Orphans(s.relay, agent))
                                else multiset{})
    case DoBegin(m, agent) =>
      if agent !in s.relay.agents then s else
      s.(relay := s.relay.(pending := s.relay.pending[m := agent]),
         begun := s.begun[m := agent], sending := s.sending + {m})
    case DoRollback(m) =>
      s.(relay := Close(s.relay, m), sending := s.sending - {m},
         rolledBack := s.rolledBack + if m in s.relay.pending then multiset{m} else multiset{})
    case DoSendOk(m) => s.(sending := s.sending - {m})
    case DoResolve(m) =>
      s.(relay := Close(s.relay, m),
         settled := s.settled + if m in s.relay.pending then multiset{m} else multiset{})
    case DoFeed(agent, list) =>
      s.(relay := s.relay.(feeds := if list == [] then s.relay.feeds - {agent} else s.relay.feeds[agent := list]))
  }

  const START := System(State(map[], map[], map[]), {}, map[], {}, multiset{}, multiset{})

  function Exec(acts: seq<Action>): Option<System> {
    if acts == [] then Some(START) else
    var before := Exec(acts[..|acts| - 1]);
    if before.Some? && Enabled(before.value, acts[|acts| - 1])
    then Some(Step(before.value, acts[|acts| - 1])) else None
  }

  /** How often message `m` has left the pending table, or 1 if it is still there. */
  function Fate(s: System, m: MessageId): nat {
    s.settled[m] + s.rolledBack[m] + if m in s.relay.pending then 1 else 0
  }

  ghost predicate Inv(s: System) {
    && (forall m :: m in s.relay.pending ==> s.relay.pending[m] in s.relay.agents)
    && (forall m :: m in s.relay.pending ==> m in s.begun && s.begun[m] == s.relay.pending[m])
    && (forall m :: Fate(s, m) == if m in s.begun then 1 else 0)
    && (forall a :: a in s.relay.agents ==> s.relay.agents[a] in s.sessions)
    && s.sending <= s.begun.Keys
  }

  lemma StepKeepsInv(s: System, a: Action)
    requires Inv(s) && Enabled(s, a)
    ensures Inv(Step(s, a))
  {
    var t := Step(s, a);
    forall m ensures Fate(t, m) == if m in t.begun then 1 else 0 {
      assert Fate(s, m) == if m in s.begun then 1 else 0;
    }
  }

  /**
   In every reachable state a pending message belongs to a registered agent, and each begun message is
   pending, or was settled once, or was rolled back once: never two of these and never one twice.
   */
  lemma {:induction false} ReachableInv(acts: seq<Action>)
    requires Exec(acts).Some?
    ensures Inv(Exec(acts).value)
  {
    if acts != [] {
      ReachableInv(acts[..|acts| - 1]);
      StepKeepsInv(Exec(acts[..|acts| - 1]).value, acts[|acts| - 1]);
    }
  }

  /** Once an unregistration is accepted, nobody is left waiting for that agent. */
  lemma UnregisterLeavesNoWaiter(acts: seq<Action>, agent: AgentId, session: Session)
    requires Exec(acts).Some? && Current(Exec(acts).value.relay, agent, session)
    ensures var s, t := Exec(acts).value, Step(Exec(acts).value, DoUnregister(agent, session));
            && (forall m :: m in s.begun && s.begun[m] == agent ==> t.settled[m] + t.rolledBack[m] == 1)
            && agent !in t.relay.agents && agent !in t.relay.feeds
  {
    ReachableInv(acts);
    var s := Exec(acts).value;
    var t := Step(s, DoUnregister(agent, session));
    StepKeepsInv(s, DoUnregister(agent, session));
    forall m | m in s.begun && s.begun[m] == agent ensures t.settled[m] + t.rolledBack[m] == 1 {
      assert Fate(t, m) == 1;
    }
  }

  /**
   Session fencing. From the moment an agent registers under `session`, only a newer registration or an
   unregistration with that very session can displace it; late clean-ups of older sessions change nothing.
   */
  lemma {:induction false} OldSessionsCannotEvict(acts: seq<Action>, i: nat, agent: AgentId, session: Session)
    requires Exec(acts).Some? && i < |acts| && acts[i] == DoRegister(agent, session)
    requires forall x | i < x < |acts| ::
      acts[x] != DoUnregister(agent, session) && !(acts[x].DoRegister? && acts[x].agent == agent)
    ensures Current(Exec(acts).value.relay, agent, session)
  {
    if i < |acts| - 1 {
      var front := acts[..|acts| - 1];
      assert forall x :: i < x < |front| ==> front[x] == acts[x];
      OldSessionsCannotEvict(front, i, agent, session);
      assert acts[|acts| - 1] != DoUnregister(agent, session);
      hide Step, Current;
      StepKeepsSession(Exec(front).value, acts[|front|], agent, session);
    }
  }

  lemma StepKeepsSession(s: System, a: Action, agent: AgentId, session: Session)
    requires Enabled(s, a) && Current(s.relay, agent, session)
    requires a != DoUnregister(agent, session) && !(a.DoRegister? && a.agent == agent)
    ensures Current(Step(s, a).relay, agent, session)
  {
  }

  /** An unregistration from a superseded session changes nothing at all, in any reachable state. */
  lemma SupersededUnregister(acts: seq<Action>, i: nat, j: nat, agent: AgentId, old_: Session, new_: Session)
    requires Exec(acts).Some? && i < j < |acts|
    requires acts[i] == DoRegister(agent, old_) && acts[j] == DoRegister(agent, new_)
    ensures Step(Exec(acts).value, DoUnregister(agent, old_)) == Exec(acts).value
  {
    RegisteredSessionsStayUsed(acts[..j], i, agent, old_);
    LaterSessionDiffers(acts, j, agent, old_);
  }

  lemma {:induction false} RegisteredSessionsStayUsed(acts: seq<Action>, i: nat, agent: AgentId, session: Session)
    requires i < |acts| && acts[i] == DoRegister(agent, session)
    ensures Exec(acts).Some? ==> session in Exec(acts).value.sessions
  {
    if Exec(acts).Some? && i < |acts| - 1 {
      RegisteredSessionsStayUsed(acts[..|acts| - 1], i, agent, session);
    }
  }

  /** A session that was already used when the agent registered again is never current for it later. */
  lemma {:induction false} LaterSessionDiffers(acts: seq<Action>, j: nat, agent: AgentId, old_: Session)
    requires Exec(acts).Some? && j < |acts| && acts[j].DoRegister? && acts[j].agent == agent
    requires Exec(acts[..j]).Some? ==> old_ in Exec(acts[..j]).value.sessions
    ensures old_ in Exec(acts).value.sessions && !Current(Exec(acts).value.relay, agent, old_)
  {
    var front := acts[..|acts| - 1];
    if j < |acts| - 1 {
      assert front[..j] == acts[..j];
      LaterSessionDiffers(front, j, agent, old_);
    } else {
      assert front == acts[..j];
    }
  }
}
