/**
 Agent secret rotation by compare-and-set on the stored hash (`rotate` and `revoke` of
 src/repo/agent.rs), under every interleaving of calls.
 */
module SecretRotation {
  import opened Wrappers

  /** An ideal salted hash: every hashing draws a new salt, and only the hashed secret verifies. */
  datatype Hash = Hash(salt: nat, secret: string)

  predicate Verify(h: Hash, secret: string) { h.secret == secret }

  datatype Agent = Agent(hash: Hash, revokedAt: Option<int>)

  type Agents = map<string, Agent>

  // ---- statements ----

  /** SELECT of `rotate`: the hash of a live agent. */
  function ReadHash(agents: Agents, id: string): Option<Hash>
  {
    if id in agents && agents[id].revokedAt.None? then Some(agents[id].hash) else None
  }

  /** The committing UPDATE of `rotate`. */
  function Replaced(agents: Agents, id: string, read: Hash, written: Hash): Agents
  {
    if ReadHash(agents, id) == Some(read) then agents[id := agents[id].(hash := written)] else agents
  }

  function Revoked(agents: Agents, id: string, now: int): Agents
  {
    if id in agents then agents[id := agents[id].(revokedAt := Some(now))] else agents
  }

  datatype RotateError = InvalidCredential | RotationInProgress

  class AgentRepository {
    var agents: Agents
    var salts: nat

    ghost predicate Valid()
      reads this
    {
      forall id | id in agents :: agents[id].hash.salt < salts
    }

    constructor ()
      ensures Valid() && agents == map[]
    {
      agents, salts := map[], 0;
    }

    method Revoke(id: string, now: int) returns (found: bool)
      requires Valid()
      modifies this`agents
      ensures Valid() && agents == Revoked(old(agents), id, now) && found == (id in old(agents))
    {
      found := id in agents;
      if found {
        agents := agents[id := agents[id].(revokedAt := Some(now))];
      }
    }

    /** One call with nothing in between: succeeds exactly for a live agent's current
        secret; afterwards only the new secret verifies. */
    method Rotate(id: string, current: string, minted: string) returns (r: Result<string, RotateError>)
      requires Valid()
      modifies this
      ensures Valid()
      ensures r.Ok? <==> ReadHash(old(agents), id).Some? && Verify(ReadHash(old(agents), id).value, current)
      ensures r.Ok? ==> r.value == minted && agents.Keys == old(agents).Keys && Verify(agents[id].hash, minted)
      ensures r.Ok? ==> agents[id].hash != old(agents)[id].hash
      ensures r.Ok? ==> forall x | x in agents && x != id :: agents[x] == old(agents)[x]
      ensures r.Err? ==> agents == old(agents)
    {
      var read := ReadHash(agents, id);
      if read.None? || !Verify(read.value, current) {
        return Err(InvalidCredential);
      }
      var written := Hash(salts, minted);
      salts := salts + 1;
      if ReadHash(agents, id) != read {
        return Err(RotationInProgress);
      }
      agents := agents[id := agents[id].(hash := written)];
      r := Ok(minted);
    }
  }

  // ---- interleavings ----

  datatype Call =
    | Presented(agent: string, secret: string)
    | Verified(agent: string, secret: string, read: Hash)
    | Finished

  datatype Event = Committed(agent: string, presented: string, read: Hash, written: Hash)

  /** `born` remembers the hash each agent had at the start or was registered with. */
  datatype State = State(
    now: int, agents: Agents, born: map<string, Hash>, salts: nat, calls: map<nat, Call>, log: seq<Event>)

  datatype Label =
    | Tick(seconds: nat)
    | Register(agent: string, secret: string)
    | Present(id: nat, agent: string, secret: string)
    | Select(id: nat)
    | Commit(id: nat, minted: string)
    | Revoke(agent: string)
    | Abort(id: nat)

  predicate Enabled(s: State, l: Label)
  {
    match l
    case Tick(_) => true
    case Register(agent, _) => agent !in s.agents
    case Present(id, _, _) => id !in s.calls
    case Select(id) => id in s.calls && s.calls[id].Presented?
    case Commit(id, _) => id in s.calls && s.calls[id].Verified?
    case Revoke(_) => true
    case Abort(id) => id in s.calls
  }

  function Put(s: State, id: nat, c: Call): State { s.(calls := s.calls[id := c]) }

  /** Whether the UPDATE of this call matches its row. */
  predicate Wins(s: State, id: nat)
    requires id in s.calls && s.calls[id].Verified?
  {
    ReadHash(s.agents, s.calls[id].agent) == Some(s.calls[id].read)
  }

  function Next(s: State, l: Label): State
    requires Enabled(s, l)
  {
    match l
    case Tick(seconds) => s.(now := s.now + seconds)
    case Register(agent, secret) =>
      var hash := Hash(s.salts, secret);
      s.(agents := s.agents[agent := Agent(hash, None)], born := s.born[agent := hash], salts := s.salts + 1)
    case Present(id, agent, secret) => Put(s, id, Presented(agent, secret))
    case Select(id) =>
      var read := ReadHash(s.agents, s.calls[id].agent);
      var c := s.calls[id];
      Put(s, id, if read.Some? && Verify(read.value, c.secret) then Verified(c.agent, c.secret, read.value)
        else Finished)
    case Commit(id, minted) =>
      var c, written := s.calls[id], Hash(s.salts, minted);
      Put(s, id, Finished).(
        salts := s.salts + 1, agents := Replaced(s.agents, c.agent, c.read, written),
        log := if Wins(s, id) then s.log + [Committed(c.agent, c.secret, c.read, written)] else s.log)
    case Revoke(agent) => s.(agents := Revoked(s.agents, agent, s.now))
    case Abort(id) => Put(s, id, Finished)
  }

  ghost predicate Init(s: State)
  {
    && s.calls == map[] && s.log == [] && s.born == (map a | a in s.agents :: s.agents[a].hash)
    && forall a | a in s.agents :: s.agents[a].hash.salt < s.salts
  }

  ghost predicate IsRun(states: seq<State>, labels: seq<Label>)
  {
    && |states| == |labels| + 1 && Init(states[0])
    && forall i | 0 <= i < |labels| :: Enabled(states[i], labels[i]) && states[i + 1] == Next(states[i], labels[i])
  }

  // ---- the chain of rotations ----

  /** The hash written by the last committed rotation of the agent. */
  function LastWritten(log: seq<Event>, agent: string): Option<Hash>
  {
    if log == [] then None
    else if log[|log| - 1].agent == agent then Some(log[|log| - 1].written)
    else LastWritten(log[..|log| - 1], agent)
  }

  lemma LastWrittenAppend(log: seq<Event>, e: Event, agent: string)
    ensures LastWritten(log + [e], agent) == if e.agent == agent then Some(e.written) else LastWritten(log, agent)
  {
    assert (log + [e])[..|log|] == log;
  }

  /** The rotation at `b` read what its predecessor wrote, the first one what the agent was born with. */
  ghost predicate Linked(log: seq<Event>, b: nat, born: map<string, Hash>)
    requires b < |log|
  {
    var agent := log[b].agent;
    agent in born && log[b].read == LastWritten(log[..b], agent).GetOr(born[agent])
  }

  /** Salts grow: what is stored is newer than anything replaced. */
  ghost predicate SaltInv(s: State)
  {
    && (forall a | a in s.agents :: s.agents[a].hash.salt < s.salts)
    && (forall id | id in s.calls && s.calls[id].Verified? ::
          && s.calls[id].read.salt < s.salts && s.calls[id].agent in s.agents
          && Verify(s.calls[id].read, s.calls[id].secret))
    && (forall b | 0 <= b < |s.log| ::
          && s.log[b].agent in s.agents && Verify(s.log[b].read, s.log[b].presented)
          && s.log[b].read.salt < s.log[b].written.salt <= s.agents[s.log[b].agent].hash.salt)
    && (forall a, b | 0 <= a < b < |s.log| && s.log[a].agent == s.log[b].agent ::
          s.log[a].written.salt <= s.log[b].read.salt)
  }

  /** The hash an agent has after the logged rotations. */
  ghost predicate Current(s: State, a: string)
  {
    && (LastWritten(s.log, a).Some? ==> a in s.agents)
    && (a in s.agents ==> a in s.born && s.agents[a].hash == LastWritten(s.log, a).GetOr(s.born[a]))
  }

  ghost predicate ChainInv(s: State)
  {
    && s.born.Keys == s.agents.Keys
    && (forall a :: Current(s, a))
    && (forall b | 0 <= b < |s.log| :: Linked(s.log, b, s.born))
  }

  ghost predicate Inv(s: State) { SaltInv(s) && ChainInv(s) }

  lemma SaltStep(s: State, l: Label)
    requires SaltInv(s) && Enabled(s, l)
    ensures SaltInv(Next(s, l))
  {
  }

  lemma ChainCommits(s: State, l: Label)
    requires ChainInv(s) && Enabled(s, l) && l.Commit? && Wins(s, l.id)
    ensures ChainInv(Next(s, l))
  {
    var s', c := Next(s, l), s.calls[l.id];
    var e := Committed(c.agent, c.secret, c.read, Hash(s.salts, l.minted));
    assert s'.log == s.log + [e] && s'.born == s.born;
    forall a ensures Current(s', a) {
      assert Current(s, a);
      LastWrittenAppend(s.log, e, a);
    }
    assert Current(s, c.agent);
    forall b | 0 <= b < |s'.log| ensures Linked(s'.log, b, s'.born) {
      assert s'.log[..b] == s.log[..b];
      assert b == |s.log| ==> s.log[..b] == s.log;
      assert b < |s.log| ==> Linked(s.log, b, s.born);
    }
  }

  lemma ChainStays(s: State, s': State)
    requires ChainInv(s) && s'.log == s.log && s'.born.Keys == s'.agents.Keys
    requires forall a | a in s.agents :: a in s'.agents && s'.agents[a].hash == s.agents[a].hash
    requires forall a | a in s.born :: a in s'.born && s'.born[a] == s.born[a]
    requires forall a | a in s'.agents && a !in s.agents :: a in s'.born && s'.agents[a].hash == s'.born[a]
    ensures ChainInv(s')
  {
    forall a ensures Current(s', a) {
      assert Current(s, a);
    }
    forall b | 0 <= b < |s'.log| ensures Linked(s'.log, b, s'.born) {
      assert Linked(s.log, b, s.born);
    }
  }

  lemma InvStep(s: State, l: Label)
    requires Inv(s) && Enabled(s, l)
    ensures Inv(Next(s, l))
  {
    SaltStep(s, l);
    hide SaltInv, Current, Linked;
    if l.Commit? && Wins(s, l.id) {
      ChainCommits(s, l);
    } else {
      ChainStays(s, Next(s, l));
    }
  }

  lemma {:induction false} InvRun(states: seq<State>, labels: seq<Label>, i: nat)
    requires IsRun(states, labels) && i < |states|
    ensures Inv(states[i])
  {
    if i == 0 {
      forall a ensures Current(states[0], a) {
      }
    } else {
      InvRun(states, labels, i - 1);
      hide Inv, Next, Enabled;
      InvStep(states[i - 1], labels[i - 1]);
    }
  }

  /**
   In every run the rotations of an agent form one chain: each committed call replaces
   exactly the hash its predecessor wrote, having been presented exactly the secret its
   predecessor handed out, and the stored hash is the last one written, so it verifies
   exactly the secret handed out last.  Before the first rotation the hash is the one the
   agent was born with.
   */
  lemma RotationsChain(states: seq<State>, labels: seq<Label>, i: nat, agent: string)
    requires IsRun(states, labels) && i < |states|
    ensures forall b | 0 <= b < |states[i].log| ::
      Linked(states[i].log, b, states[i].born) && Verify(states[i].log[b].read, states[i].log[b].presented)
    ensures agent in states[i].agents <==> agent in states[i].born
    ensures agent in states[i].agents && LastWritten(states[i].log, agent).None? ==>
      states[i].agents[agent].hash == states[i].born[agent]
    ensures LastWritten(states[i].log, agent).Some? ==>
      && agent in states[i].agents
      && states[i].agents[agent].hash == LastWritten(states[i].log, agent).value
      && forall secret :: Verify(states[i].agents[agent].hash, secret) <==>
        secret == LastWritten(states[i].log, agent).value.secret
  {
    hide Next, Enabled;
    InvRun(states, labels, i);
    assert Current(states[i], agent);
  }

  lemma {:induction false} BornOnce(states: seq<State>, labels: seq<Label>, h: nat, i: nat, agent: string)
    requires IsRun(states, labels) && h <= i < |states| && agent in states[h].born
    ensures agent in states[i].born && states[i].born[agent] == states[h].born[agent]
    decreases i
  {
    if h < i {
      BornOnce(states, labels, h, i - 1, agent);
      InvRun(states, labels, i - 1);
      hide SaltInv, Current, Linked;
    }
  }

  /** Where the chain starts: whatever hash an agent has at a moment before its first
      rotation, that rotation reads, and the agent keeps until then. */
  lemma ChainStarts(states: seq<State>, labels: seq<Label>, h: nat, i: nat, agent: string)
    requires IsRun(states, labels) && h <= i < |states|
    requires agent in states[h].agents && LastWritten(states[h].log, agent).None?
    ensures agent in states[i].agents
    ensures LastWritten(states[i].log, agent).None? ==> states[i].agents[agent].hash == states[h].agents[agent].hash
    ensures forall b | 0 <= b < |states[i].log| && states[i].log[b].agent == agent &&
      LastWritten(states[i].log[..b], agent).None? :: states[i].log[b].read == states[h].agents[agent].hash
  {
    hide Next, Enabled, IsRun;
    InvRun(states, labels, h);
    InvRun(states, labels, i);
    BornOnce(states, labels, h, i, agent);
    assert Current(states[h], agent) && Current(states[i], agent);
    var log := states[i].log;
    forall b | 0 <= b < |log| && log[b].agent == agent && LastWritten(log[..b], agent).None?
      ensures log[b].read == states[h].agents[agent].hash
    {
      assert Linked(log, b, states[i].born);
    }
  }

  /** Of all calls that read the same hash of an agent, at most one commits. */
  lemma OneWinnerPerHash(states: seq<State>, labels: seq<Label>, i: nat, a: nat, b: nat)
    requires IsRun(states, labels) && i < |states| && a < |states[i].log| && b < |states[i].log|
    requires states[i].log[a].agent == states[i].log[b].agent && states[i].log[a].read == states[i].log[b].read
    ensures a == b
  {
    hide Next, Enabled, ChainInv;
    InvRun(states, labels, i);
  }

  ghost predicate Gone(s: State, agent: string)
  {
    agent in s.agents && s.agents[agent].revokedAt.Some?
  }

  /** After a revoke nothing rotates the agent any more, and it stays revoked. */
  lemma {:induction false} NoRotationAfterRevoke(states: seq<State>, labels: seq<Label>, i: nat, j: nat, agent: string)
    requires IsRun(states, labels) && i <= j < |states| && Gone(states[i], agent)
    ensures Gone(states[j], agent) && states[j].agents[agent].hash == states[i].agents[agent].hash
    ensures states[i].log <= states[j].log
    ensures forall m | |states[i].log| <= m < |states[j].log| :: states[j].log[m].agent != agent
    decreases j
  {
    if i < j {
      NoRotationAfterRevoke(states, labels, i, j - 1, agent);
    }
  }
}
