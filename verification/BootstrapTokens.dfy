/**
 Agent registration with a bootstrap token: preview the token's scope, create the agent,
 then consume the token by compare-and-set (`register_agent_inner` of src/admin/service.rs
 over src/repo/bootstrap.rs and src/repo/agent.rs), under every interleaving of calls,
 revocations and the lifecycle triggers that prune scopes.
 */
module BootstrapTokens {
  import opened Wrappers

  datatype Scope = Scope(allowlist: Option<seq<string>>, expiresAt: Option<int>, singleUse: bool)

  /** The stored JSON: two texts may spell the same scope differently. */
  datatype Text = Text(scope: Scope, spelling: nat)

  datatype Token = Token(
    secret: string, text: Text, expiresAt: Option<int>, usedAt: Option<int>, revokedAt: Option<int>, reviewed: bool)

  datatype Agent = Agent(name: string, allowlist: seq<string>, revokedAt: Option<int>)

  type Tokens = map<string, Token>

  type Agents = map<string, Agent>

  function Allowed(scope: Scope): seq<string> { scope.allowlist.GetOr([]) }

  // ---- statements ----

  /** What both the preview and the first half of `consume` demand of the row. */
  predicate Usable(tokens: Tokens, token: string, now: int)
  {
    && token in tokens && tokens[token].reviewed && tokens[token].usedAt.None? && tokens[token].revokedAt.None?
    && !(tokens[token].expiresAt.Some? && tokens[token].expiresAt.value < now)
  }

  /** The WHERE clause of the consuming UPDATE. Its expiry test is strict where `Usable` is not. */
  predicate Committable(tokens: Tokens, token: string, text: Text, now: int)
  {
    && token in tokens && tokens[token].reviewed && tokens[token].usedAt.None? && tokens[token].revokedAt.None?
    && tokens[token].text == text
    && (tokens[token].expiresAt.None? || tokens[token].expiresAt.value > now)
  }

  function Consumed(tokens: Tokens, token: string, singleUse: bool, at: int): Tokens
    requires token in tokens
  {
    if singleUse then tokens[token := tokens[token].(usedAt := Some(at))] else tokens
  }

  function TokenRevoked(tokens: Tokens, token: string, now: int): Tokens
  {
    if token in tokens then tokens[token := tokens[token].(revokedAt := Some(now))] else tokens
  }

  /** The checked INSERT: fails on a taken name or id and on a name nobody may be granted. */
  predicate Insertable(agents: Agents, agent: string, name: string, allowlist: seq<string>, grantable: set<string>)
  {
    && agent !in agents && (forall a | a in agents :: agents[a].name != name)
    && forall n | n in allowlist :: n in grantable
  }

  function AgentRevoked(agents: Agents, agent: string, now: int): Agents
  {
    if agent in agents then agents[agent := agents[agent].(revokedAt := Some(now))] else agents
  }

  function Without(names: seq<string>, name: string): seq<string>
  {
    if names == [] then [] else (if names[0] == name then [] else [names[0]]) + Without(names[1..], name)
  }

  lemma {:induction false} WithoutMembers(names: seq<string>, name: string)
    ensures forall n :: n in Without(names, name) <==> n in names && n != name
    ensures name !in names ==> Without(names, name) == names
  {
    if names != [] {
      WithoutMembers(names[1..], name);
      assert names == [names[0]] + names[1..];
    }
  }

  /** The lifecycle trigger on one reviewed token. */
  function PrunedToken(t: Token, name: string, spelling: nat): Token
  {
    if t.reviewed then
      t.(text := Text(t.text.scope.(allowlist := Some(Without(Allowed(t.text.scope), name))), spelling))
    else t
  }

  function PrunedTokens(tokens: Tokens, name: string, spelling: nat): Tokens
  {
    map t | t in tokens :: PrunedToken(tokens[t], name, spelling)
  }

  function PrunedAgents(agents: Agents, name: string): Agents
  {
    map a | a in agents :: agents[a].(allowlist := Without(agents[a].allowlist, name))
  }

  // ---- one call, undisturbed ----

  /** The call gets as far as creating its agent. */
  predicate Creates(
    tokens: Tokens, agents: Agents, token: string, agent: string, name: string, grantable: set<string>, now: int)
  {
    Usable(tokens, token, now) && Insertable(agents, agent, name, Allowed(tokens[token].text.scope), grantable)
  }

  datatype RegisterError = InvalidBootstrap | AgentRefused | AgentNotFound

  datatype Credential = Credential(agent: string, allowlist: Option<seq<string>>)

  class AdminService {
    var tokens: Tokens
    var agents: Agents

    constructor (tokens: Tokens, agents: Agents)
      ensures this.tokens == tokens && this.agents == agents
    {
      this.tokens, this.agents := tokens, agents;
    }

    method RevokeAgent(agent: string, now: int)
      modifies this`agents
      ensures agents == AgentRevoked(old(agents), agent, now)
    {
      if agent in agents {
        agents := agents[agent := agents[agent].(revokedAt := Some(now))];
      }
    }

    method Consume(token: string, secret: string, now: int) returns (r: Result<Scope, RegisterError>)
      modifies this`tokens
      ensures r.Ok? <==>
        && Usable(old(tokens), token, now) && old(tokens)[token].secret == secret
        && old(tokens)[token].expiresAt != Some(now)
      ensures r.Ok? ==> r.value == old(tokens)[token].text.scope
      ensures tokens == if r.Ok? then Consumed(old(tokens), token, r.value.singleUse, now) else old(tokens)
    {
      if !Usable(tokens, token, now) || tokens[token].secret != secret {
        return Err(InvalidBootstrap);
      }
      var text := tokens[token].text;
      if !Committable(tokens, token, text, now) {
        return Err(InvalidBootstrap);
      }
      if text.scope.singleUse {
        tokens := tokens[token := tokens[token].(usedAt := Some(now))];
      }
      r := Ok(text.scope);
    }

    /** A call with nothing in between and a still clock. It fails after creating the agent
        exactly on a wrong secret or in the very second of expiry, and then leaves that
        agent revoked and the token untouched. */
    method RegisterAgent(token: string, secret: string, name: string, agent: string, grantable: set<string>, now: int)
      returns (r: Result<Credential, RegisterError>)
      modifies this
      ensures r.Ok? <==>
        && Creates(old(tokens), old(agents), token, agent, name, grantable, now)
        && old(tokens)[token].secret == secret && old(tokens)[token].expiresAt != Some(now)
      ensures r.Ok? ==>
        && r.value == Credential(agent, old(tokens)[token].text.scope.allowlist)
        && agents == old(agents)[agent := Agent(name, Allowed(old(tokens)[token].text.scope), None)]
        && tokens == Consumed(old(tokens), token, old(tokens)[token].text.scope.singleUse, now)
      ensures r.Err? ==> tokens == old(tokens)
      ensures r.Err? && !Creates(old(tokens), old(agents), token, agent, name, grantable, now) ==> agents == old(agents)
      ensures r.Err? && Creates(old(tokens), old(agents), token, agent, name, grantable, now) ==>
        agents == old(agents)[agent := Agent(name, Allowed(old(tokens)[token].text.scope), Some(now))]
    {
      if !Usable(tokens, token, now) {
        return Err(InvalidBootstrap);
      }
      var preview := tokens[token].text.scope;
      if !Insertable(agents, agent, name, Allowed(preview), grantable) {
        return Err(AgentRefused);
      }
      agents := agents[agent := Agent(name, Allowed(preview), None)];
      var consumed := Consume(token, secret, now);
      if consumed.Err? || consumed.value != preview {
        RevokeAgent(agent, now);
        return Err(InvalidBootstrap);
      }
      r := Ok(Credential(agent, preview.allowlist));
    }
  }

  // ---- interleavings ----

  datatype Progress =
    | Started
    | Previewed(preview: Scope)
    | Created(preview: Scope, agent: string)
    | Confirmed(preview: Scope, agent: string)
    | Selected(preview: Scope, agent: string, text: Text, at: int)
    | Refused(agent: string)
    | Returned(agent: string)
    | Failed(created: Option<string>)
    | Aborted

  datatype Call = Call(token: string, secret: string, name: string, progress: Progress)

  /** A consumed token; `granted` is the allowlist handed out, when a credential is. */
  datatype Event = Consumption(
    call: nat, token: string, agent: string, scope: Scope, at: int, granted: Option<Option<seq<string>>>)

  /** `inserted` remembers the allowlist every agent was created with. */
  datatype State = State(
    now: int, tokens: Tokens, agents: Agents, inserted: map<string, seq<string>>, calls: map<nat, Call>,
    log: seq<Event>)

  datatype Label =
    | Tick(seconds: nat)
    | Mint(token: string, row: Token)
    | RevokeToken(token: string)
    | RevokeAgent(agent: string)
    | Prune(name: string, spelling: nat)
    | Present(id: nat, token: string, secret: string, name: string)
    | Preview(id: nat)
    | Create(id: nat, agent: string, grantable: set<string>)
    | Confirm(id: nat)
    | Select(id: nat)
    | Commit(id: nat)
    | CleanUp(id: nat)
    | Abort(id: nat)

  predicate Enabled(s: State, l: Label)
  {
    match l
    case Tick(_) => true
    case Mint(token, row) => token !in s.tokens && row.usedAt.None? && row.revokedAt.None?
    case RevokeToken(_) => true
    case RevokeAgent(_) => true
    case Prune(_, _) => true
    case Present(id, _, _, _) => id !in s.calls
    case Preview(id) => id in s.calls && s.calls[id].progress.Started?
    case Create(id, agent, _) => id in s.calls && s.calls[id].progress.Previewed?
    case Confirm(id) => id in s.calls && s.calls[id].progress.Created?
    case Select(id) => id in s.calls && s.calls[id].progress.Confirmed?
    case Commit(id) => id in s.calls && s.calls[id].progress.Selected?
    case CleanUp(id) => id in s.calls && s.calls[id].progress.Refused?
    case Abort(id) => id in s.calls && !s.calls[id].progress.Returned? && !s.calls[id].progress.Failed?
  }

  function Put(s: State, id: nat, p: Progress): State
    requires id in s.calls
  {
    s.(calls := s.calls[id := s.calls[id].(progress := p)])
  }

  function CreateStep(s: State, id: nat, agent: string, grantable: set<string>): (r: State)
    requires id in s.calls && s.calls[id].progress.Previewed?
    ensures id in r.calls && r.calls == s.calls[id := r.calls[id]]
  {
    var preview, name := s.calls[id].progress.preview, s.calls[id].name;
    if Insertable(s.agents, agent, name, Allowed(preview), grantable) then
      Put(s, id, Created(preview, agent)).(
        agents := s.agents[agent := Agent(name, Allowed(preview), None)],
        inserted := s.inserted[agent := Allowed(preview)])
    else Put(s, id, Failed(None))
  }

  function SelectStep(s: State, id: nat): (r: State)
    requires id in s.calls && s.calls[id].progress.Confirmed?
    ensures id in r.calls && r.calls == s.calls[id := r.calls[id]]
  {
    var c := s.calls[id];
    if Usable(s.tokens, c.token, s.now) && s.tokens[c.token].secret == c.secret then
      Put(s, id, Selected(c.progress.preview, c.progress.agent, s.tokens[c.token].text, s.now))
    else Put(s, id, Refused(c.progress.agent))
  }

  /** The compare-and-set, and the comparison of what it consumed with the preview. */
  function CommitStep(s: State, id: nat): (r: State)
    requires id in s.calls && s.calls[id].progress.Selected?
    ensures id in r.calls && r.calls == s.calls[id := r.calls[id]]
  {
    var c := s.calls[id];
    var p := c.progress;
    if Committable(s.tokens, c.token, p.text, s.now) then
      var same := p.text.scope == p.preview;
      var granted := if same then Some(p.preview.allowlist) else None;
      Put(s, id, if same then Returned(p.agent) else Refused(p.agent)).(
        tokens := Consumed(s.tokens, c.token, p.text.scope.singleUse, p.at),
        log := s.log + [Consumption(id, c.token, p.agent, p.text.scope, s.now, granted)])
    else Put(s, id, Refused(p.agent))
  }

  function Next(s: State, l: Label): State
    requires Enabled(s, l)
  {
    match l
    case Tick(seconds) => s.(now := s.now + seconds)
    case Mint(token, row) => s.(tokens := s.tokens[token := row])
    case RevokeToken(token) => s.(tokens := TokenRevoked(s.tokens, token, s.now))
    case RevokeAgent(agent) => s.(agents := AgentRevoked(s.agents, agent, s.now))
    case Prune(name, spelling) =>
      s.(tokens := PrunedTokens(s.tokens, name, spelling), agents := PrunedAgents(s.agents, name))
    case Present(id, token, secret, name) => s.(calls := s.calls[id := Call(token, secret, name, Started)])
    case Preview(id) =>
      Put(s, id,
        if Usable(s.tokens, s.calls[id].token, s.now) then Previewed(s.tokens[s.calls[id].token].text.scope)
        else Failed(None))
    case Create(id, agent, grantable) => CreateStep(s, id, agent, grantable)
    case Confirm(id) =>
      var p := s.calls[id].progress;
      Put(s, id,
        if p.agent in s.agents && s.agents[p.agent].revokedAt.None? then Confirmed(p.preview, p.agent)
        else Failed(Some(p.agent)))
    case Select(id) => SelectStep(s, id)
    case Commit(id) => CommitStep(s, id)
    case CleanUp(id) =>
      var agent := s.calls[id].progress.agent;
      Put(s, id, Failed(Some(agent))).(agents := AgentRevoked(s.agents, agent, s.now))
    case Abort(id) => Put(s, id, Aborted)
  }

  ghost predicate Init(s: State)
  {
    s.agents.Keys == s.inserted.Keys && s.calls == map[] && s.log == []
  }

  ghost predicate IsRun(states: seq<State>, labels: seq<Label>)
  {
    && |states| == |labels| + 1 && Init(states[0])
    && forall i | 0 <= i < |labels| :: Enabled(states[i], labels[i]) && states[i + 1] == Next(states[i], labels[i])
  }

  // ---- invariants ----

  /** The agent this call created, as far as it remembers it. */
  function Own(p: Progress): Option<string>
  {
    match p
    case Created(_, a) => Some(a)
    case Confirmed(_, a) => Some(a)
    case Selected(_, a, _, _) => Some(a)
    case Refused(a) => Some(a)
    case Returned(a) => Some(a)
    case Failed(a) => a
    case _ => None
  }

  function PreviewOf(p: Progress): Option<Scope>
  {
    match p
    case Created(s, _) => Some(s)
    case Confirmed(s, _) => Some(s)
    case Selected(s, _, _, _) => Some(s)
    case _ => None
  }

  /** The agents of calls: created with the previewed scope, revoked when the call failed. */
  ghost predicate CallInv(s: State, id: nat)
    requires id in s.calls
  {
    var p := s.calls[id].progress;
    && (Own(p).Some? ==> Own(p).value in s.agents && Own(p).value in s.inserted)
    && (Own(p).Some? && PreviewOf(p).Some? ==> s.inserted[Own(p).value] == Allowed(PreviewOf(p).value))
    && (p.Failed? && p.created.Some? ==> s.agents[p.created.value].revokedAt.Some?)
  }

  ghost predicate EventInv(s: State, e: Event)
  {
    && e.token in s.tokens
    && s.tokens[e.token].text.scope.singleUse == e.scope.singleUse
    && (e.scope.singleUse ==> s.tokens[e.token].usedAt.Some?)
    && (e.granted.Some? ==>
          e.granted.value == e.scope.allowlist && e.agent in s.inserted && s.inserted[e.agent] == Allowed(e.scope))
  }

  ghost predicate LogInv(s: State)
  {
    && (forall b | 0 <= b < |s.log| :: EventInv(s, s.log[b]))
    && (forall a, b | 0 <= a < b < |s.log| && s.log[a].token == s.log[b].token :: !s.log[a].scope.singleUse)
  }

  ghost predicate Inv(s: State)
  {
    s.agents.Keys == s.inserted.Keys && (forall id | id in s.calls :: CallInv(s, id)) && LogInv(s)
  }

  /** What no step takes back: rows stay, stay used, stay revoked, keep their secret, their
      expiry and kind of use, and their allowlists only lose names. */
  ghost predicate TokensAge(s: Tokens, s': Tokens)
  {
    forall t | t in s ::
      && t in s' && s'[t].secret == s[t].secret
      && s'[t].expiresAt == s[t].expiresAt && s'[t].reviewed == s[t].reviewed
      && s'[t].text.scope.singleUse == s[t].text.scope.singleUse
      && (s[t].usedAt.Some? ==> s'[t].usedAt.Some?) && (s[t].revokedAt.Some? ==> s'[t].revokedAt.Some?)
      && forall n | n in Allowed(s'[t].text.scope) :: n in Allowed(s[t].text.scope)
  }

  lemma PruneAges(tokens: Tokens, name: string, spelling: nat)
    ensures TokensAge(tokens, PrunedTokens(tokens, name, spelling))
  {
    forall t | t in tokens
      ensures forall n | n in Allowed(PrunedToken(tokens[t], name, spelling).text.scope) ::
        n in Allowed(tokens[t].text.scope)
    {
      WithoutMembers(Allowed(tokens[t].text.scope), name);
    }
  }

  lemma TokensStep(s: State, l: Label)
    requires Enabled(s, l)
    ensures TokensAge(s.tokens, Next(s, l).tokens) && Next(s, l).now >= s.now
  {
    if l.Prune? {
      PruneAges(s.tokens, l.name, l.spelling);
    }
  }

  /** Agents stay, stay revoked, and keep what they were created with. */
  ghost predicate AgentsAge(s: State, s': State)
  {
    && (forall a | a in s.agents :: a in s'.agents && (s.agents[a].revokedAt.Some? ==> s'.agents[a].revokedAt.Some?))
    && (forall a | a in s.inserted :: a in s'.inserted && s'.inserted[a] == s.inserted[a])
    && s'.agents.Keys == s'.inserted.Keys
  }

  lemma AgentsStep(s: State, l: Label)
    requires Enabled(s, l) && s.agents.Keys == s.inserted.Keys
    ensures AgentsAge(s, Next(s, l))
  {
  }

  /** How one step may move one call. */
  ghost predicate CallMoves(s: State, s': State, id: nat)
    requires id in s'.calls
  {
    var p' := s'.calls[id].progress;
    || (id in s.calls && p' == s.calls[id].progress)
    || Own(p').None?
    || (&& PreviewOf(p').Some? && Own(p').value in s'.agents && Own(p').value in s'.inserted
        && s'.inserted[Own(p').value] == Allowed(PreviewOf(p').value))
    || (&& id in s.calls && Own(s.calls[id].progress) == Own(p')
        && (PreviewOf(p').Some? ==> PreviewOf(p') == PreviewOf(s.calls[id].progress))
        && (p'.Failed? && Own(p').value in s'.agents ==> s'.agents[Own(p').value].revokedAt.Some?))
  }

  predicate Acts(l: Label, id: nat)
  {
    match l
    case Tick(_) => false
    case Mint(_, _) => false
    case RevokeToken(_) => false
    case RevokeAgent(_) => false
    case Prune(_, _) => false
    case _ => l.id == id
  }

  lemma BystanderStep(s: State, l: Label, id: nat)
    requires Enabled(s, l) && !Acts(l, id)
    ensures id in Next(s, l).calls <==> id in s.calls
    ensures id in s.calls ==> Next(s, l).calls[id] == s.calls[id]
  {
    hide CreateStep, SelectStep, CommitStep, PrunedTokens, PrunedAgents;
    hide Usable, Committable, Insertable, Consumed, TokenRevoked, AgentRevoked, Allowed;
  }

  lemma ActorStep(s: State, l: Label, id: nat)
    requires Enabled(s, l) && Acts(l, id) && id in Next(s, l).calls
    ensures CallMoves(s, Next(s, l), id)
  {
    hide PrunedTokens, PrunedAgents, Usable, Committable, Insertable, TokenRevoked, Consumed, Allowed;
  }

  lemma CallMovesStep(s: State, l: Label, id: nat)
    requires Enabled(s, l) && id in Next(s, l).calls
    ensures CallMoves(s, Next(s, l), id)
  {
    hide Next, Enabled;
    if Acts(l, id) {
      ActorStep(s, l, id);
    } else {
      BystanderStep(s, l, id);
    }
  }

  lemma CallInvKept(s: State, s': State, id: nat)
    requires id in s.calls ==> CallInv(s, id)
    requires AgentsAge(s, s') && id in s'.calls && CallMoves(s, s', id)
    ensures CallInv(s', id)
  {
  }

  /** How one step may extend the log. */
  ghost predicate LogMoves(s: State, s': State)
  {
    || s'.log == s.log
    || (&& |s'.log| == |s.log| + 1 && s.log == s'.log[..|s.log|]
        && var e := s'.log[|s.log|];
        && e.token in s.tokens && e.token in s'.tokens
        && s.tokens[e.token].usedAt.None? && s.tokens[e.token].text.scope == e.scope
        && (e.scope.singleUse ==> s'.tokens[e.token].usedAt.Some?)
        && e.call in s.calls && s.calls[e.call].progress.Selected? && s.calls[e.call].token == e.token
        && Own(s.calls[e.call].progress) == Some(e.agent)
        && (e.granted.Some? ==>
              e.granted.value == e.scope.allowlist && PreviewOf(s.calls[e.call].progress) == Some(e.scope)))
  }

  lemma LogMovesStep(s: State, l: Label)
    requires Enabled(s, l)
    ensures LogMoves(s, Next(s, l))
  {
    hide TokensAge, PrunedTokens, PrunedAgents;
  }

  lemma EventInvKept(s: State, s': State, e: Event)
    requires TokensAge(s.tokens, s'.tokens) && AgentsAge(s, s') && EventInv(s, e)
    ensures EventInv(s', e)
  {
  }

  lemma LogInvKept(s: State, s': State)
    requires Inv(s) && TokensAge(s.tokens, s'.tokens) && AgentsAge(s, s') && LogMoves(s, s')
    ensures LogInv(s')
  {
    forall b | 0 <= b < |s'.log| ensures EventInv(s', s'.log[b]) {
      if b < |s.log| {
        assert s'.log[b] == s.log[b];
        EventInvKept(s, s', s.log[b]);
      } else {
        assert CallInv(s, s'.log[b].call);
      }
    }
    forall a, b | 0 <= a < b < |s'.log| && s'.log[a].token == s'.log[b].token ensures !s'.log[a].scope.singleUse {
      assert EventInv(s, s.log[a]);
    }
  }

  lemma InvStep(s: State, l: Label)
    requires Inv(s) && Enabled(s, l)
    ensures Inv(Next(s, l))
  {
    hide CallInv, LogInv, TokensAge, CallMoves, LogMoves;
    var s' := Next(s, l);
    TokensStep(s, l);
    AgentsStep(s, l);
    LogMovesStep(s, l);
    LogInvKept(s, s');
    forall id | id in s'.calls ensures CallInv(s', id) {
      CallMovesStep(s, l, id);
      CallInvKept(s, s', id);
    }
  }

  lemma {:induction false} InvRun(states: seq<State>, labels: seq<Label>, i: nat)
    requires IsRun(states, labels) && i < |states|
    ensures Inv(states[i])
  {
    hide CallInv, Next, Enabled;
    if i > 0 {
      InvRun(states, labels, i - 1);
      InvStep(states[i - 1], labels[i - 1]);
    }
  }

  // ---- callers ----

  /** A call about to consume has presented the token's secret. */
  ghost predicate Authentic(s: State, c: Call)
  {
    c.progress.Selected? ==> c.token in s.tokens && s.tokens[c.token].secret == c.secret
  }

  lemma AuthenticActor(s: State, l: Label, id: nat)
    requires Enabled(s, l) && Acts(l, id) && id in Next(s, l).calls
    ensures Authentic(Next(s, l), Next(s, l).calls[id])
  {
    hide PrunedTokens, PrunedAgents, Committable, Insertable, Consumed, TokenRevoked, AgentRevoked, Allowed;
  }

  lemma {:induction false} AuthenticRun(states: seq<State>, labels: seq<Label>, i: nat, id: nat)
    requires IsRun(states, labels) && i < |states| && id in states[i].calls
    ensures Authentic(states[i], states[i].calls[id])
  {
    hide Next, Enabled;
    if i > 0 {
      if Acts(labels[i - 1], id) {
        AuthenticActor(states[i - 1], labels[i - 1], id);
      } else {
        BystanderStep(states[i - 1], labels[i - 1], id);
        AuthenticRun(states, labels, i - 1, id);
        TokensStep(states[i - 1], labels[i - 1]);
      }
    }
  }

  /** A call that answered with a credential has a consumption of its own behind it. */
  ghost predicate Backed(s: State, id: nat, b: nat)
    requires id in s.calls && s.calls[id].progress.Returned? && b < |s.log|
  {
    var e := s.log[b];
    e.call == id && e.token == s.calls[id].token && e.agent == s.calls[id].progress.agent && e.granted.Some?
  }

  lemma BackedActor(s: State, l: Label, id: nat)
    requires Enabled(s, l) && Acts(l, id) && id in Next(s, l).calls && Next(s, l).calls[id].progress.Returned?
    ensures |Next(s, l).log| == |s.log| + 1 && Backed(Next(s, l), id, |s.log|)
  {
    hide PrunedTokens, PrunedAgents, Committable, Insertable, Consumed, TokenRevoked, AgentRevoked, Allowed;
  }

  lemma {:induction false} ReturnedIsBacked(states: seq<State>, labels: seq<Label>, i: nat, id: nat) returns (b: nat)
    requires IsRun(states, labels) && i < |states| && id in states[i].calls && states[i].calls[id].progress.Returned?
    ensures b < |states[i].log| && Backed(states[i], id, b)
  {
    hide Next, Enabled;
    var s, l := states[i - 1], labels[i - 1];
    if Acts(l, id) {
      BackedActor(s, l, id);
      b := |s.log|;
    } else {
      BystanderStep(s, l, id);
      LogMovesStep(s, l);
      b := ReturnedIsBacked(states, labels, i - 1, id);
      assert states[i].log[b] == s.log[b];
    }
  }

  // ---- what every run keeps ----

  /** Two calls that both answered with a credential for one single-use token are one call. */
  lemma OneCredentialPerSingleUse(states: seq<State>, labels: seq<Label>, i: nat, x: nat, y: nat)
    requires IsRun(states, labels) && i < |states| && x in states[i].calls && y in states[i].calls
    requires states[i].calls[x].progress.Returned? && states[i].calls[y].progress.Returned?
    requires states[i].calls[x].token == states[i].calls[y].token
    ensures states[i].calls[x].token in states[i].tokens
    ensures states[i].tokens[states[i].calls[x].token].text.scope.singleUse ==> x == y
  {
    hide Next, Enabled;
    var a := ReturnedIsBacked(states, labels, i, x);
    var b := ReturnedIsBacked(states, labels, i, y);
    InvRun(states, labels, i);
    assert EventInv(states[i], states[i].log[a]);
    if states[i].log[a].scope.singleUse {
      SingleUseOnce(states, labels, i, a, b);
    }
  }

  /** A single-use token is consumed at most once. */
  lemma SingleUseOnce(states: seq<State>, labels: seq<Label>, i: nat, a: nat, b: nat)
    requires IsRun(states, labels) && i < |states| && a < |states[i].log| && b < |states[i].log|
    requires states[i].log[a].token == states[i].log[b].token
    requires states[i].log[a].scope.singleUse || states[i].log[b].scope.singleUse
    ensures a == b
  {
    hide Next, Enabled;
    InvRun(states, labels, i);
    assert EventInv(states[i], states[i].log[a]) && EventInv(states[i], states[i].log[b]);
  }

  /** Revoked, used up, never reviewed, or expired. */
  ghost predicate Dead(s: State, token: string)
  {
    && token in s.tokens
    && (|| s.tokens[token].revokedAt.Some? || s.tokens[token].usedAt.Some? || !s.tokens[token].reviewed
        || (s.tokens[token].expiresAt.Some? && s.tokens[token].expiresAt.value <= s.now))
  }

  lemma DeadStep(s: State, l: Label, token: string)
    requires Enabled(s, l) && Dead(s, token)
    ensures Dead(Next(s, l), token)
    ensures s.log <= Next(s, l).log
    ensures forall b | |s.log| <= b < |Next(s, l).log| :: Next(s, l).log[b].token != token
  {
    assert Dead(Next(s, l), token) by {
      TokensStep(s, l);
      hide Next, Enabled;
    }
    hide PrunedTokens, PrunedAgents, TokensAge, Usable;
  }

  /** Once a token is revoked or expired nothing consumes it any more, whatever was in flight. */
  lemma {:induction false} NoneAfterTheEnd(states: seq<State>, labels: seq<Label>, i: nat, j: nat, token: string)
    requires IsRun(states, labels) && i <= j < |states| && Dead(states[i], token)
    ensures Dead(states[j], token) && states[i].log <= states[j].log
    ensures forall b | |states[i].log| <= b < |states[j].log| :: states[j].log[b].token != token
    decreases j
  {
    hide Next, Enabled, Dead;
    if i < j {
      NoneAfterTheEnd(states, labels, i, j - 1, token);
      DeadStep(states[j - 1], labels[j - 1], token);
    }
  }

  /** The consumption recorded by a step, and the state it hit. */
  ghost predicate ConsumedAt(states: seq<State>, labels: seq<Label>, i: nat, e: Event)
    requires IsRun(states, labels)
  {
    i < |labels| && states[i + 1].log == states[i].log + [e]
  }

  /** Whatever is consumed is a live token, by a call that presented its secret. */
  lemma ConsumptionIsAuthorised(states: seq<State>, labels: seq<Label>, i: nat, e: Event)
    requires IsRun(states, labels) && ConsumedAt(states, labels, i, e)
    ensures e.token in states[i].tokens && !Dead(states[i], e.token) && e.scope == states[i].tokens[e.token].text.scope
    ensures e.call in states[i].calls && states[i].calls[e.call].token == e.token
    ensures states[i].calls[e.call].secret == states[i].tokens[e.token].secret
  {
    assert e == states[i + 1].log[|states[i].log|];
    if Dead(states[i], e.token) {
      DeadStep(states[i], labels[i], e.token);
    }
    LogMovesStep(states[i], labels[i]);
    hide Next, Enabled;
    AuthenticRun(states, labels, i, e.call);
  }

  /**
   Every credential handed out belongs to an agent that was created with exactly the scope
   the token carried when it was consumed, and the caller had presented the token's secret.
   */
  lemma GrantedIsTheTokensScope(states: seq<State>, labels: seq<Label>, i: nat, e: Event)
    requires IsRun(states, labels) && ConsumedAt(states, labels, i, e) && e.granted.Some?
    ensures e.token in states[i].tokens && !Dead(states[i], e.token)
    ensures e.granted.value == states[i].tokens[e.token].text.scope.allowlist
    ensures e.agent in states[i].inserted
    ensures states[i].inserted[e.agent] == Allowed(states[i].tokens[e.token].text.scope)
    ensures e.call in states[i].calls && states[i].calls[e.call].token == e.token
    ensures states[i].calls[e.call].secret == states[i].tokens[e.token].secret
  {
    hide Next, Enabled, Dead;
    ConsumptionIsAuthorised(states, labels, i, e);
    InvRun(states, labels, i);
    LogMovesStep(states[i], labels[i]);
    assert e == states[i + 1].log[|states[i].log|];
    assert CallInv(states[i], e.call);
  }

  lemma PruneStep(s: State, l: Label, token: string)
    requires Enabled(s, l) && l.Prune? && token in s.tokens && s.tokens[token].reviewed
    ensures token in Next(s, l).tokens && l.name !in Allowed(Next(s, l).tokens[token].text.scope)
  {
    WithoutMembers(Allowed(s.tokens[token].text.scope), l.name);
  }

  lemma {:induction false} PrunedStaysOut(states: seq<State>, labels: seq<Label>, j: nat, i: nat, token: string)
    requires IsRun(states, labels) && j < i < |states| && labels[j].Prune?
    requires token in states[j].tokens && states[j].tokens[token].reviewed
    ensures token in states[i].tokens && labels[j].name !in Allowed(states[i].tokens[token].text.scope)
    decreases i
  {
    hide Next, Enabled;
    if i == j + 1 {
      PruneStep(states[j], labels[j], token);
    } else {
      PrunedStaysOut(states, labels, j, i - 1, token);
      TokensStep(states[i - 1], labels[i - 1]);
    }
  }

  /** A name whose registration was deleted, replaced or redirected while the token existed
      is never in the allowlist of an agent whose credential is handed out later. */
  lemma PrunedNamesAreNotGranted(states: seq<State>, labels: seq<Label>, j: nat, i: nat, e: Event)
    requires IsRun(states, labels) && j < i && ConsumedAt(states, labels, i, e) && e.granted.Some?
    requires labels[j].Prune? && e.token in states[j].tokens
    ensures e.agent in states[i].inserted && labels[j].name !in states[i].inserted[e.agent]
  {
    hide Next, Enabled;
    GrantedIsTheTokensScope(states, labels, i, e);
    ReviewedForever(states, labels, j, i, e.token);
    PrunedStaysOut(states, labels, j, i, e.token);
  }

  lemma {:induction false} ReviewedForever(states: seq<State>, labels: seq<Label>, j: nat, i: nat, token: string)
    requires IsRun(states, labels) && j <= i < |states| && token in states[j].tokens
    ensures token in states[i].tokens && states[i].tokens[token].reviewed == states[j].tokens[token].reviewed
    decreases i
  {
    hide Next, Enabled;
    if j < i {
      ReviewedForever(states, labels, j, i - 1, token);
      TokensStep(states[i - 1], labels[i - 1]);
    }
  }

  lemma OwnActorStep(s: State, l: Label, id: nat)
    requires Enabled(s, l) && Acts(l, id) && id in s.calls
    requires s.calls[id].progress.Aborted? || Own(s.calls[id].progress).Some?
    ensures id in Next(s, l).calls
    ensures s.calls[id].progress.Aborted? ==> Next(s, l).calls[id].progress.Aborted?
    ensures Next(s, l).calls[id].progress.Aborted? || Own(Next(s, l).calls[id].progress) == Own(s.calls[id].progress)
  {
    hide PrunedTokens, PrunedAgents, Usable, Committable, Insertable, Consumed, TokenRevoked, AgentRevoked, Allowed;
  }

  lemma {:induction false} AgentRemembered(
    states: seq<State>, labels: seq<Label>, k: nat, i: nat, id: nat, agent: string)
    requires IsRun(states, labels) && k <= i < |states|
    requires id in states[k].calls && Own(states[k].calls[id].progress) == Some(agent)
    ensures id in states[i].calls &&
      (states[i].calls[id].progress.Aborted? || Own(states[i].calls[id].progress) == Some(agent))
    decreases i
  {
    hide Next, Enabled;
    if k < i {
      AgentRemembered(states, labels, k, i - 1, id, agent);
      if Acts(labels[i - 1], id) {
        OwnActorStep(states[i - 1], labels[i - 1], id);
      } else {
        BystanderStep(states[i - 1], labels[i - 1], id);
      }
    }
  }

  /**
   An agent created by a call that answers with an error is revoked by then: every failure
   short of a lost backend cleans up what it created.
   */
  lemma FailedCallsLeaveRevokedAgents(states: seq<State>, labels: seq<Label>, k: nat, i: nat, id: nat, agent: string)
    requires IsRun(states, labels) && k < i < |states|
    requires labels[k].Create? && labels[k].id == id && labels[k].agent == agent
    requires agent !in states[k].agents && agent in states[k + 1].agents
    requires id in states[i].calls && states[i].calls[id].progress.Failed?
    ensures agent in states[i].agents && states[i].agents[agent].revokedAt.Some?
  {
    assert Own(states[k + 1].calls[id].progress) == Some(agent) by {
      assert states[k + 1] == Next(states[k], labels[k]);
    }
    hide Next, Enabled;
    AgentRemembered(states, labels, k + 1, i, id, agent);
    InvRun(states, labels, i);
    assert CallInv(states[i], id);
  }
}
