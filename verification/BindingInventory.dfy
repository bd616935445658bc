/**
 Offline account-binding migration, preview side: what a snapshot proposes
 (src/binding_migration/inventory.rs, sources.rs, legacy.rs, types.rs).
 */
module BindingInventory {
  import opened Wrappers
  import opened Primitives
  import opened AuthSpecs
  import opened Ordering
  import opened Registrations

  datatype Agent = Agent(
    id: int, publicId: string, name: string,
    allowlist: Option<seq<string>>, denylist: Option<seq<string>>, certIdentity: Option<string>,
    registeredAt: int, expiresAt: Option<int>, revokedAt: Option<int>, grantsReviewed: bool)

  /** `auth` is None when the stored JSON does not parse. */
  datatype Registration = Registration(
    name: string, kind: Kind, upstream: string, egress: string, auth: Option<AuthSpec>,
    disabled: bool, createdAt: int, updatedAt: int)

  datatype Binding = Binding(agentId: int, registration: string, auth: Option<AuthSpec>, createdAt: int, updatedAt: int)

  datatype Stored = Stored(secretRef: string, setAt: int, tombstonedAt: Option<int>)

  datatype SessionRow = SessionRow(name: string, sessionLabel: string, degraded: bool, accountId: Option<string>,
                                   createdAt: int, updatedAt: int)

  datatype Snapshot = Snapshot(
    agents: seq<Agent>, registrations: seq<Registration>, bindings: seq<Binding>,
    stored: seq<Stored>, sessions: seq<SessionRow>, revision: int)

  datatype Shape = NoneShape | Env | EnvTransformed | File | StringShape | Unsupported | NotInventoried

  datatype Legacy = Legacy(name: string, reason: string, shape: Shape, reference: Option<AuthSpec>)

  /** The static reason strings; a reviewed file may carry any other text. */
  datatype Reason =
    | CredentialFree | EnvUnverified | OpUnverified | SealedUnverified | OauthMetadataOnly
    | InvalidSource | MissingStored | OwnerReselection | SelectionMetadataUnavailable | ConflictingMetadata
    | DegradedSession | MissingSession | UnsupportedSource
    | AgentRevoked | AgentExpired | RegistrationDisabled | InDenylist | NotInAllowlist
    | AmbiguousLegacy | UnsupportedLegacyShape | LegacyMismatch | MissingOwner
    | OtherReason(text: string)

  datatype Action = Propose | Preserve | Skip | OtherAction(text: string)

  datatype Entry = Entry(
    agentId: int, registration: string, action: Action, reason: Reason, auth: Option<AuthSpec>, selected: bool)

  datatype GrantReview = GrantReview(agentId: int, allowlist: seq<string>, selected: bool)

  datatype Summary = Summary(name: string, kind: Kind, disabled: bool, auth: Option<AuthSpec>)

  /** An ideal digest: equal exactly when the digested values are equal. */
  datatype Digest = OfSnapshot(snapshot: Snapshot) | OfPlan(plan: Plan) | Text(text: string)

  datatype Plan = Plan(
    formatVersion: int, snapshot: Digest, agents: seq<Agent>, registrations: seq<Summary>, entries: seq<Entry>,
    legacy: seq<Legacy>, notice: string, grants: seq<GrantReview>)

  /** The clock while planning, while checking a reviewed plan and when inserting, and the
      URL parser's verdict on token endpoints. */
  datatype World = World(now: int, checkedAt: int, insertedAt: int, urlOk: string -> bool)

  const DEFAULT_SESSION_LABEL := "default"
  const BINDINGS_NOTICE := "binding review"
  const GRANTS_NOTICE := "grant review"

  function BindingKey(b: Binding): Pair { (b.agentId, b.registration) }

  function EntryKey(e: Entry): Pair { (e.agentId, e.registration) }

  /** The primary keys and the ORDER BY clauses of the snapshot queries. */
  ghost predicate WellFormed(s: Snapshot)
  {
    && (forall i, j | 0 <= i < j < |s.agents| :: s.agents[i].id < s.agents[j].id)
    && (forall i, j | 0 <= i < j < |s.registrations| :: StrLess(s.registrations[i].name, s.registrations[j].name))
    && StrictlySorted(s.bindings, BindingKey)
  }

  // ---- sources.rs ----

  predicate ValidEnv(name: string) { name != "" && '=' !in name && '\0' !in name }

  predicate TokenChar(c: char)
  {
    'a' <= c <= 'z' || 'A' <= c <= 'Z' || '0' <= c <= '9' || c in "!#$%&'*+-.^_`|~"
  }

  predicate ValidHeader(name: string)
  {
    0 < |name| <= 0xffff && forall i | 0 <= i < |name| :: TokenChar(name[i])
  }

  /** The rule for several selections of one shared session. */
  function Consensus(specs: seq<AuthSpec>, urlOk: string -> bool): (r: Result<Option<AuthSpec>, ()>)
    ensures r.Ok? <==> forall i | 0 <= i < |specs| :: SelectedParameters(specs[i], urlOk).Some? && specs[i] == specs[0]
    ensures r.Ok? ==> r.value == if specs == [] then None else Some(specs[0])
  {
    if specs == [] then Ok(None)
    else
      var last := specs[|specs| - 1];
      var prior := Consensus(specs[..|specs| - 1], urlOk);
      if prior.Err? || SelectedParameters(last, urlOk).None? || (prior.value.Some? && prior.value.value != last) then
        Err(())
      else
        Ok(Some(last))
  }

  /** `consensus`: one pass, leaving at the first spec that is unusable or differs. */
  method FindConsensus(specs: seq<AuthSpec>, urlOk: string -> bool) returns (r: Result<Option<AuthSpec>, ()>)
    ensures r == Consensus(specs, urlOk)
  {
    var selected := None;
    for i := 0 to |specs|
      invariant Consensus(specs[..i], urlOk) == Ok(selected)
    {
      var spec := specs[i];
      assert specs[..i + 1][..i] == specs[..i];
      if SelectedParameters(spec, urlOk).None? || (selected.Some? && selected.value != spec) {
        return Err(());
      }
      selected := Some(spec);
    }
    assert specs[..|specs|] == specs;
    r := Ok(selected);
  }

  predicate Selects(b: Binding, name: string, sessionLabel: string)
  {
    b.registration == name && b.auth.Some? && b.auth.value.OauthSessionLabel() == Some(sessionLabel)
  }

  function Relevant(bindings: seq<Binding>, name: string, sessionLabel: string): seq<AuthSpec>
  {
    if bindings == [] then []
    else
      var b := bindings[|bindings| - 1];
      Relevant(bindings[..|bindings| - 1], name, sessionLabel) +
      if Selects(b, name, sessionLabel) then [b.auth.value] else []
  }

  lemma {:induction false} RelevantSpec(bindings: seq<Binding>, name: string, sessionLabel: string)
    ensures forall b | b in bindings && Selects(b, name, sessionLabel) ::
      b.auth.value in Relevant(bindings, name, sessionLabel)
    ensures forall spec | spec in Relevant(bindings, name, sessionLabel) ::
      exists b | b in bindings :: Selects(b, name, sessionLabel) && b.auth.value == spec
  {
    if bindings != [] {
      RelevantSpec(bindings[..|bindings| - 1], name, sessionLabel);
      assert bindings == bindings[..|bindings| - 1] + [bindings[|bindings| - 1]];
    }
  }

  function OauthReason(s: Snapshot, name: string, spec: AuthSpec, w: World): Reason
  {
    var chosen := spec.OauthSessionLabel();
    if chosen.None? || Blank(chosen.value) || SelectedParameters(spec, w.urlOk).None? then OwnerReselection
    else if exists b | b in s.bindings :: b.auth.None? then SelectionMetadataUnavailable
    else if Consensus(Relevant(s.bindings, name, chosen.value) + [spec], w.urlOk).Err? then ConflictingMetadata
    else if !exists r | r in s.sessions :: r.name == name && r.sessionLabel == chosen.value then MissingSession
    else if exists r | r in s.sessions :: r.name == name && r.sessionLabel == chosen.value && !r.degraded then
      OauthMetadataOnly
    else DegradedSession
  }

  function StoredReason(s: Snapshot, secretRef: string): Reason
  {
    if exists r | r in s.stored :: r.secretRef == secretRef && r.tombstonedAt.None? then SealedUnverified
    else MissingStored
  }

  function SourceReason(s: Snapshot, name: string, spec: AuthSpec, w: World): Reason
  {
    match spec
    case NoAuth => CredentialFree
    case Header(header, envVar) => if ValidHeader(header) && ValidEnv(envVar) then EnvUnverified else InvalidSource
    case Bearer(envVar) => if ValidEnv(envVar) then EnvUnverified else InvalidSource
    case OpHeader(header, _) => if ValidHeader(header) && spec.ValidOpReference() then OpUnverified else InvalidSource
    case OpBearer(_) => if spec.ValidOpReference() then OpUnverified else InvalidSource
    case StoredHeader(header, secretRef) => if ValidHeader(header) then StoredReason(s, secretRef) else InvalidSource
    case StoredBearer(secretRef) => StoredReason(s, secretRef)
    case _ => OauthReason(s, name, spec, w)
  }

  predicate Usable(r: Reason)
  {
    r.CredentialFree? || r.EnvUnverified? || r.OpUnverified? || r.SealedUnverified? || r.OauthMetadataOnly?
  }

  /** A registration template becomes an explicit selection of the default session. */
  function Inherited(spec: AuthSpec): AuthSpec
  {
    if spec.IsOauth() && spec.sessionLabel.None? then spec.(sessionLabel := Some(DEFAULT_SESSION_LABEL)) else spec
  }

  // ---- legacy.rs ----

  predicate Equivalent(legacy: Option<AuthSpec>, current: Option<AuthSpec>)
  {
    legacy.Some? && current.Some? &&
    match (legacy.value, current.value) {
      case (NoAuth, NoAuth) => true
      case (Header(a, x), Header(b, y)) => Lower(a) == Lower(b) && x == y
      case _ => false
    }
  }

  function Matching(rows: seq<Legacy>, name: string): seq<Legacy>
  {
    if rows == [] then []
    else (if rows[0].name == name && !rows[0].shape.NotInventoried? then [rows[0]] else []) + Matching(rows[1..], name)
  }

  function MappingReason(rows: seq<Legacy>, r: Registration): Option<Reason>
  {
    var found := Matching(rows, r.name);
    if found == [] then None
    else if |found| > 1 then Some(AmbiguousLegacy)
    else if !found[0].shape.Env? && !found[0].shape.NoneShape? then Some(UnsupportedLegacyShape)
    else if !Equivalent(found[0].reference, r.auth) then Some(LegacyMismatch)
    else None
  }

  // ---- inventory.rs ----

  function RouteReason(a: Agent, r: Registration, now: int): Option<Reason>
  {
    if a.revokedAt.Some? then Some(AgentRevoked)
    else if a.expiresAt.Some? && a.expiresAt.value < now then Some(AgentExpired)
    else if r.disabled then Some(RegistrationDisabled)
    else if a.denylist.Some? && r.name in a.denylist.value then Some(InDenylist)
    else if (a.allowlist.Some? && r.name !in a.allowlist.value) || (a.grantsReviewed && a.allowlist.None?) then
      Some(NotInAllowlist)
    else None
  }

  function Classify(existing: bool, source: Reason, blocked: Option<Reason>): (Action, Reason)
  {
    (if existing then Preserve else if blocked.None? && Usable(source) then Propose else Skip,
     if !Usable(source) then source else blocked.GetOr(source))
  }

  function FindBinding(bindings: seq<Binding>, k: Pair): (r: Option<Binding>)
    ensures r.Some? ==> r.value in bindings && BindingKey(r.value) == k
    ensures r.None? ==> forall b | b in bindings :: BindingKey(b) != k
  {
    if bindings == [] then None
    else if BindingKey(bindings[0]) == k then Some(bindings[0])
    else
      var r := FindBinding(bindings[1..], k);
      assert bindings == [bindings[0]] + bindings[1..];
      r
  }

  function EntryFor(s: Snapshot, a: Agent, r: Registration, legacy: seq<Legacy>, w: World): (e: Entry)
    ensures EntryKey(e) == (a.id, r.name) && !e.selected
  {
    var existing := FindBinding(s.bindings, (a.id, r.name));
    var template := if r.auth.Some? then Some(Inherited(r.auth.value)) else None;
    var auth := if existing.Some? then existing.value.auth else template;
    var source := if auth.Some? then SourceReason(s, r.name, auth.value, w) else UnsupportedSource;
    var route := RouteReason(a, r, w.now);
    var blocked := if route.Some? then route else if existing.None? then MappingReason(legacy, r) else None;
    var (action, reason) := Classify(existing.Some?, source, blocked);
    Entry(a.id, r.name, action, reason, auth, false)
  }

  /** What `propose` means: unbound, routable, no legacy obstacle, usable source. */
  lemma ProposedMeans(s: Snapshot, a: Agent, r: Registration, legacy: seq<Legacy>, w: World)
    ensures var e := EntryFor(s, a, r, legacy, w);
      e.action == Propose <==>
        && FindBinding(s.bindings, (a.id, r.name)).None?
        && RouteReason(a, r, w.now).None?
        && MappingReason(legacy, r).None?
        && r.auth.Some? && Usable(SourceReason(s, r.name, Inherited(r.auth.value), w))
    ensures var e := EntryFor(s, a, r, legacy, w);
      e.action == Preserve <==> FindBinding(s.bindings, (a.id, r.name)).Some?
  {
  }

  predicate Orphan(s: Snapshot, b: Binding)
  {
    (forall r | r in s.registrations :: r.name != b.registration) || (forall a | a in s.agents :: a.id != b.agentId)
  }

  function OrphanEntry(b: Binding): Entry
  {
    Entry(b.agentId, b.registration, Preserve, MissingOwner, b.auth, false)
  }

  function AgentEntries(s: Snapshot, a: Agent, legacy: seq<Legacy>, w: World, m: nat): seq<Entry>
    requires m <= |s.registrations|
  {
    seq(m, j requires 0 <= j < m => EntryFor(s, a, s.registrations[j], legacy, w))
  }

  /** The verdicts on all pairs, a row per agent, of the first `n` agents. */
  function Rows(s: Snapshot, legacy: seq<Legacy>, w: World, n: nat): seq<seq<Entry>>
    requires n <= |s.agents|
  {
    seq(n, i requires 0 <= i < n => AgentEntries(s, s.agents[i], legacy, w, |s.registrations|))
  }

  function PairEntries(s: Snapshot, legacy: seq<Legacy>, w: World, n: nat): seq<Entry>
    requires n <= |s.agents|
  {
    Flatten(Rows(s, legacy, w, n))
  }

  function OrphanEntries(s: Snapshot, n: nat): seq<Entry>
    requires n <= |s.bindings|
  {
    if n == 0 then []
    else OrphanEntries(s, n - 1) + if Orphan(s, s.bindings[n - 1]) then [OrphanEntry(s.bindings[n - 1])] else []
  }

  function Entries(s: Snapshot, legacy: seq<Legacy>, w: World): seq<Entry>
  {
    SortByKey(PairEntries(s, legacy, w, |s.agents|) + OrphanEntries(s, |s.bindings|), EntryKey)
  }

  function Granted(a: Agent, rs: seq<Registration>, now: int): (names: seq<string>)
    ensures forall name :: name in names <==> exists r | r in rs ::
      r.name == name && !r.kind.Infra? && RouteReason(a, r, now).None?
  {
    if rs == [] then []
    else
      var r := rs[|rs| - 1];
      var front := Granted(a, rs[..|rs| - 1], now);
      assert rs == rs[..|rs| - 1] + [r];
      front + if !r.kind.Infra? && RouteReason(a, r, now).None? then [r.name] else []
  }

  function Summaries(rs: seq<Registration>): seq<Summary>
  {
    seq(|rs|, i requires 0 <= i < |rs| => Summary(rs[i].name, rs[i].kind, rs[i].disabled, rs[i].auth))
  }

  function Grants(s: Snapshot, now: int): seq<GrantReview>
  {
    seq(|s.agents|, i requires 0 <= i < |s.agents| =>
      GrantReview(s.agents[i].id, Granted(s.agents[i], s.registrations, now), false))
  }

  /** `plan` (version 1) and `grant_plan` (version 2). */
  function PlanOf(s: Snapshot, legacy: seq<Legacy>, w: World, version: int): Plan
  {
    Plan(if version == 2 then 2 else 1,
         OfSnapshot(s), s.agents, Summaries(s.registrations), Entries(s, legacy, w), legacy,
         if version == 2 then GRANTS_NOTICE else BINDINGS_NOTICE, if version == 2 then Grants(s, w.now) else [])
  }

  /** The loops of `plan`: pairs agent by agent, then the orphans, then one sort. */
  method CollectEntries(s: Snapshot, legacy: seq<Legacy>, w: World) returns (entries: seq<Entry>)
    ensures entries == Entries(s, legacy, w)
  {
    entries := [];
    for n := 0 to |s.agents|
      invariant entries == PairEntries(s, legacy, w, n)
    {
      for m := 0 to |s.registrations|
        invariant entries == PairEntries(s, legacy, w, n) + AgentEntries(s, s.agents[n], legacy, w, m)
      {
        entries := entries + [EntryFor(s, s.agents[n], s.registrations[m], legacy, w)];
      }
      assert Rows(s, legacy, w, n + 1)[..n] == Rows(s, legacy, w, n);
    }
    for n := 0 to |s.bindings|
      invariant entries == PairEntries(s, legacy, w, |s.agents|) + OrphanEntries(s, n)
    {
      if Orphan(s, s.bindings[n]) {
        entries := entries + [OrphanEntry(s.bindings[n])];
      }
    }
    entries := SortByKey(entries, EntryKey);
  }

  // ---- the plan is complete and names each pair once ----

  ghost predicate PairVerdict(s: Snapshot, legacy: seq<Legacy>, w: World, e: Entry)
  {
    exists a, r | a in s.agents && r in s.registrations :: e == EntryFor(s, a, r, legacy, w)
  }

  ghost predicate OrphanRecord(s: Snapshot, e: Entry)
  {
    exists b | b in s.bindings :: Orphan(s, b) && e == OrphanEntry(b)
  }

  lemma PairEntriesDistinct(s: Snapshot, legacy: seq<Legacy>, w: World)
    requires WellFormed(s)
    ensures DistinctKeys(PairEntries(s, legacy, w, |s.agents|), EntryKey)
  {
    var rows := Rows(s, legacy, w, |s.agents|);
    forall p | 0 <= p < |rows| ensures DistinctKeys(rows[p], EntryKey) {
      forall i, j | 0 <= i < j < |rows[p]| ensures EntryKey(rows[p][i]) != EntryKey(rows[p][j]) {
        StrTrichotomy(s.registrations[i].name, s.registrations[j].name);
      }
    }
    FlattenDistinct(rows, EntryKey);
  }

  lemma PairEntriesMembers(s: Snapshot, legacy: seq<Legacy>, w: World)
    ensures var out := PairEntries(s, legacy, w, |s.agents|);
      && (forall e | e in out :: PairVerdict(s, legacy, w, e))
      && (forall a, r | a in s.agents && r in s.registrations :: EntryFor(s, a, r, legacy, w) in out)
  {
    var rows := Rows(s, legacy, w, |s.agents|);
    var out := Flatten(rows);
    FlattenMembers(rows);
    forall e | e in out ensures PairVerdict(s, legacy, w, e) {
      var i :| 0 <= i < |out| && out[i] == e;
      assert InRow(rows, out[i]);
      var p :| 0 <= p < |rows| && e in rows[p];
      var q :| 0 <= q < |rows[p]| && rows[p][q] == e;
      assert s.agents[p] in s.agents && s.registrations[q] in s.registrations;
    }
    forall a, r | a in s.agents && r in s.registrations ensures EntryFor(s, a, r, legacy, w) in out {
      var p :| 0 <= p < |s.agents| && s.agents[p] == a;
      var q :| 0 <= q < |s.registrations| && s.registrations[q] == r;
      assert rows[p][q] in out;
    }
  }

  lemma OrphansAreNoPairs(s: Snapshot, legacy: seq<Legacy>, w: World, e: Entry, b: Binding)
    requires PairVerdict(s, legacy, w, e) && Orphan(s, b)
    ensures EntryKey(e) != EntryKey(OrphanEntry(b))
  {
    var a, r :| a in s.agents && r in s.registrations && e == EntryFor(s, a, r, legacy, w);
  }

  lemma {:induction false} OrphanEntriesSpec(s: Snapshot, n: nat)
    requires WellFormed(s) && n <= |s.bindings|
    ensures var out := OrphanEntries(s, n);
      && DistinctKeys(out, EntryKey)
      && (forall e | e in out :: exists b | b in s.bindings[..n] :: Orphan(s, b) && e == OrphanEntry(b))
      && (forall b | b in s.bindings[..n] && Orphan(s, b) :: OrphanEntry(b) in out)
  {
    hide Orphan;
    if n > 0 {
      OrphanEntriesSpec(s, n - 1);
      StrictlySortedDistinct(s.bindings, BindingKey);
      forall e | e in OrphanEntries(s, n - 1) ensures EntryKey(e) != BindingKey(s.bindings[n - 1]) {
        var b :| b in s.bindings[..n - 1] && Orphan(s, b) && e == OrphanEntry(b);
      }
      assert s.bindings[..n] == s.bindings[..n - 1] + [s.bindings[n - 1]];
    } else {
      assert s.bindings[..n] == [];
    }
    assert n == |s.bindings| ==> s.bindings[..n] == s.bindings;
  }

  /**
   The plan has exactly one entry per (agent, registration) pair and per orphaned
   binding, in key order, and nothing else.
   */
  lemma PlanComplete(s: Snapshot, legacy: seq<Legacy>, w: World)
    requires WellFormed(s)
    ensures var out := Entries(s, legacy, w);
      && StrictlySorted(out, EntryKey)
      && (forall i | 0 <= i < |out| :: PairVerdict(s, legacy, w, out[i]) || OrphanRecord(s, out[i]))
      && (forall a, r | a in s.agents && r in s.registrations :: EntryFor(s, a, r, legacy, w) in out)
      && (forall b | b in s.bindings && Orphan(s, b) :: OrphanEntry(b) in out)
  {
    var pairs, orphans := PairEntries(s, legacy, w, |s.agents|), OrphanEntries(s, |s.bindings|);
    PairEntriesDistinct(s, legacy, w);
    PairEntriesMembers(s, legacy, w);
    OrphanEntriesSpec(s, |s.bindings|);
    forall x, y | x in pairs && y in orphans ensures EntryKey(x) != EntryKey(y) {
      var b :| b in s.bindings && Orphan(s, b) && y == OrphanEntry(b);
      OrphansAreNoPairs(s, legacy, w, x, b);
    }
    DistinctConcat(pairs, orphans, EntryKey);
    SortByKeySpec(pairs + orphans, EntryKey);
    var out := Entries(s, legacy, w);
    forall i | 0 <= i < |out| ensures PairVerdict(s, legacy, w, out[i]) || OrphanRecord(s, out[i]) {
      assert out[i] in pairs + orphans;
    }
    forall a, r | a in s.agents && r in s.registrations ensures EntryFor(s, a, r, legacy, w) in out {
      assert EntryFor(s, a, r, legacy, w) in pairs + orphans;
    }
    forall b | b in s.bindings && Orphan(s, b) ensures OrphanEntry(b) in out {
      assert OrphanEntry(b) in pairs + orphans;
    }
  }

  lemma BindingUnique(s: Snapshot, b: Binding, c: Binding)
    requires WellFormed(s) && b in s.bindings && c in s.bindings && BindingKey(b) == BindingKey(c)
    ensures b == c
  {
    StrictlySortedDistinct(s.bindings, BindingKey);
  }

  /**
   Every existing binding is listed exactly once, as `preserve` with its own source,
   and `preserve` is said of nothing else.
   */
  lemma BindingsPreservedOnce(s: Snapshot, legacy: seq<Legacy>, w: World, b: Binding)
    requires WellFormed(s) && b in s.bindings
    ensures var out := Entries(s, legacy, w);
      && (exists i | 0 <= i < |out| ::
        EntryKey(out[i]) == BindingKey(b) && out[i].action == Preserve && out[i].auth == b.auth)
      && (forall i, j | 0 <= i < |out| && 0 <= j < |out| && EntryKey(out[i]) == EntryKey(out[j]) :: i == j)
      && (forall i | 0 <= i < |out| && out[i].action == Preserve :: FindBinding(s.bindings, EntryKey(out[i])).Some?)
  {
    var out := Entries(s, legacy, w);
    PlanComplete(s, legacy, w);
    StrictlySortedDistinct(out, EntryKey);
    var found := FindBinding(s.bindings, BindingKey(b));
    BindingUnique(s, b, found.value);
    if Orphan(s, b) {
      var i :| 0 <= i < |out| && out[i] == OrphanEntry(b);
      assert EntryKey(out[i]) == BindingKey(b);
    } else {
      var a :| a in s.agents && a.id == b.agentId;
      var r :| r in s.registrations && r.name == b.registration;
      var i :| 0 <= i < |out| && out[i] == EntryFor(s, a, r, legacy, w);
      assert EntryKey(out[i]) == BindingKey(b);
    }
    forall i | 0 <= i < |out| && out[i].action == Preserve ensures FindBinding(s.bindings, EntryKey(out[i])).Some? {
      assert PairVerdict(s, legacy, w, out[i]) || OrphanRecord(s, out[i]);
    }
  }
}
