/**
 HTTP admission: one snapshot read, the cached catalog it must agree with, and the
 discovery listing made from the same rows (src/registrations/admission.rs,
 src/registrations/catalog.rs, src/registrations/api.rs, src/proxy/admission.rs).
 */
module Admission {
  import opened Wrappers
  import opened AuthSpecs
  import opened Ordering
  import opened Registrations

  /** A stored row; `Unreadable` when one of its JSON columns does not parse. */
  datatype Row = Readable(registration: Registration) | Unreadable(rawKind: Kind) {
    function KindOf(): Kind { if Readable? then registration.kind else rawKind }
  }

  type Rows = map<string, Row>

  type Catalog = map<string, Registration>

  datatype JsonList = Absent | Names(names: seq<string>) | Garbage

  datatype Agent = Agent(
    publicId: string, revokedAt: Option<int>, expiresAt: Option<int>, reviewed: bool, allowlist: JsonList,
    denylist: JsonList)

  datatype Binding = Selected(spec: AuthSpec) | GarbageSpec

  datatype Snapshot = Snapshot(rows: Rows, agents: map<int, Agent>, bindings: map<(int, string), Binding>)

  datatype Identity = Identity(id: int, publicId: string, allowlist: Option<seq<string>>, denylist: Option<seq<string>>)

  datatype Denial = InDenylist | NotInAllowlist

  /** `allows_tool`: an explicit denial wins, and only an allowlist gives authority. */
  function Denied(allowlist: Option<seq<string>>, denylist: Option<seq<string>>, name: string): Option<Denial>
  {
    if denylist.Some? && name in denylist.value then Some(InDenylist)
    else if allowlist.None? || name !in allowlist.value then Some(NotInAllowlist)
    else None
  }

  // ---- the snapshot read ----

  datatype HttpAdmission = HttpAdmission(
    registration: Registration, account: Option<AuthSpec>, agentActive: bool, denial: Option<Denial>)

  datatype Unavailable = Unavailable

  function JoinedAgent(s: Snapshot, identity: Identity): Option<Agent>
  {
    var known := identity.id in s.agents && s.agents[identity.id].publicId == identity.publicId;
    if known then Some(s.agents[identity.id]) else None
  }

  function ParsedList(l: JsonList): Result<Option<seq<string>>, Unavailable>
  {
    match l
    case Absent => Ok(None)
    case Names(names) => Ok(Some(names))
    case Garbage => Err(Unavailable)
  }

  predicate Active(agent: Option<Agent>, now: int)
  {
    && agent.Some? && agent.value.revokedAt.None?
    && (agent.value.expiresAt.None? || agent.value.expiresAt.value > now)
  }

  /** One joined row. The allowlist column counts only once it was reviewed. */
  function ReadRow(s: Snapshot, identity: Identity, name: string, now: int): Result<HttpAdmission, Unavailable>
    requires name in s.rows
  {
    var agent := JoinedAgent(s, identity);
    var allow := if agent.Some? && agent.value.reviewed then ParsedList(agent.value.allowlist) else Ok(None);
    var deny := if agent.Some? then ParsedList(agent.value.denylist) else Ok(None);
    var key := (identity.id, name);
    var binding := if agent.Some? && key in s.bindings then Some(s.bindings[key]) else None;
    if allow.Err? || deny.Err? || (binding.Some? && binding.value.GarbageSpec?) || s.rows[name].Unreadable? then
      Err(Unavailable)
    else
      Ok(HttpAdmission(
        s.rows[name].registration, if binding.Some? then Some(binding.value.spec) else None,
        Active(agent, now), Denied(allow.value, deny.value, name)))
  }

  predicate Routable(s: Snapshot, name: string) { name in s.rows && !s.rows[name].KindOf().Infra? }

  /** `http_admissions` for one name: no row, a row that cannot be read, or the row. */
  function AdmissionOf(
    s: Snapshot, identity: Identity, name: string, now: int): Result<Option<HttpAdmission>, Unavailable>
  {
    if !Routable(s, name) then Ok(None)
    else
      var row := ReadRow(s, identity, name, now);
      if row.Err? then Err(row.error) else Ok(Some(row.value))
  }

  // ---- activation ----

  datatype Activation = ActiveNow | Pending | Disabled

  function ActivationOf(name: string, r: Registration, catalog: Catalog): Activation
  {
    if r.disabled then Disabled else if name in catalog && catalog[name] == r then ActiveNow else Pending
  }

  // ---- discovery ----

  ghost predicate Least(names: set<string>, m: string)
  {
    m in names && forall n | n in names && n != m :: StrLess(m, n)
  }

  lemma {:induction false} LeastExists(names: set<string>)
    requires names != {}
    ensures exists m :: Least(names, m)
  {
    var x :| x in names;
    if names == {x} {
      assert Least(names, x);
    } else {
      LeastExists(names - {x});
      var m :| Least(names - {x}, m);
      StrTrichotomy(m, x);
      if StrLess(m, x) {
        assert Least(names, m);
      } else {
        forall n | n in names && n != x ensures StrLess(x, n) {
          if n != m {
            StrTransitive(x, m, n);
          }
        }
        assert Least(names, x);
      }
    }
  }

  /** ORDER BY name. */
  ghost function Ordered(names: set<string>): seq<string>
  {
    if names == {} then []
    else
      LeastExists(names);
      var m :| Least(names, m);
      [m] + Ordered(names - {m})
  }

  lemma {:induction false} OrderedSpec(names: set<string>)
    ensures forall n :: n in Ordered(names) <==> n in names
    ensures forall i, j | 0 <= i < j < |Ordered(names)| :: StrLess(Ordered(names)[i], Ordered(names)[j])
  {
    if names != {} {
      LeastExists(names);
      var m := Ordered(names)[0];
      assert Least(names, m) && Ordered(names) == [m] + Ordered(names - {m});
      OrderedSpec(names - {m});
      forall i, j | 0 <= i < j < |Ordered(names)| ensures StrLess(Ordered(names)[i], Ordered(names)[j]) {
        if i == 0 {
          assert Ordered(names)[j] in Ordered(names - {m});
          StrTrichotomy(m, m);
        }
      }
    }
  }

  datatype Item = Item(name: string, description: string, accountSelected: bool)

  predicate Discoverable(a: HttpAdmission, name: string, kind: Kind, catalog: Catalog)
  {
    && a.agentActive && a.denial.None? && a.registration.kind == kind
    && ActivationOf(name, a.registration, catalog).ActiveNow?
  }

  /** What one row contributes to a listing; an unreadable row contributes nothing. */
  function Contribution(
    s: Snapshot, catalog: Catalog, kind: Kind, identity: Identity, now: int, name: string): Option<Item>
  {
    var a := AdmissionOf(s, identity, name, now);
    if a.Ok? && a.value.Some? && Discoverable(a.value.value, name, kind, catalog) then
      Some(Item(name, a.value.value.registration.description, a.value.value.account.Some?))
    else None
  }

  ghost function Collect(
    names: seq<string>, s: Snapshot, catalog: Catalog, kind: Kind, identity: Identity, now: int): seq<Item>
  {
    if names == [] then []
    else
      var front, item := Collect(names[..|names| - 1], s, catalog, kind, identity, now),
        Contribution(s, catalog, kind, identity, now, names[|names| - 1]);
      if item.Some? then front + [item.value] else front
  }

  ghost function ListPublic(s: Snapshot, catalog: Catalog, kind: Kind, identity: Option<Identity>, now: int): seq<Item>
  {
    if identity.None? then [] else Collect(Ordered(s.rows.Keys), s, catalog, kind, identity.value, now)
  }

  // ---- direct admission, up to the account ----

  /** The decision chain of `target`; `AccountCheck` is where the account is looked at. */
  datatype Gate =
    | IdentityRequired
    | StoreUnavailable
    | NotFound
    | AgentInactive
    | AuthzDenied(denial: Denial)
    | ConnectionNotActive
    | AccountCheck(registration: Registration, account: Option<AuthSpec>)

  function DirectGate(
    s: Snapshot, catalog: Catalog, identity: Option<Identity>, storeWired: bool, readable: bool, name: string,
    now: int): Gate
  {
    if identity.None? then IdentityRequired
    else if !storeWired || !readable then StoreUnavailable
    else
      var a := AdmissionOf(s, identity.value, name, now);
      if a.Err? then StoreUnavailable
      else if a.value.None? then NotFound
      else
        var row := a.value.value;
        if !row.agentActive then AgentInactive
        else if row.denial.Some? then AuthzDenied(row.denial.value)
        else if row.registration.disabled then NotFound
        else if !ActivationOf(name, row.registration, catalog).ActiveNow? then ConnectionNotActive
        else AccountCheck(row.registration, row.account)
  }

  // ---- discovery agrees with direct admission ----

  lemma {:induction false} CollectMembers(
    names: seq<string>, s: Snapshot, catalog: Catalog, kind: Kind, identity: Identity, now: int, item: Item)
    ensures item in Collect(names, s, catalog, kind, identity, now) <==>
      item.name in names && Contribution(s, catalog, kind, identity, now, item.name) == Some(item)
  {
    if names != [] {
      var n := |names| - 1;
      CollectMembers(names[..n], s, catalog, kind, identity, now, item);
      assert names == names[..n] + [names[n]];
    }
  }

  lemma {:induction false} CollectOrder(
    names: seq<string>, s: Snapshot, catalog: Catalog, kind: Kind, identity: Identity, now: int)
    requires forall i, j | 0 <= i < j < |names| :: StrLess(names[i], names[j])
    ensures var r := Collect(names, s, catalog, kind, identity, now);
      forall i, j | 0 <= i < j < |r| :: StrLess(r[i].name, r[j].name)
  {
    if names != [] {
      var n := |names| - 1;
      var front := Collect(names[..n], s, catalog, kind, identity, now);
      CollectOrder(names[..n], s, catalog, kind, identity, now);
      forall i | 0 <= i < |front| ensures StrLess(front[i].name, names[n]) {
        CollectMembers(names[..n], s, catalog, kind, identity, now, front[i]);
        var m :| 0 <= m < n && names[m] == front[i].name;
      }
    }
  }

  /**
   For one snapshot, catalog, clock and identity, an entry is listed under a kind exactly
   when direct admission of that name would get as far as the account check on a row of
   that kind; the listing says truthfully whether an account is selected, and is sorted.
   */
  lemma ListedIffAdmissible(
    s: Snapshot, catalog: Catalog, kind: Kind, identity: Option<Identity>, now: int, item: Item)
    ensures item in ListPublic(s, catalog, kind, identity, now) <==>
      var gate := DirectGate(s, catalog, identity, true, true, item.name, now);
      && gate.AccountCheck? && gate.registration.kind == kind
      && item == Item(item.name, gate.registration.description, gate.account.Some?)
    ensures var r := ListPublic(s, catalog, kind, identity, now);
      forall i, j | 0 <= i < j < |r| :: StrLess(r[i].name, r[j].name)
  {
    if identity.Some? {
      OrderedSpec(s.rows.Keys);
      CollectMembers(Ordered(s.rows.Keys), s, catalog, kind, identity.value, now, item);
      CollectOrder(Ordered(s.rows.Keys), s, catalog, kind, identity.value, now);
    }
  }

  /** A row that cannot be read is refused directly and left out of every listing, and
      hides nothing else: other entries do not depend on it. */
  lemma UnreadableIsRefusedAndOmitted(
    s: Snapshot, catalog: Catalog, kind: Kind, identity: Identity, now: int, name: string, storeWired: bool,
    readable: bool)
    requires Routable(s, name) && ReadRow(s, identity, name, now).Err?
    ensures DirectGate(s, catalog, Some(identity), storeWired, readable, name, now).StoreUnavailable?
    ensures forall item | item in ListPublic(s, catalog, kind, Some(identity), now) :: item.name != name
    ensures forall item: Item | item.name != name ::
      item in ListPublic(s, catalog, kind, Some(identity), now) <==>
      item in ListPublic(s.(rows := s.rows - {name}), catalog, kind, Some(identity), now)
  {
    hide ListPublic, StrLess, Active, Denied, ActivationOf;
    forall item | item in ListPublic(s, catalog, kind, Some(identity), now) ensures item.name != name {
      ListedIffAdmissible(s, catalog, kind, Some(identity), now, item);
    }
    forall item: Item | item.name != name
      ensures item in ListPublic(s, catalog, kind, Some(identity), now) <==>
        item in ListPublic(s.(rows := s.rows - {name}), catalog, kind, Some(identity), now)
    {
      ListedIffAdmissible(s, catalog, kind, Some(identity), now, item);
      ListedIffAdmissible(s.(rows := s.rows - {name}), catalog, kind, Some(identity), now, item);
    }
  }

  // ---- writes and refreshes ----

  /** `Catalog::from_repo`: every row, or nothing if one cannot be read. */
  function Parsed(rows: Rows): Option<Catalog>
  {
    if forall n | n in rows :: rows[n].Readable? then Some(map n | n in rows :: rows[n].registration) else None
  }

  /** `pending` holds the refreshes that have read the table and not yet stored what they read. */
  datatype State = State(rows: Rows, catalog: Catalog, pending: map<nat, Catalog>)

  datatype Label = Write(rows: Rows) | RefreshRead(id: nat) | RefreshStore(id: nat) | RefreshLost(id: nat)

  predicate Enabled(s: State, l: Label)
  {
    match l
    case Write(_) => true
    case RefreshRead(id) => id !in s.pending
    case RefreshStore(id) => id in s.pending
    case RefreshLost(id) => id in s.pending
  }

  /** A refresh that cannot parse the table ends at its read. */
  function Next(s: State, l: Label): State
    requires Enabled(s, l)
  {
    match l
    case Write(rows) => s.(rows := rows)
    case RefreshRead(id) => if Parsed(s.rows).Some? then s.(pending := s.pending[id := Parsed(s.rows).value]) else s
    case RefreshStore(id) => s.(catalog := s.pending[id], pending := s.pending - {id})
    case RefreshLost(id) => s.(pending := s.pending - {id})
  }

  ghost predicate IsRun(states: seq<State>, labels: seq<Label>)
  {
    && |states| == |labels| + 1 && Parsed(states[0].rows) == Some(states[0].catalog) && states[0].pending == map[]
    && forall i | 0 <= i < |labels| :: Enabled(states[i], labels[i]) && states[i + 1] == Next(states[i], labels[i])
  }

  /** The catalog was the table at some moment of the run so far. */
  ghost predicate WasTable(states: seq<State>, i: nat, c: Catalog)
    requires i < |states|
  {
    exists j | 0 <= j <= i :: Parsed(states[j].rows) == Some(c)
  }

  lemma WasTableLater(states: seq<State>, i: nat, j: nat, c: Catalog)
    requires i <= j < |states| && WasTable(states, i, c)
    ensures WasTable(states, j, c)
  {
    var m :| 0 <= m <= i && Parsed(states[m].rows) == Some(c);
  }

  lemma {:induction false} CatalogsArePast(states: seq<State>, labels: seq<Label>, i: nat)
    requires IsRun(states, labels) && i < |states|
    ensures WasTable(states, i, states[i].catalog)
    ensures forall id | id in states[i].pending :: WasTable(states, i, states[i].pending[id])
  {
    if i > 0 {
      hide Parsed;
      CatalogsArePast(states, labels, i - 1);
      WasTableLater(states, i - 1, i, states[i - 1].catalog);
      var before := states[i - 1].pending;
      forall id | id in before ensures WasTable(states, i, before[id]) {
        WasTableLater(states, i - 1, i, before[id]);
      }
      if labels[i - 1].RefreshRead? && Parsed(states[i - 1].rows).Some? {
        assert Parsed(states[i].rows) == Some(states[i].pending[labels[i - 1].id]);
      }
    }
  }

  /**
   Whatever writes and refreshes did, in whatever order they landed: a name gets past the
   gates only with the row its own snapshot of the table holds, enabled, and only while the
   catalog, loaded then or later, holds that very row, read from the table at some moment
   of the run. A stale or lost refresh can refuse a name; it can never admit an outdated one.
   */
  lemma AdmittedRowIsCurrent(
    states: seq<State>, labels: seq<Label>, h: nat, i: nat, s: Snapshot, identity: Option<Identity>, name: string,
    now: int)
    requires IsRun(states, labels) && h <= i < |states| && s.rows == states[h].rows
    requires DirectGate(s, states[i].catalog, identity, true, true, name, now).AccountCheck?
    ensures var r := DirectGate(s, states[i].catalog, identity, true, true, name, now).registration;
      && name in states[h].rows && states[h].rows[name] == Readable(r) && !r.disabled && !r.kind.Infra?
      && name in states[i].catalog && states[i].catalog[name] == r
      && exists j | 0 <= j <= i ::
        && Parsed(states[j].rows) == Some(states[i].catalog)
        && name in states[j].rows && states[j].rows[name] == Readable(r)
  {
    CatalogsArePast(states, labels, i);
    var j :| 0 <= j <= i && Parsed(states[j].rows) == Some(states[i].catalog);
    assert states[j].rows[name] == Readable(states[i].catalog[name]);
  }

  lemma {:induction false} ReadIsHeld(states: seq<State>, labels: seq<Label>, j: nat, k: nat, id: nat)
    requires IsRun(states, labels) && j < k < |states| && labels[j] == RefreshRead(id) && Parsed(states[j].rows).Some?
    requires forall m | j < m < k :: labels[m] != RefreshStore(id) && labels[m] != RefreshLost(id)
    ensures id in states[k].pending && states[k].pending[id] == Parsed(states[j].rows).value
    decreases k
  {
    hide Parsed;
    if j + 1 < k {
      ReadIsHeld(states, labels, j, k - 1, id);
    }
  }

  lemma {:induction false} Unchanged(states: seq<State>, labels: seq<Label>, k: nat, i: nat)
    requires IsRun(states, labels) && k <= i < |states|
    ensures (forall m | k <= m < i :: !labels[m].Write?) ==> states[i].rows == states[k].rows
    ensures (forall m | k <= m < i :: !labels[m].RefreshStore?) ==> states[i].catalog == states[k].catalog
    decreases i
  {
    hide Parsed;
    if k < i {
      Unchanged(states, labels, k, i - 1);
    }
  }

  /** And refreshing works: once a refresh that read after the last write has stored, and
      no older one stores over it, every enabled row is active. */
  lemma RefreshActivates(states: seq<State>, labels: seq<Label>, j: nat, k: nat, i: nat, id: nat, name: string)
    requires IsRun(states, labels) && j < k < i < |states|
    requires labels[j] == RefreshRead(id) && Parsed(states[j].rows).Some? && labels[k] == RefreshStore(id)
    requires forall m | j < m < k :: labels[m] != RefreshStore(id) && labels[m] != RefreshLost(id)
    requires forall m | j <= m < i :: !labels[m].Write?
    requires forall m | k < m < i :: !labels[m].RefreshStore?
    requires name in states[i].rows
    ensures states[i].rows[name].Readable?
    ensures !states[i].rows[name].registration.disabled ==>
      ActivationOf(name, states[i].rows[name].registration, states[i].catalog).ActiveNow?
  {
    ReadIsHeld(states, labels, j, k, id);
    Unchanged(states, labels, j, i);
    Unchanged(states, labels, k + 1, i);
  }
}
