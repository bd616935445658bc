/**
 Offline account-binding migration, apply side (src/binding_migration/apply.rs and the
 transaction of mod.rs): a compare-and-set over the whole database with a receipt.
 */
module BindingApply {
  import opened Wrappers
  import opened Primitives
  import opened AuthSpecs
  import opened Ordering
  import opened BindingInventory
  import Registrations
  import Admission

  datatype Error = Conflict | Invalid | Database

  /** Keys of `registrations_meta`: the revision, one receipt per previewed snapshot, others. */
  datatype MetaKey = RevisionKey | ReceiptKey(snapshot: Digest) | OtherKey(text: string)

  datatype MetaValue = Number(n: int) | Receipt(reviewed: Digest, after: Digest) | Junk(text: string)

  datatype Tables = Tables(
    agents: seq<Agent>, registrations: seq<Registration>, bindings: seq<Binding>,
    stored: seq<Stored>, sessions: seq<SessionRow>)

  /** `aclsParse` is false when some stored access list is not valid JSON. */
  datatype Db = Db(tables: Tables, aclsParse: bool, meta: map<MetaKey, MetaValue>)

  function SnapshotOf(t: Tables, revision: int): Snapshot
  {
    Snapshot(t.agents, t.registrations, t.bindings, t.stored, t.sessions, revision)
  }

  function Load(db: Db): Result<Snapshot, Error>
  {
    if !db.aclsParse then Err(Invalid)
    else if RevisionKey !in db.meta then Ok(SnapshotOf(db.tables, 0))
    else if db.meta[RevisionKey].Number? && db.meta[RevisionKey].n > 0 then
      Ok(SnapshotOf(db.tables, db.meta[RevisionKey].n))
    else Err(Conflict)
  }

  function FindReceipt(db: Db, key: MetaKey): Result<Option<MetaValue>, Error>
  {
    if key !in db.meta then Ok(None)
    else if db.meta[key].Receipt? then Ok(Some(db.meta[key]))
    else Err(Conflict)
  }

  function FindAgent(agents: seq<Agent>, id: int): (r: Option<Agent>)
    ensures r.Some? ==> r.value in agents && r.value.id == id
    ensures r.None? ==> forall a | a in agents :: a.id != id
  {
    if agents == [] then None else if agents[0].id == id then Some(agents[0]) else FindAgent(agents[1..], id)
  }

  function FindRegistration(rs: seq<Registration>, name: string): (r: Option<Registration>)
    ensures r.Some? ==> r.value in rs && r.value.name == name
    ensures r.None? ==> forall x | x in rs :: x.name != name
  {
    if rs == [] then None else if rs[0].name == name then Some(rs[0]) else FindRegistration(rs[1..], name)
  }

  /** The per-row conditions of `validate_selected`. */
  predicate Eligible(s: Snapshot, e: Entry, w: World)
  {
    var a, r := FindAgent(s.agents, e.agentId), FindRegistration(s.registrations, e.registration);
    && a.Some? && r.Some? && e.auth.Some? && e.action == Propose
    && RouteReason(a.value, r.value, w.checkedAt).None? && Usable(SourceReason(s, r.value.name, e.auth.value, w))
  }

  predicate ValidSelection(s: Snapshot, p: Plan, w: World)
  {
    forall i | 0 <= i < |p.entries| && p.entries[i].selected :: Eligible(s, p.entries[i], w)
  }

  /** `validate_selected`: the loop leaves at the first ineligible row. */
  method ValidateSelected(s: Snapshot, p: Plan, w: World) returns (ok: bool)
    ensures ok <==> ValidSelection(s, p, w)
  {
    for i := 0 to |p.entries|
      invariant forall j | 0 <= j < i && p.entries[j].selected :: Eligible(s, p.entries[j], w)
    {
      if p.entries[i].selected && !Eligible(s, p.entries[i], w) {
        return false;
      }
    }
    return true;
  }

  predicate SelectsSomething(p: Plan)
  {
    (exists e | e in p.entries :: e.selected) || (exists g | g in p.grants :: g.selected)
  }

  /** The reviewed plan with every flag back to unselected. */
  function Deselected(p: Plan): Plan
  {
    p.(entries := seq(|p.entries|, i requires 0 <= i < |p.entries| => p.entries[i].(selected := false)),
       grants := seq(|p.grants|, i requires 0 <= i < |p.grants| => p.grants[i].(selected := false)))
  }

  function NewBinding(e: Entry, now: int): Binding { Binding(e.agentId, e.registration, e.auth, now, now) }

  /** INSERT statements of the first `n` entries; a taken primary key or a missing agent fails. */
  function BindingsAfter(t: Tables, entries: seq<Entry>, n: nat, now: int): Result<seq<Binding>, Error>
    requires n <= |entries|
  {
    if n == 0 then Ok(t.bindings)
    else
      var before := BindingsAfter(t, entries, n - 1, now);
      var e := entries[n - 1];
      if before.Err? || !e.selected then before
      else if e.auth.None? then Err(Conflict)
      else if FindBinding(before.value, EntryKey(e)).Some? || FindAgent(t.agents, e.agentId).None? then Err(Database)
      else Ok(InsertSorted(before.value, NewBinding(e, now), BindingKey))
  }

  function Reviewed(agents: seq<Agent>, g: GrantReview): seq<Agent>
  {
    seq(|agents|, i requires 0 <= i < |agents| =>
      if agents[i].id == g.agentId then agents[i].(allowlist := Some(g.allowlist), grantsReviewed := true)
      else agents[i])
  }

  /** UPDATE statements of the first `n` grants. */
  function AgentsAfter(agents: seq<Agent>, grants: seq<GrantReview>, n: nat): (r: seq<Agent>)
    requires n <= |grants|
    ensures |r| == |agents|
    ensures forall i | 0 <= i < |agents| :: r[i].id == agents[i].id
  {
    if n == 0 then agents
    else
      var before := AgentsAfter(agents, grants, n - 1);
      if grants[n - 1].selected then Reviewed(before, grants[n - 1]) else before
  }

  function SelectedCount(entries: seq<Entry>, n: nat): nat
    requires n <= |entries|
  {
    if n == 0 then 0 else SelectedCount(entries, n - 1) + if entries[n - 1].selected then 1 else 0
  }

  /** The checks before any write, in the source's order. */
  function Refusal(db: Db, p: Plan, legacy: seq<Legacy>, w: World): Option<Error>
  {
    var current := Load(db);
    if current.Err? then Some(current.error)
    else if !ValidSelection(current.value, p, w) then Some(Conflict)
    else if !(p.formatVersion == 1 || p.formatVersion == 2) || p.legacy != legacy || !SelectsSomething(p) then
      Some(Conflict)
    else FindReceiptError(db, p)
  }

  function FindReceiptError(db: Db, p: Plan): Option<Error>
  {
    var r := FindReceipt(db, ReceiptKey(p.snapshot));
    if r.Err? then Some(r.error) else None
  }

  /** The database a plan leaves that takes effect on `s`, the current snapshot. */
  function Committed(db: Db, s: Snapshot, p: Plan, bindings: seq<Binding>): Db
  {
    var tables := db.tables.(bindings := bindings, agents := AgentsAfter(db.tables.agents, p.grants, |p.grants|));
    var receipt := Receipt(OfPlan(p), OfSnapshot(SnapshotOf(tables, s.revision + 1)));
    db.(tables := tables, meta := db.meta[RevisionKey := Number(s.revision + 1)][ReceiptKey(p.snapshot) := receipt])
  }

  /** `apply`: answer and database after the transaction ends. */
  function Apply(db: Db, p: Plan, legacy: seq<Legacy>, w: World): (r: (Result<nat, Error>, Db))
    ensures r.0.Err? ==> r.1 == db
  {
    var refusal := Refusal(db, p, legacy, w);
    if refusal.Some? then (Err(refusal.value), db)
    else
      var s := Load(db).value;
      var receipt := FindReceipt(db, ReceiptKey(p.snapshot)).value;
      if receipt.Some? then
        var same := receipt.value.reviewed == OfPlan(p) && receipt.value.after == OfSnapshot(s);
        (if same then Ok(0) else Err(Conflict), db)
      else if Deselected(p) != PlanOf(s, legacy, w, p.formatVersion) then (Err(Conflict), db)
      else
        var bindings := BindingsAfter(db.tables, p.entries, |p.entries|, w.insertedAt);
        if bindings.Err? then (Err(bindings.error), db)
        else if s.revision == I64_MAX then (Err(Conflict), db)
        else (Ok(SelectedCount(p.entries, |p.entries|)), Committed(db, s, p, bindings.value))
  }

  /** The plan was compared and written, rather than refused or recognised. */
  predicate TakesEffect(db: Db, p: Plan, legacy: seq<Legacy>, w: World)
  {
    Apply(db, p, legacy, w).0.Ok? && ReceiptKey(p.snapshot) !in db.meta
  }

  /** The database file; `Run` is one IMMEDIATE transaction. */
  class Database {
    var tables: Tables
    var aclsParse: bool
    var meta: map<MetaKey, MetaValue>

    ghost function Contents(): Db
      reads this
    {
      Db(tables, aclsParse, meta)
    }

    constructor (db: Db)
      ensures Contents() == db
    {
      tables, aclsParse, meta := db.tables, db.aclsParse, db.meta;
    }

    method InsertBindings(p: Plan, now: int) returns (error: Option<Error>)
      modifies this`tables
      ensures var r := BindingsAfter(old(tables), p.entries, |p.entries|, now);
        if r.Ok? then error.None? && tables == old(tables).(bindings := r.value) else error == Some(r.error)
    {
      hide InsertSorted, FindBinding, FindAgent;
      var before := tables;
      for n := 0 to |p.entries|
        invariant BindingsAfter(before, p.entries, n, now) == Ok(tables.bindings)
        invariant tables == before.(bindings := tables.bindings)
      {
        var e := p.entries[n];
        if e.selected {
          if e.auth.None? {
            BindingsErrStays(before, p.entries, n + 1, |p.entries|, now);
            return Some(Conflict);
          }
          if FindBinding(tables.bindings, EntryKey(e)).Some? || FindAgent(tables.agents, e.agentId).None? {
            BindingsErrStays(before, p.entries, n + 1, |p.entries|, now);
            return Some(Error.Database);
          }
          tables := tables.(bindings := InsertSorted(tables.bindings, NewBinding(e, now), BindingKey));
        }
      }
      error := None;
    }

    method UpdateAgents(p: Plan)
      modifies this`tables
      ensures tables == old(tables).(agents := AgentsAfter(old(tables).agents, p.grants, |p.grants|))
    {
      var before := tables;
      for n := 0 to |p.grants|
        invariant tables == before.(agents := AgentsAfter(before.agents, p.grants, n))
      {
        if p.grants[n].selected {
          tables := tables.(agents := Reviewed(tables.agents, p.grants[n]));
        }
      }
    }

    /** All or nothing, and exactly the specified effect. */
    method Run(p: Plan, legacy: seq<Legacy>, w: World) returns (answer: Result<nat, Error>)
      modifies this
      ensures (answer, Contents()) == Apply(old(Contents()), p, legacy, w)
    {
      var db := Db(tables, aclsParse, meta);
      var refusal := Refusal(db, p, legacy, w);
      if refusal.Some? {
        return Err(refusal.value);
      }
      var s := Load(db).value;
      var receipt := FindReceipt(db, ReceiptKey(p.snapshot)).value;
      if receipt.Some? {
        if receipt.value.reviewed != OfPlan(p) || receipt.value.after != OfSnapshot(s) {
          return Err(Conflict);
        }
        return Ok(0);
      }
      if Deselected(p) != PlanOf(s, legacy, w, p.formatVersion) {
        return Err(Conflict);
      }
      var error := InsertBindings(p, w.insertedAt);
      if error.Some? || s.revision == I64_MAX {
        tables := db.tables;
        return Err(if error.Some? then error.value else Conflict);
      }
      UpdateAgents(p);
      meta := meta[RevisionKey := Number(s.revision + 1)];
      meta := meta[ReceiptKey(p.snapshot) := Receipt(OfPlan(p), OfSnapshot(SnapshotOf(tables, s.revision + 1)))];
      answer := Ok(SelectedCount(p.entries, |p.entries|));
    }
  }

  lemma {:induction false} BindingsErrStays(t: Tables, entries: seq<Entry>, n: nat, m: nat, now: int)
    requires n <= m <= |entries| && BindingsAfter(t, entries, n, now).Err?
    ensures BindingsAfter(t, entries, m, now) == BindingsAfter(t, entries, n, now)
    decreases m
  {
    if n < m {
      BindingsErrStays(t, entries, n, m - 1, now);
    }
  }

  // ---- what an effective apply does ----

  ghost predicate WellFormedDb(db: Db) { WellFormed(SnapshotOf(db.tables, 0)) }

  lemma DeselectedEntries(p: Plan, q: Plan, i: nat)
    requires Deselected(p) == q && i < |p.entries|
    ensures |q.entries| == |p.entries| && q.entries[i] == p.entries[i].(selected := false)
  {
    assert Deselected(p).entries[i] == p.entries[i].(selected := false);
  }

  /** A selected entry of an accepted plan, seen from the snapshot it was planned on. */
  ghost predicate Proposed(s: Snapshot, legacy: seq<Legacy>, w: World, e: Entry, a: Agent, r: Registration)
  {
    && a in s.agents && r in s.registrations && EntryKey(e) == (a.id, r.name)
    && FindBinding(s.bindings, EntryKey(e)).None?
    && RouteReason(a, r, w.now).None? && MappingReason(legacy, r).None?
    && r.auth.Some? && e.auth == Some(Inherited(r.auth.value))
    && Usable(SourceReason(s, r.name, Inherited(r.auth.value), w))
  }

  lemma SelectedIsProposed(s: Snapshot, p: Plan, legacy: seq<Legacy>, w: World, i: nat)
    returns (a: Agent, r: Registration)
    requires WellFormed(s) && Deselected(p) == PlanOf(s, legacy, w, p.formatVersion)
    requires i < |p.entries| && p.entries[i].action == Propose
    ensures Proposed(s, legacy, w, p.entries[i], a, r)
  {
    var out := Entries(s, legacy, w);
    DeselectedEntries(p, PlanOf(s, legacy, w, p.formatVersion), i);
    PlanComplete(s, legacy, w);
    assert PairVerdict(s, legacy, w, out[i]) || OrphanRecord(s, out[i]);
    a, r :| a in s.agents && r in s.registrations && out[i] == EntryFor(s, a, r, legacy, w);
    ProposedMeans(s, a, r, legacy, w);
  }

  /** Nothing in the way of the INSERT statements. */
  ghost predicate Insertable(t: Tables, entries: seq<Entry>)
  {
    && StrictlySorted(t.bindings, BindingKey) && DistinctKeys(entries, EntryKey)
    && forall i | 0 <= i < |entries| && entries[i].selected ::
         && entries[i].auth.Some? && FindAgent(t.agents, entries[i].agentId).Some?
         && FindBinding(t.bindings, EntryKey(entries[i])).None?
  }

  /** `bs` is the old bindings and those of the first `n` selected entries, no others. */
  ghost predicate Extends(t: Tables, entries: seq<Entry>, n: nat, now: int, bs: seq<Binding>)
    requires n <= |entries|
  {
    && StrictlySorted(bs, BindingKey)
    && (forall b | b in t.bindings :: b in bs)
    && (forall i | 0 <= i < n && entries[i].selected :: NewBinding(entries[i], now) in bs)
    && (forall b | b in bs :: b in t.bindings || Selected(entries, n, now, b))
  }

  ghost predicate Selected(entries: seq<Entry>, n: nat, now: int, b: Binding)
    requires n <= |entries|
  {
    exists i | 0 <= i < n :: entries[i].selected && b == NewBinding(entries[i], now)
  }

  lemma KeyIsFree(t: Tables, entries: seq<Entry>, n: nat, now: int, bs: seq<Binding>)
    requires Insertable(t, entries) && n < |entries| && entries[n].selected && Extends(t, entries, n, now, bs)
    ensures FindBinding(bs, EntryKey(entries[n])).None? && !HasKey(bs, BindingKey, EntryKey(entries[n]))
  {
    hide StrictlySorted, FindBinding;
    forall b | b in bs ensures BindingKey(b) != EntryKey(entries[n]) {
      if b !in t.bindings {
        var i :| 0 <= i < n && entries[i].selected && b == NewBinding(entries[i], now);
        assert EntryKey(entries[i]) != EntryKey(entries[n]);
      }
    }
  }

  lemma InsertOne(t: Tables, entries: seq<Entry>, n: nat, now: int, bs: seq<Binding>)
    requires Insertable(t, entries) && n < |entries| && entries[n].selected && Extends(t, entries, n, now, bs)
    ensures FindBinding(bs, EntryKey(entries[n])).None?
    ensures Extends(t, entries, n + 1, now, InsertSorted(bs, NewBinding(entries[n], now), BindingKey))
  {
    hide StrictlySorted, DistinctKeys, InsertSorted, FindBinding;
    var added := NewBinding(entries[n], now);
    KeyIsFree(t, entries, n, now, bs);
    InsertSortedMembers(bs, added, BindingKey);
    InsertSortedOrder(bs, added, BindingKey);
    var bs' := InsertSorted(bs, added, BindingKey);
    forall b | b in bs' ensures b in t.bindings || Selected(entries, n + 1, now, b) {
      var i :| 0 <= i < |bs'| && bs'[i] == b;
      if bs'[i] == added {
        assert entries[n].selected && b == NewBinding(entries[n], now);
      } else {
        assert b in bs;
        assert Selected(entries, n, now, b) ==> Selected(entries, n + 1, now, b);
      }
    }
  }

  lemma {:induction false} InsertsSucceed(t: Tables, entries: seq<Entry>, n: nat, now: int)
    requires Insertable(t, entries) && n <= |entries|
    ensures BindingsAfter(t, entries, n, now).Ok?
    ensures Extends(t, entries, n, now, BindingsAfter(t, entries, n, now).value)
  {
    hide StrictlySorted, DistinctKeys, InsertSorted;
    if n > 0 {
      InsertsSucceed(t, entries, n - 1, now);
      var bs := BindingsAfter(t, entries, n - 1, now).value;
      if entries[n - 1].selected {
        InsertOne(t, entries, n - 1, now, bs);
      } else {
        forall b | b in bs && b !in t.bindings ensures Selected(entries, n, now, b) {
          assert Selected(entries, n - 1, now, b);
        }
      }
    }
  }

  lemma AcceptedIsInsertable(db: Db, s: Snapshot, p: Plan, legacy: seq<Legacy>, w: World)
    requires WellFormedDb(db) && Load(db) == Ok(s) && ValidSelection(s, p, w)
    requires Deselected(p) == PlanOf(s, legacy, w, p.formatVersion)
    ensures Insertable(db.tables, p.entries)
  {
    var out := Entries(s, legacy, w);
    PlanComplete(s, legacy, w);
    StrictlySortedDistinct(out, EntryKey);
    hide Deselected, Entries, PairVerdict, StrictlySorted;
    forall i, j | 0 <= i < j < |p.entries| ensures EntryKey(p.entries[i]) != EntryKey(p.entries[j]) {
      DeselectedEntries(p, PlanOf(s, legacy, w, p.formatVersion), i);
      DeselectedEntries(p, PlanOf(s, legacy, w, p.formatVersion), j);
      assert EntryKey(out[i]) != EntryKey(out[j]);
    }
    forall i | 0 <= i < |p.entries| && p.entries[i].selected
      ensures FindBinding(s.bindings, EntryKey(p.entries[i])).None?
    {
      assert Eligible(s, p.entries[i], w);
      var a, r := SelectedIsProposed(s, p, legacy, w, i);
    }
  }

  /** After the checks, writing cannot fail, except on an exhausted revision counter. */
  lemma AcceptedPlansCommit(db: Db, p: Plan, legacy: seq<Legacy>, w: World)
    requires WellFormedDb(db) && ReceiptKey(p.snapshot) !in db.meta
    ensures TakesEffect(db, p, legacy, w) <==>
      && Refusal(db, p, legacy, w).None?
      && Deselected(p) == PlanOf(Load(db).value, legacy, w, p.formatVersion)
      && Load(db).value.revision != I64_MAX
  {
    if Refusal(db, p, legacy, w).None? && Deselected(p) == PlanOf(Load(db).value, legacy, w, p.formatVersion) {
      AcceptedIsInsertable(db, Load(db).value, p, legacy, w);
      InsertsSucceed(db.tables, p.entries, |p.entries|, w.insertedAt);
    }
  }

  /** What taking effect comes to, the plan's contents aside. */
  lemma EffectIsCommitted(db: Db, p: Plan, legacy: seq<Legacy>, w: World)
    requires TakesEffect(db, p, legacy, w)
    ensures Load(db).Ok? && ValidSelection(Load(db).value, p, w)
    ensures (p.formatVersion == 1 || p.formatVersion == 2) && p.legacy == legacy && SelectsSomething(p)
    ensures Deselected(p) == PlanOf(Load(db).value, legacy, w, p.formatVersion)
    ensures BindingsAfter(db.tables, p.entries, |p.entries|, w.insertedAt).Ok?
    ensures var bindings := BindingsAfter(db.tables, p.entries, |p.entries|, w.insertedAt).value;
      Apply(db, p, legacy, w).1 == Committed(db, Load(db).value, p, bindings)
  {
    hide ValidSelection, SelectsSomething, Deselected, PlanOf, BindingsAfter, Committed;
  }

  lemma SelectedAreProposed(s: Snapshot, p: Plan, legacy: seq<Legacy>, w: World)
    requires WellFormed(s) && ValidSelection(s, p, w) && Deselected(p) == PlanOf(s, legacy, w, p.formatVersion)
    ensures forall i | 0 <= i < |p.entries| && p.entries[i].selected ::
      exists a, r :: Proposed(s, legacy, w, p.entries[i], a, r)
  {
    forall i | 0 <= i < |p.entries| && p.entries[i].selected
      ensures exists a, r :: Proposed(s, legacy, w, p.entries[i], a, r)
    {
      assert Eligible(s, p.entries[i], w);
      hide Proposed, Deselected, PlanOf;
      var a, r := SelectedIsProposed(s, p, legacy, w, i);
    }
  }

  /**
   An effective apply was planned on the current snapshot.  It keeps every existing
   binding unchanged and adds exactly the selected entries, each on a pair that was
   unbound and passed the route, legacy-mapping and source checks; registrations,
   stored secrets and sessions stay as they are.
   */
  lemma EffectIsTheSelection(db: Db, p: Plan, legacy: seq<Legacy>, w: World)
    requires WellFormedDb(db) && TakesEffect(db, p, legacy, w)
    ensures Load(db).Ok? && p.snapshot == OfSnapshot(Load(db).value)
    ensures var s, t, t' := Load(db).value, db.tables, Apply(db, p, legacy, w).1.tables;
      && t' == t.(bindings := t'.bindings, agents := t'.agents)
      && Extends(t, p.entries, |p.entries|, w.insertedAt, t'.bindings)
      && (forall i | 0 <= i < |p.entries| && p.entries[i].selected ::
            exists a, r :: Proposed(s, legacy, w, p.entries[i], a, r))
  {
    var s := Load(db).value;
    EffectIsCommitted(db, p, legacy, w);
    hide Apply, TakesEffect, BindingsAfter, AgentsAfter;
    AcceptedIsInsertable(db, s, p, legacy, w);
    InsertsSucceed(db.tables, p.entries, |p.entries|, w.insertedAt);
    SelectedAreProposed(s, p, legacy, w);
    hide Extends, Insertable, Proposed, ValidSelection;
    assert Deselected(p).snapshot == OfSnapshot(s);
  }

  // ---- grants ----

  predicate GrantSelected(p: Plan, id: int)
  {
    exists g | g in p.grants :: g.selected && g.agentId == id
  }

  lemma {:induction false} AgentsAfterSpec(agents: seq<Agent>, grants: seq<GrantReview>, n: nat, i: nat)
    requires n <= |grants| == |agents| && i < |agents|
    requires forall j | 0 <= j < |agents| :: grants[j].agentId == agents[j].id
    requires forall j, k | 0 <= j < k < |agents| :: agents[j].id < agents[k].id
    ensures AgentsAfter(agents, grants, n)[i] ==
      if i < n && grants[i].selected then agents[i].(allowlist := Some(grants[i].allowlist), grantsReviewed := true)
      else agents[i]
  {
    if n > 0 {
      AgentsAfterSpec(agents, grants, n - 1, i);
    }
  }

  function Migrated(s: Snapshot, p: Plan, a: Agent, now: int): Agent
  {
    if GrantSelected(p, a.id) then a.(allowlist := Some(Granted(a, s.registrations, now)), grantsReviewed := true)
    else a
  }

  lemma GrantsLineUp(s: Snapshot, p: Plan, now: int)
    requires Deselected(p).grants == Grants(s, now)
    ensures |p.grants| == |s.agents|
    ensures forall j | 0 <= j < |s.agents| ::
      p.grants[j].agentId == s.agents[j].id && p.grants[j].allowlist == Granted(s.agents[j], s.registrations, now)
  {
    forall j | 0 <= j < |s.agents|
      ensures p.grants[j].agentId == s.agents[j].id &&
        p.grants[j].allowlist == Granted(s.agents[j], s.registrations, now)
    {
      assert Deselected(p).grants[j] == p.grants[j].(selected := false);
    }
  }

  lemma MigratedAgent(s: Snapshot, p: Plan, now: int, i: nat)
    requires WellFormed(s) && i < |s.agents| && (Deselected(p).grants == Grants(s, now) || Deselected(p).grants == [])
    ensures AgentsAfter(s.agents, p.grants, |p.grants|)[i] == Migrated(s, p, s.agents[i], now)
  {
    var agents := s.agents;
    if p.grants == [] {
      assert AgentsAfter(agents, p.grants, 0) == agents;
    } else {
      GrantsLineUp(s, p, now);
      AgentsAfterSpec(agents, p.grants, |p.grants|, i);
      if GrantSelected(p, agents[i].id) {
        var g :| g in p.grants && g.selected && g.agentId == agents[i].id;
        var j :| 0 <= j < |p.grants| && p.grants[j] == g;
        assert j == i;
      } else {
        assert p.grants[i] in p.grants;
      }
    }
  }

  /** The agents an effective apply leaves, one by one. */
  lemma AgentsLeft(db: Db, p: Plan, legacy: seq<Legacy>, w: World, i: nat)
    requires WellFormedDb(db) && TakesEffect(db, p, legacy, w) && i < |db.tables.agents|
    ensures var t' := Apply(db, p, legacy, w).1.tables;
      |t'.agents| == |db.tables.agents| && t'.agents[i] == Migrated(Load(db).value, p, db.tables.agents[i], w.now)
  {
    MigratedAgent(Load(db).value, p, w.now, i);
  }

  /** The gate of admission, on the lists its query reads for the agent. */
  predicate LiveGate(a: Agent, name: string)
  {
    Admission.Denied(if a.grantsReviewed then a.allowlist else None, a.denylist, name).None?
  }

  /** The rule before the migration, for a live agent and an enabled registration: a
      null allowlist was unrestricted, unless it had been reviewed already. */
  predicate OldRule(a: Agent, r: Registration, now: int)
  {
    && a.revokedAt.None? && (a.expiresAt.Some? ==> a.expiresAt.value >= now) && !r.disabled
    && (a.denylist.Some? ==> r.name !in a.denylist.value)
    && (if a.allowlist.Some? then r.name in a.allowlist.value else !a.grantsReviewed)
  }

  /**
   Grant migration preserves meaning: the live gate on the migrated agent accepts a
   registration of the snapshot exactly when the old rule did and it is not infra, and
   refuses every name outside the snapshot.
   */
  lemma GrantsPreserveMeaning(db: Db, p: Plan, legacy: seq<Legacy>, w: World, i: nat)
    requires WellFormedDb(db) && TakesEffect(db, p, legacy, w)
    requires i < |db.tables.agents| && GrantSelected(p, db.tables.agents[i].id)
    ensures |Apply(db, p, legacy, w).1.tables.agents| == |db.tables.agents|
    ensures var a, a' := db.tables.agents[i], Apply(db, p, legacy, w).1.tables.agents[i];
      && (forall r | r in db.tables.registrations :: LiveGate(a', r.name) <==> OldRule(a, r, w.now) && !r.kind.Infra?)
      && (forall name | (forall r | r in db.tables.registrations :: r.name != name) :: !LiveGate(a', name))
  {
    AgentsLeft(db, p, legacy, w, i);
    GrantedMeaning(Load(db).value, db.tables.agents[i], w.now);
  }

  lemma GrantedMeaning(s: Snapshot, a: Agent, now: int)
    requires WellFormed(s)
    ensures var a' := a.(allowlist := Some(Granted(a, s.registrations, now)), grantsReviewed := true);
      && (forall r | r in s.registrations :: LiveGate(a', r.name) <==> OldRule(a, r, now) && !r.kind.Infra?)
      && (forall name | (forall r | r in s.registrations :: r.name != name) :: !LiveGate(a', name))
  {
    var a' := a.(allowlist := Some(Granted(a, s.registrations, now)), grantsReviewed := true);
    forall r | r in s.registrations
      ensures LiveGate(a', r.name) <==> OldRule(a, r, now) && !r.kind.Infra?
    {
      assert RouteReason(a, r, now).None? <==> OldRule(a, r, now);
      if r.name in a'.allowlist.value {
        var x :| x in s.registrations && x.name == r.name && !x.kind.Infra? && RouteReason(a, x, now).None?;
        RegistrationUnique(s, x, r);
      }
    }
  }

  lemma RegistrationUnique(s: Snapshot, x: Registration, y: Registration)
    requires WellFormed(s) && x in s.registrations && y in s.registrations && x.name == y.name
    ensures x == y
  {
    StrTrichotomy(x.name, y.name);
  }

  // ---- replay ----

  lemma ReceiptStops(db: Db, p: Plan, legacy: seq<Legacy>, w: World)
    requires ReceiptKey(p.snapshot) in db.meta
    ensures Apply(db, p, legacy, w).1 == db && !TakesEffect(db, p, legacy, w)
  {
  }

  lemma ConsensusStays(
    bs: seq<Binding>, bs': seq<Binding>, name: string, chosen: string, spec: AuthSpec, urlOk: string -> bool)
    requires Consensus(Relevant(bs, name, chosen) + [spec], urlOk).Ok?
    requires forall b | b in bs' :: b in bs || (b.registration == name ==> b.auth == Some(spec))
    ensures Consensus(Relevant(bs', name, chosen) + [spec], urlOk).Ok?
  {
    var prior, later := Relevant(bs, name, chosen) + [spec], Relevant(bs', name, chosen) + [spec];
    hide Consensus, Relevant, SelectedParameters;
    RelevantSpec(bs, name, chosen);
    RelevantSpec(bs', name, chosen);
    forall i | 0 <= i < |later| ensures later[i] == spec {
      if i < |later| - 1 {
        assert later[i] in Relevant(bs', name, chosen);
        var b :| b in bs' && Selects(b, name, chosen) && b.auth.value == later[i];
        if b in bs {
          assert b.auth.value in Relevant(bs, name, chosen);
          var j :| 0 <= j < |prior| - 1 && Relevant(bs, name, chosen)[j] == b.auth.value;
          assert prior[j] == prior[0] == prior[|prior| - 1];
        }
      }
    }
    assert SelectedParameters(prior[|prior| - 1], urlOk).Some?;
  }

  /** Adding bindings that carry the very selection keeps a usable source usable. */
  lemma SourceStaysUsable(s: Snapshot, s': Snapshot, name: string, spec: AuthSpec, w: World)
    requires Usable(SourceReason(s, name, spec, w)) && s'.stored == s.stored && s'.sessions == s.sessions
    requires forall b | b in s'.bindings ::
      b in s.bindings || (b.auth.Some? && (b.registration == name ==> b.auth == Some(spec)))
    ensures Usable(SourceReason(s', name, spec, w))
  {
    hide Consensus, Relevant, Blank;
    if spec.IsOauth() {
      ConsensusStays(s.bindings, s'.bindings, name, spec.OauthSessionLabel().value, spec, w.urlOk);
    }
  }

  lemma AgentUnique(agents: seq<Agent>, k: nat, id: int)
    requires forall i, j | 0 <= i < j < |agents| :: agents[i].id < agents[j].id
    requires k < |agents| && agents[k].id == id
    ensures FindAgent(agents, id) == Some(agents[k])
  {
    var x := FindAgent(agents, id).value;
    var j :| 0 <= j < |agents| && agents[j] == x;
  }

  /** What a second look at one selected row depends on. */
  predicate StillRoutable(p: Plan, a: Agent, r: Registration, now: int)
  {
    (a.expiresAt.Some? ==> a.expiresAt.value >= now) && (GrantSelected(p, a.id) ==> !r.kind.Infra?)
  }

  lemma MigratedRoute(s: Snapshot, p: Plan, a: Agent, a': Agent, r: Registration, before: int, now: int)
    requires WellFormed(s) && r in s.registrations && RouteReason(a, r, before).None?
    requires a' == Migrated(s, p, a, before)
    ensures RouteReason(a', r, now).None? <==> StillRoutable(p, a, r, now)
  {
    if GrantSelected(p, a.id) && r.name in a'.allowlist.value {
      var x :| x in s.registrations && x.name == r.name && !x.kind.Infra? && RouteReason(a, x, before).None?;
      RegistrationUnique(s, x, r);
    }
  }

  /** Everything an effective apply does to the snapshot. */
  ghost predicate Outcome(s: Snapshot, s': Snapshot, p: Plan, legacy: seq<Legacy>, w: World)
  {
    && s'.registrations == s.registrations && s'.stored == s.stored && s'.sessions == s.sessions
    && |s'.agents| == |s.agents|
    && (forall k | 0 <= k < |s.agents| :: s'.agents[k] == Migrated(s, p, s.agents[k], w.now))
    && (forall b | b in s'.bindings :: b in s.bindings || Selected(p.entries, |p.entries|, w.insertedAt, b))
    && (forall i | 0 <= i < |p.entries| && p.entries[i].selected :: SomeProposed(s, legacy, w, p.entries[i]))
  }

  ghost predicate SomeProposed(s: Snapshot, legacy: seq<Legacy>, w: World, e: Entry)
  {
    e.action == Propose && exists a, r :: Proposed(s, legacy, w, e, a, r)
  }

  lemma EffectOutcome(db: Db, p: Plan, legacy: seq<Legacy>, w: World, s': Snapshot)
    requires WellFormedDb(db) && TakesEffect(db, p, legacy, w)
    requires s' == SnapshotOf(Apply(db, p, legacy, w).1.tables, s'.revision)
    ensures Outcome(Load(db).value, s', p, legacy, w)
  {
    var s := Load(db).value;
    EffectIsTheSelection(db, p, legacy, w);
    forall k | 0 <= k < |s.agents|
      ensures |s'.agents| == |s.agents| && s'.agents[k] == Migrated(s, p, s.agents[k], w.now)
    {
      AgentsLeft(db, p, legacy, w, k);
    }
    forall i | 0 <= i < |p.entries| && p.entries[i].selected ensures SomeProposed(s, legacy, w, p.entries[i]) {
      assert Eligible(s, p.entries[i], w);
    }
  }

  lemma SelectedSourceAfter(
    s: Snapshot, s': Snapshot, p: Plan, legacy: seq<Legacy>, w: World, e: Entry, a: Agent, r: Registration)
    requires WellFormed(s) && Outcome(s, s', p, legacy, w) && Proposed(s, legacy, w, e, a, r)
    ensures Usable(SourceReason(s', r.name, e.auth.value, w))
  {
    forall b | b in s'.bindings
      ensures b in s.bindings || (b.auth.Some? && (b.registration == r.name ==> b.auth == e.auth))
    {
      if b !in s.bindings {
        var j :| 0 <= j < |p.entries| && p.entries[j].selected && b == NewBinding(p.entries[j], w.insertedAt);
        assert SomeProposed(s, legacy, w, p.entries[j]);
        var a1, r1 :| Proposed(s, legacy, w, p.entries[j], a1, r1);
        if b.registration == r.name {
          RegistrationUnique(s, r1, r);
        }
      }
    }
    SourceStaysUsable(s, s', r.name, e.auth.value, w);
  }

  lemma ReplayRow(s: Snapshot, s': Snapshot, p: Plan, legacy: seq<Legacy>, w: World, later: World, i: nat)
    returns (a: Agent, r: Registration)
    requires WellFormed(s) && Outcome(s, s', p, legacy, w) && i < |p.entries| && p.entries[i].selected
    requires later.urlOk == w.urlOk
    ensures a in s.agents && r in s.registrations && EntryKey(p.entries[i]) == (a.id, r.name)
    ensures Eligible(s', p.entries[i], later) <==> StillRoutable(p, a, r, later.checkedAt)
  {
    var e := p.entries[i];
    assert SomeProposed(s, legacy, w, e);
    a, r :| Proposed(s, legacy, w, e, a, r);
    var k :| 0 <= k < |s.agents| && s.agents[k] == a;
    AgentUnique(s'.agents, k, a.id);
    RegistrationUnique(s, FindRegistration(s.registrations, r.name).value, r);
    MigratedRoute(s, p, a, s'.agents[k], r, w.now, later.checkedAt);
    SelectedSourceAfter(s, s', p, legacy, w, e, a, r);
    SameSource(s', r.name, e.auth.value, w, later);
  }

  lemma SameSource(s: Snapshot, name: string, spec: AuthSpec, w: World, later: World)
    requires later.urlOk == w.urlOk
    ensures SourceReason(s, name, spec, w) == SourceReason(s, name, spec, later)
  {
  }

  /** Every selected row would pass a second look at `now`. */
  ghost predicate ReplayAccepted(s: Snapshot, p: Plan, now: int)
  {
    forall i | 0 <= i < |p.entries| && p.entries[i].selected :: RowAccepted(s, p, p.entries[i], now)
  }

  ghost predicate RowAccepted(s: Snapshot, p: Plan, e: Entry, now: int)
  {
    forall a, r | a in s.agents && r in s.registrations && EntryKey(e) == (a.id, r.name) :: StillRoutable(p, a, r, now)
  }

  lemma ReplaySelection(s: Snapshot, s': Snapshot, p: Plan, legacy: seq<Legacy>, w: World, later: World)
    requires WellFormed(s) && Outcome(s, s', p, legacy, w) && later.urlOk == w.urlOk
    ensures ValidSelection(s', p, later) <==> ReplayAccepted(s, p, later.checkedAt)
  {
    hide Eligible, Outcome, StillRoutable;
    forall i | 0 <= i < |p.entries| && p.entries[i].selected
      ensures Eligible(s', p.entries[i], later) <==> RowAccepted(s, p, p.entries[i], later.checkedAt)
    {
      var a, r := ReplayRow(s, s', p, legacy, w, later, i);
      forall a2, r2 | a2 in s.agents && r2 in s.registrations && EntryKey(p.entries[i]) == (a2.id, r2.name)
        ensures a2 == a && r2 == r
      {
        RegistrationUnique(s, r, r2);
      }
    }
  }

  lemma ReplayAnswer(db: Db, p: Plan, legacy: seq<Legacy>, w: World, later: World)
    requires TakesEffect(db, p, legacy, w)
    ensures var db' := Apply(db, p, legacy, w).1;
      var s' := SnapshotOf(db'.tables, Load(db).value.revision + 1);
      Apply(db', p, legacy, later) == (if ValidSelection(s', p, later) then Ok(0) else Err(Conflict), db')
  {
    EffectIsCommitted(db, p, legacy, w);
    hide ValidSelection, SelectsSomething, Deselected, PlanOf, BindingsAfter, AgentsAfter, TakesEffect;
    var db' := Committed(db, Load(db).value, p, BindingsAfter(db.tables, p.entries, |p.entries|, w.insertedAt).value);
    assert Load(db') == Ok(SnapshotOf(db'.tables, Load(db).value.revision + 1));
  }

  /**
   Replaying an effective plan on the very state it left never writes.  It answers 0
   exactly when no selected agent has expired since and no selected infra entry belongs
   to an agent whose grant was selected with it (its new allowlist drops infra names);
   otherwise it answers a conflict.
   */
  lemma ReplayExact(db: Db, p: Plan, legacy: seq<Legacy>, w: World, later: World)
    requires WellFormedDb(db) && TakesEffect(db, p, legacy, w) && later.urlOk == w.urlOk
    ensures var db' := Apply(db, p, legacy, w).1;
      var answer := if ReplayAccepted(Load(db).value, p, later.checkedAt) then Ok(0) else Err(Conflict);
      Apply(db', p, legacy, later) == (answer, db')
  {
    var db' := Apply(db, p, legacy, w).1;
    var s' := SnapshotOf(db'.tables, Load(db).value.revision + 1);
    assert ValidSelection(s', p, later) <==> ReplayAccepted(Load(db).value, p, later.checkedAt) by {
      EffectOutcome(db, p, legacy, w, s');
      ReplaySelection(Load(db).value, s', p, legacy, w, later);
    }
    ReplayAnswer(db, p, legacy, w, later);
  }

  /** One agent that may use everything, one infra registration, nothing bound yet. */
  const BARE_AGENT := Agent(1, "p", "a", None, None, None, 0, None, None, false)

  const BARE_INFRA := Registration("r", Registrations.Infra, "", "", Some(NoAuth), false, 0, 0)

  const BARE_DB := Db(Tables([BARE_AGENT], [BARE_INFRA], [], [], []), true, map[])

  /** The grant preview of that database, with its entry and its grant selected. */
  function BarePlan(w: World): Plan
  {
    var s := SnapshotOf(BARE_DB.tables, 0);
    PlanOf(s, [], w, 2).(
      entries := [Entry(1, "r", Propose, CredentialFree, Some(NoAuth), true)], grants := [GrantReview(1, [], true)])
  }

  lemma BarePreview(w: World)
    ensures var s := SnapshotOf(BARE_DB.tables, 0);
      && Entries(s, [], w) == [Entry(1, "r", Propose, CredentialFree, Some(NoAuth), false)]
      && Grants(s, w.now) == [GrantReview(1, [], false)]
  {
    var s := SnapshotOf(BARE_DB.tables, 0);
    var e := EntryFor(s, BARE_AGENT, BARE_INFRA, [], w);
    assert e == Entry(1, "r", Propose, CredentialFree, Some(NoAuth), false);
    assert AgentEntries(s, BARE_AGENT, [], w, 1) == [e];
    assert Rows(s, [], w, 1) == [[e]];
    assert Flatten([[e]]) == [e] by {
      assert [[e]][..0] == [];
    }
    assert OrphanEntries(s, 0) == [];
    assert SortByKey([e] + [], EntryKey) == [e] by {
      assert ([e] + [])[..0] == [];
    }
    assert Granted(BARE_AGENT, [BARE_INFRA], w.now) == [] by {
      assert [BARE_INFRA][..0] == [];
    }
  }

  lemma BarePlanTakesEffect(w: World)
    ensures WellFormedDb(BARE_DB) && TakesEffect(BARE_DB, BarePlan(w), [], w)
  {
    var s, p := SnapshotOf(BARE_DB.tables, 0), BarePlan(w);
    BarePreview(w);
    assert Deselected(p) == PlanOf(s, [], w, 2) by {
      assert Deselected(p).entries == Entries(s, [], w) && Deselected(p).grants == Grants(s, w.now);
    }
    assert p.entries[0].selected && Eligible(s, p.entries[0], w);
    AcceptedPlansCommit(BARE_DB, p, [], w);
  }

  /** A replay can conflict: a plan that takes effect and, replayed at once on the database
      it left, is refused, because its own grant dropped the infra name its entry binds. */
  lemma ReplayCanConflict(w: World)
    ensures WellFormedDb(BARE_DB) && TakesEffect(BARE_DB, BarePlan(w), [], w)
    ensures var db' := Apply(BARE_DB, BarePlan(w), [], w).1;
      db' != BARE_DB && Apply(db', BarePlan(w), [], w) == (Err(Conflict), db')
  {
    var p := BarePlan(w);
    BarePlanTakesEffect(w);
    assert !ReplayAccepted(Load(BARE_DB).value, p, w.checkedAt) by {
      assert p.entries[0].selected && p.grants[0].selected;
      assert !StillRoutable(p, BARE_AGENT, BARE_INFRA, w.checkedAt);
      assert !RowAccepted(Load(BARE_DB).value, p, p.entries[0], w.checkedAt);
    }
    EffectLeavesReceipt(BARE_DB, ApplyPlan(p, [], w));
    hide Apply, TakesEffect;
    ReplayExact(BARE_DB, p, [], w, w);
  }

  // ---- runs of applies and database edits ----

  datatype Label = Edit(db: Db) | ApplyPlan(plan: Plan, legacy: seq<Legacy>, world: World)

  /** An edit may do anything to the tables but keeps the migration's own meta rows. */
  ghost predicate KeepsMeta(db: Db, db': Db)
  {
    forall k: MetaKey | !k.OtherKey? ::
      (k in db'.meta <==> k in db.meta) && (k in db.meta ==> db'.meta[k] == db.meta[k])
  }

  ghost predicate IsRun(dbs: seq<Db>, labels: seq<Label>)
  {
    && |dbs| == |labels| + 1
    && forall i | 0 <= i < |labels| ::
         match labels[i]
         case Edit(db') => dbs[i + 1] == db' && KeepsMeta(dbs[i], db')
         case ApplyPlan(p, legacy, w) => dbs[i + 1] == Apply(dbs[i], p, legacy, w).1
  }

  predicate Effective(db: Db, l: Label)
  {
    l.ApplyPlan? && TakesEffect(db, l.plan, l.legacy, l.world)
  }

  lemma {:induction false} ReceiptsStay(dbs: seq<Db>, labels: seq<Label>, i: nat, j: nat, d: Digest)
    requires IsRun(dbs, labels) && i <= j < |dbs| && ReceiptKey(d) in dbs[i].meta
    ensures ReceiptKey(d) in dbs[j].meta
    decreases j
  {
    if i < j {
      ReceiptsStay(dbs, labels, i, j - 1, d);
    }
  }

  lemma EffectLeavesReceipt(db: Db, l: Label)
    requires Effective(db, l)
    ensures ReceiptKey(l.plan.snapshot) !in db.meta
    ensures ReceiptKey(l.plan.snapshot) in Apply(db, l.plan, l.legacy, l.world).1.meta
  {
  }

  /** At most one plan ever takes effect per previewed snapshot. */
  lemma AtMostOnePlanPerSnapshot(dbs: seq<Db>, labels: seq<Label>, i: nat, j: nat)
    requires IsRun(dbs, labels) && i < |labels| && j < |labels|
    requires Effective(dbs[i], labels[i]) && Effective(dbs[j], labels[j])
    requires labels[i].plan.snapshot == labels[j].plan.snapshot
    ensures i == j
  {
    hide Apply, TakesEffect;
    var d := labels[i].plan.snapshot;
    EffectLeavesReceipt(dbs[i], labels[i]);
    EffectLeavesReceipt(dbs[j], labels[j]);
    if i < j {
      ReceiptsStay(dbs, labels, i + 1, j, d);
    } else if j < i {
      ReceiptsStay(dbs, labels, j + 1, i, d);
    }
  }

  /** Once a plan has taken effect, no later apply of that snapshot's plans writes anything. */
  lemma ReplaysNeverWrite(dbs: seq<Db>, labels: seq<Label>, i: nat, j: nat)
    requires IsRun(dbs, labels) && i < j < |labels| && Effective(dbs[i], labels[i])
    requires labels[j].ApplyPlan? && labels[j].plan.snapshot == labels[i].plan.snapshot
    ensures dbs[j + 1] == dbs[j]
  {
    hide Apply, TakesEffect;
    EffectLeavesReceipt(dbs[i], labels[i]);
    ReceiptsStay(dbs, labels, i + 1, j, labels[i].plan.snapshot);
    ReceiptStops(dbs[j], labels[j].plan, labels[j].legacy, labels[j].world);
  }

  /** A plan takes effect only while the snapshot it was previewed on is the current one. */
  lemma EffectNeedsCurrentSnapshot(dbs: seq<Db>, labels: seq<Label>, i: nat)
    requires IsRun(dbs, labels) && i < |labels| && Effective(dbs[i], labels[i])
    ensures Load(dbs[i]).Ok? && labels[i].plan.snapshot == OfSnapshot(Load(dbs[i]).value)
  {
  }
}
