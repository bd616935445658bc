/**
 Concurrent rotations, clears, generic auth writes and sweeps over the sealed
 credential store.  Each label is one SQL statement (or the start or loss of a
 handler); handlers interleave freely.
 */
module CredentialProtocol {
  import opened Wrappers
  import opened AuthSpecs
  import opened CredentialStore

  /** A handler's next statement and what it remembers. */
  datatype Task =
    | SetRead(target: Target)
    | SetInsert(target: Target, oldRef: Option<string>, shape: Option<string>)
    | SetRecord(target: Target, oldRef: Option<string>, shape: Option<string>, ref: string, sealed: string, setAt: int)
    | ClearRead(target: Target)
    | ClearWrite(target: Target, oldRef: Option<string>)
    | Retire(oldRef: Option<string>)
    | SweepOrphans(tickAt: int)
    | SweepTombstones(tickAt: int)
    | Done

  /** `known` holds every ref minted or named so far; a minted ref is never in it. */
  datatype State = State(now: int, secrets: Secrets, specs: Specs, known: set<string>, tasks: map<nat, Task>)

  datatype Config = Config(configured: nat, retentionDays: nat)

  datatype Label =
    | Advance(seconds: nat)
    | Spawn(id: nat, task: Task)
    | Select(id: nat, inherited: Option<string>)
    | Mint(id: nat, ref: string, sealed: string)
    | Record(id: nat, dropsOverrides: bool)
    | Run(id: nat)
    | Write(target: Target, spec: AuthSpec)
    | Drop(targets: set<Target>)
    | Abort(id: nat)

  function Refs(o: Option<string>): set<string> { if o.Some? then {o.value} else {} }

  /** Refs a task may still pass to `tombstone_if_unreferenced`. */
  function OldRefs(t: Task): set<string>
  {
    if t.SetInsert? || t.SetRecord? || t.ClearWrite? || t.Retire? then Refs(t.oldRef) else {}
  }

  /** Minted, sealed, not yet recorded: no response has carried this ref. */
  predicate Undisclosed(s: State, ref: string)
  {
    exists id | id in s.tasks :: s.tasks[id].SetRecord? && s.tasks[id].ref == ref
  }

  predicate Enabled(s: State, l: Label)
  {
    match l
    case Advance(_) => true
    case Spawn(id, task) =>
      id !in s.tasks && (task.SetRead? || task.ClearRead? || (task.SweepOrphans? && task.tickAt == s.now))
    case Select(id, _) => id in s.tasks && (s.tasks[id].SetRead? || s.tasks[id].ClearRead?)
    case Mint(id, ref, _) => id in s.tasks && s.tasks[id].SetInsert? && ref !in s.known
    case Record(id, drops) =>
      id in s.tasks && s.tasks[id].SetRecord? && (drops ==> s.tasks[id].target.Registration?)
    case Run(id) =>
      id in s.tasks &&
      (s.tasks[id].ClearWrite? || s.tasks[id].Retire? || s.tasks[id].SweepOrphans? || s.tasks[id].SweepTombstones?)
    case Write(_, spec) => spec.StoredSecretRef().Some? ==> !Undisclosed(s, spec.StoredSecretRef().value)
    case Drop(_) => true
    case Abort(id) => id in s.tasks
  }

  function Put(s: State, id: nat, task: Task): State { s.(tasks := s.tasks[id := task]) }

  function OverridesOf(specs: Specs, name: string): set<Target>
  {
    set t | t in specs && t.Override? && t.name == name
  }

  function Next(c: Config, s: State, l: Label): State
    requires Enabled(s, l)
  {
    match l
    case Advance(seconds) => s.(now := s.now + seconds)
    case Spawn(id, task) => Put(s, id, task)
    case Select(id, inherited) => AfterSelect(s, id, inherited)
    case Mint(id, ref, sealed) =>
      var t := s.tasks[id];
      Put(s, id, SetRecord(t.target, t.oldRef, t.shape, ref, sealed, s.now)).(
        secrets := Inserted(s.secrets, ref, sealed, s.now), known := s.known + {ref})
    case Record(id, drops) =>
      // Re-creating the row, or moving its destination back, drops the overrides of that name.
      var t := s.tasks[id];
      var kept := if drops then s.specs - OverridesOf(s.specs, t.target.name) else s.specs;
      Put(s, id, Retire(t.oldRef)).(specs := kept[t.target := StoredSpec(t.shape, t.ref)])
    case Run(id) => AfterRun(c, s, id)
    case Write(target, spec) =>
      s.(specs := s.specs[target := spec], known := s.known + Refs(spec.StoredSecretRef()))
    case Drop(targets) => s.(specs := s.specs - targets)
    case Abort(id) => Put(s, id, Done)
  }

  /** The handler's first SELECT; a registration that does not exist ends it. */
  function AfterSelect(s: State, id: nat, inherited: Option<string>): State
    requires id in s.tasks && (s.tasks[id].SetRead? || s.tasks[id].ClearRead?)
  {
    var target := s.tasks[id].target;
    var oldRef := if target in s.specs then s.specs[target].StoredSecretRef() else None;
    if target.Registration? && target !in s.specs then Put(s, id, Done)
    else if s.tasks[id].SetRead? then Put(s, id, SetInsert(target, oldRef, ShapeOf(s.specs, target, None, inherited)))
    else if target.Registration? && oldRef.None? then Put(s, id, Done)
    else Put(s, id, ClearWrite(target, oldRef))
  }

  function AfterRun(c: Config, s: State, id: nat): State
    requires id in s.tasks
  {
    match s.tasks[id]
    case ClearWrite(target, oldRef) =>
      Put(s, id, Retire(oldRef)).(specs := if target.Override? then s.specs - {target} else s.specs[target := NoAuth])
    case Retire(oldRef) =>
      Put(s, id, Done).(
        secrets := if oldRef.Some? then TombstonedIfUnreferenced(s.secrets, s.specs, oldRef.value, s.now)
          else s.secrets)
    case SweepOrphans(tickAt) =>
      Put(s, id, SweepTombstones(tickAt)).(
        secrets := OrphansTombstoned(s.secrets, s.specs, SetBefore(tickAt, Grace(c.configured)), s.now))
    case SweepTombstones(tickAt) =>
      Put(s, id, Done).(secrets := Swept(s.secrets, tickAt - c.retentionDays * SECS_PER_DAY))
    case _ => s
  }

  // ---- runs ----

  ghost predicate Init(s: State)
  {
    && 0 <= s.now && s.tasks == map[] && s.secrets.Keys <= s.known
    && forall t | t in s.specs :: Refs(s.specs[t].StoredSecretRef()) <= s.known
  }

  ghost predicate IsRun(c: Config, states: seq<State>, labels: seq<Label>)
  {
    && |states| == |labels| + 1 && Init(states[0])
    && forall i | 0 <= i < |labels| :: Enabled(states[i], labels[i]) && states[i + 1] == Next(c, states[i], labels[i])
  }

  /** Step `i` records a minted ref no later than the (floored) grace window after sealing it. */
  ghost predicate TimelyRecord(c: Config, states: seq<State>, labels: seq<Label>, i: nat)
    requires IsRun(c, states, labels)
  {
    i < |labels| && labels[i].Record? &&
    states[i].now <= states[i].tasks[labels[i].id].setAt + Grace(c.configured)
  }

  // ---- invariant ----

  ghost predicate TaskInv(c: Config, s: State, id: nat)
    requires id in s.tasks
  {
    var t := s.tasks[id];
    && OldRefs(t) <= s.known
    && (t.SweepOrphans? ==> 0 <= t.tickAt <= s.now)
    && (t.SetRecord? ==>
          && t.ref in s.known
          && !Referenced(s.specs, t.ref)
          && (s.now <= t.setAt + Grace(c.configured) ==>
                t.ref in s.secrets && s.secrets[t.ref] == Secret(t.sealed, t.setAt, None)))
  }

  /** No task is about to retire, or to record, the ref that task `id` has minted. */
  ghost predicate Private(s: State, id: nat, other: nat)
    requires id in s.tasks && other in s.tasks
  {
    s.tasks[id].SetRecord? ==>
      && s.tasks[id].ref !in OldRefs(s.tasks[other])
      && (other != id && s.tasks[other].SetRecord? ==> s.tasks[other].ref != s.tasks[id].ref)
  }

  ghost predicate Inv(c: Config, s: State)
  {
    && 0 <= s.now && s.secrets.Keys <= s.known
    && (forall t | t in s.specs :: Refs(s.specs[t].StoredSecretRef()) <= s.known)
    && (forall id | id in s.tasks :: TaskInv(c, s, id))
    && (forall id, other | id in s.tasks && other in s.tasks :: Private(s, id, other))
  }

  lemma KnownStep(c: Config, s: State, l: Label)
    requires Inv(c, s) && Enabled(s, l)
    ensures var s' := Next(c, s, l);
      && 0 <= s.now <= s'.now && s.known <= s'.known && s'.secrets.Keys <= s'.known
      && forall t | t in s'.specs :: Refs(s'.specs[t].StoredSecretRef()) <= s'.known
  {
    if l.Record? {
      assert TaskInv(c, s, l.id);
    }
  }

  /** Which handler a label moves. */
  predicate Moves(l: Label, id: nat)
  {
    (l.Spawn? || l.Select? || l.Mint? || l.Record? || l.Run? || l.Abort?) && l.id == id
  }

  lemma OtherTasksStay(c: Config, s: State, l: Label, id: nat)
    requires Enabled(s, l) && !Moves(l, id)
    ensures id in Next(c, s, l).tasks <==> id in s.tasks
    ensures id in s.tasks ==> Next(c, s, l).tasks[id] == s.tasks[id]
  {
  }

  /** Where a ref that becomes referenced can come from. */
  lemma ReferencesStep(c: Config, s: State, l: Label, ref: string)
    requires Inv(c, s) && Enabled(s, l) && !Referenced(s.specs, ref) && Referenced(Next(c, s, l).specs, ref)
    ensures (l.Record? && s.tasks[l.id].ref == ref) || (l.Write? && l.spec.StoredSecretRef() == Some(ref))
  {
    var s' := Next(c, s, l);
    var t :| t in s'.specs && s'.specs[t].StoredSecretRef() == Some(ref);
    assert t !in s.specs || s.specs[t] != s'.specs[t];
  }

  /** What an update statement can do to one sealed row. */
  lemma SecretsStep(c: Config, s: State, l: Label, r: string)
    requires Inv(c, s) && Enabled(s, l) && r in s.secrets && Live(s.secrets, r)
    ensures var s' := Next(c, s, l);
      || (r in s'.secrets && s'.secrets[r] == s.secrets[r])
      || (l.Run? && !Referenced(s.specs, r) && s.tasks[l.id].Retire? && s.tasks[l.id].oldRef == Some(r))
      || (l.Run? && !Referenced(s.specs, r) && s.tasks[l.id].SweepOrphans? &&
          s.secrets[r].setAt < SetBefore(s.tasks[l.id].tickAt, Grace(c.configured)))
  {
  }

  lemma MintedStays(c: Config, s: State, l: Label, id: nat)
    requires Inv(c, s) && Enabled(s, l) && id in s.tasks && s.tasks[id].SetRecord? && !Moves(l, id)
    ensures TaskInv(c, Next(c, s, l), id)
  {
    var t, s' := s.tasks[id], Next(c, s, l);
    assert TaskInv(c, s, id) && s'.tasks[id] == t;
    KnownStep(c, s, l);
    if Referenced(s'.specs, t.ref) {
      ReferencesStep(c, s, l, t.ref);
    }
    if s'.now <= t.setAt + Grace(c.configured) {
      SecretsStep(c, s, l, t.ref);
      if l.Run? {
        assert TaskInv(c, s, l.id) && Private(s, id, l.id);
      }
    }
  }

  lemma TaskStep(c: Config, s: State, l: Label, id: nat)
    requires Inv(c, s) && Enabled(s, l) && id in Next(c, s, l).tasks
    ensures TaskInv(c, Next(c, s, l), id)
  {
    KnownStep(c, s, l);
    if !Moves(l, id) {
      OtherTasksStay(c, s, l, id);
      assert TaskInv(c, s, id);
      if s.tasks[id].SetRecord? {
        MintedStays(c, s, l, id);
      }
    } else if id in s.tasks {
      assert TaskInv(c, s, id);
    }
  }

  lemma PrivateStep(c: Config, s: State, l: Label, id: nat, other: nat)
    requires Inv(c, s) && Enabled(s, l) && id in Next(c, s, l).tasks && other in Next(c, s, l).tasks
    ensures Private(Next(c, s, l), id, other)
  {
    if !Moves(l, id) {
      OtherTasksStay(c, s, l, id);
      assert TaskInv(c, s, id);
    }
    if !Moves(l, other) {
      OtherTasksStay(c, s, l, other);
      assert TaskInv(c, s, other);
    }
    if id in s.tasks && other in s.tasks {
      assert Private(s, id, other) && Private(s, other, id);
    }
  }

  lemma InvStep(c: Config, s: State, l: Label)
    requires Inv(c, s) && Enabled(s, l)
    ensures Inv(c, Next(c, s, l))
  {
    var s' := Next(c, s, l);
    KnownStep(c, s, l);
    forall id | id in s'.tasks ensures TaskInv(c, s', id) {
      TaskStep(c, s, l, id);
    }
    forall id, other | id in s'.tasks && other in s'.tasks ensures Private(s', id, other) {
      PrivateStep(c, s, l, id, other);
    }
  }

  lemma {:induction false} InvRun(c: Config, states: seq<State>, labels: seq<Label>, i: nat)
    requires IsRun(c, states, labels) && i < |states|
    ensures Inv(c, states[i])
  {
    if i > 0 {
      InvRun(c, states, labels, i - 1);
      InvStep(c, states[i - 1], labels[i - 1]);
    }
  }

  // ---- theorems ----

  /**
   In every run a set-value handler that records within the grace window writes a live
   ref, and that ref holds the value this handler sealed.
   */
  lemma RecordedRefIsLive(c: Config, states: seq<State>, labels: seq<Label>, i: nat)
    requires IsRun(c, states, labels) && TimelyRecord(c, states, labels, i)
    ensures var t, s' := states[i].tasks[labels[i].id], states[i + 1];
      && t.target in s'.specs && s'.specs[t.target].StoredSecretRef() == Some(t.ref)
      && t.ref in s'.secrets && s'.secrets[t.ref] == Secret(t.sealed, t.setAt, None)
  {
    InvRun(c, states, labels, i);
    assert TaskInv(c, states[i], labels[i].id);
  }

  /**
   A live ref keeps its row, unchanged, for as long as some registration or override
   references it, in every run.
   */
  lemma {:induction false} ReferencedStaysLive(
    c: Config, states: seq<State>, labels: seq<Label>, i: nat, j: nat, r: string)
    requires IsRun(c, states, labels) && i <= j < |states| && Live(states[i].secrets, r)
    requires forall m | i <= m < j :: Referenced(states[m].specs, r)
    ensures Live(states[j].secrets, r) && states[j].secrets[r] == states[i].secrets[r]
    decreases j
  {
    if i < j {
      ReferencedStaysLive(c, states, labels, i, j - 1, r);
      InvRun(c, states, labels, j - 1);
      SecretsStep(c, states[j - 1], labels[j - 1], r);
    }
  }

  /** From its recording on, a rotated-in value resolves until the last reference is dropped. */
  lemma RotatedValueResolves(c: Config, states: seq<State>, labels: seq<Label>, i: nat, j: nat)
    requires IsRun(c, states, labels) && TimelyRecord(c, states, labels, i) && i < j < |states|
    requires forall m | i < m < j :: Referenced(states[m].specs, states[i].tasks[labels[i].id].ref)
    ensures var t := states[i].tasks[labels[i].id];
      Live(states[j].secrets, t.ref) && states[j].secrets[t.ref].sealed == t.sealed
  {
    RecordedRefIsLive(c, states, labels, i);
    ReferencedStaysLive(c, states, labels, i + 1, j, states[i].tasks[labels[i].id].ref);
  }

  lemma DeadStep(c: Config, s: State, l: Label, r: string)
    requires Inv(c, s) && Enabled(s, l) && r in s.known && !Live(s.secrets, r)
    ensures r in Next(c, s, l).known && !Live(Next(c, s, l).secrets, r)
  {
  }

  /** A value once retired or collected never resolves again, whoever still references it. */
  lemma {:induction false} NeverLiveAgain(c: Config, states: seq<State>, labels: seq<Label>, i: nat, j: nat, r: string)
    requires IsRun(c, states, labels) && i <= j < |states| && r in states[i].known && !Live(states[i].secrets, r)
    ensures r in states[j].known && !Live(states[j].secrets, r)
    decreases j
  {
    hide Next, Enabled;
    if i < j {
      NeverLiveAgain(c, states, labels, i, j - 1, r);
      InvRun(c, states, labels, j - 1);
      DeadStep(c, states[j - 1], labels[j - 1], r);
    }
  }

  /** Collection is effective: a value that is old enough and unreferenced when a sweep's
      first statement runs is live in no later state. */
  lemma OrphansAreCollected(c: Config, states: seq<State>, labels: seq<Label>, i: nat, j: nat, r: string)
    requires IsRun(c, states, labels) && i < j < |states|
    requires labels[i].Run? && states[i].tasks[labels[i].id].SweepOrphans?
    requires r in states[i].secrets && !Referenced(states[i].specs, r)
    requires states[i].secrets[r].setAt < SetBefore(states[i].tasks[labels[i].id].tickAt, Grace(c.configured))
    ensures !Live(states[j].secrets, r)
  {
    InvRun(c, states, labels, i);
    InvRun(c, states, labels, i + 1);
    assert r in states[i + 1].known && !Live(states[i + 1].secrets, r);
    hide Next, Enabled, IsRun;
    NeverLiveAgain(c, states, labels, i + 1, j, r);
  }

  lemma ExtendRun(c: Config, states: seq<State>, labels: seq<Label>, l: Label)
    requires IsRun(c, states, labels) && Enabled(states[|labels|], l)
    ensures IsRun(c, states + [Next(c, states[|labels|], l)], labels + [l])
  {
    hide Next, Enabled;
    var more, named := states + [Next(c, states[|labels|], l)], labels + [l];
    forall i | 0 <= i < |named| ensures Enabled(more[i], named[i]) && more[i + 1] == Next(c, more[i], named[i]) {
      if i < |labels| {
        assert named[i] == labels[i] && more[i] == states[i] && more[i + 1] == states[i + 1];
      }
    }
  }

  /** A handler sealed a value at time 0 and has not recorded it when the window closes. */
  lemma SlowHandler(c: Config) returns (states: seq<State>, labels: seq<Label>)
    ensures IsRun(c, states, labels) && |labels| == 4
    ensures states[4] == State(Grace(c.configured) + 1, map["r" := Secret("v", 0, None)], map[], {"r"},
                               map[0 := SetRecord(Override(0, "t"), None, None, "r", "v", 0)])
  {
    var s0 := State(0, map[], map[], {}, map[]);
    states, labels := [s0], [];
    ExtendRun(c, states, labels, Spawn(0, SetRead(Override(0, "t"))));
    states := states + [Next(c, s0, Spawn(0, SetRead(Override(0, "t"))))];
    labels := labels + [Spawn(0, SetRead(Override(0, "t")))];
    var s1 := states[1];
    ExtendRun(c, states, labels, Select(0, None));
    states, labels := states + [Next(c, s1, Select(0, None))], labels + [Select(0, None)];
    var s2 := states[2];
    ExtendRun(c, states, labels, Mint(0, "r", "v"));
    states, labels := states + [Next(c, s2, Mint(0, "r", "v"))], labels + [Mint(0, "r", "v")];
    var s3 := states[3];
    ExtendRun(c, states, labels, Advance(Grace(c.configured) + 1));
    states := states + [Next(c, s3, Advance(Grace(c.configured) + 1))];
    labels := labels + [Advance(Grace(c.configured) + 1)];
  }

  /** The window is tight: whatever is configured, a handler that records one second later
      can find its value collected and record a ref that no longer resolves. */
  lemma WindowIsTight(c: Config) returns (states: seq<State>, labels: seq<Label>)
    ensures IsRun(c, states, labels) && |labels| == 7 && labels[6].Record?
    ensures var t := states[6].tasks[labels[6].id];
      && states[6].now == t.setAt + Grace(c.configured) + 1
      && Referenced(states[7].specs, t.ref) && !Live(states[7].secrets, t.ref)
  {
    states, labels := SlowHandler(c);
    var s4 := states[4];
    ExtendRun(c, states, labels, Spawn(1, SweepOrphans(s4.now)));
    states, labels := states + [Next(c, s4, Spawn(1, SweepOrphans(s4.now)))], labels + [Spawn(1, SweepOrphans(s4.now))];
    var s5 := states[5];
    ExtendRun(c, states, labels, Run(1));
    states, labels := states + [Next(c, s5, Run(1))], labels + [Run(1)];
    var s6 := states[6];
    assert !Live(s6.secrets, "r");
    ExtendRun(c, states, labels, Record(0, false));
    states, labels := states + [Next(c, s6, Record(0, false))], labels + [Record(0, false)];
    assert states[7].specs[Override(0, "t")].StoredSecretRef() == Some("r");
  }
}
