/** The first-boot catalog loader (src/registrations/seed_loader.rs). */
module SeedLoader {
  import opened Wrappers
  import opened Primitives
  import opened AuthSpecs
  import opened Registrations
  import opened Decimals

  datatype Entry = Entry(
    name: string, kind: Kind, description: string, upstream: string, auth: Option<AuthSpec>, egress: Option<Egress>,
    timeouts: Option<Timeouts>, bodyLimit: Option<nat>, metadata: Option<string>)

  datatype Catalog = Catalog(version: string, entries: seq<Entry>)

  datatype Db = Db(rows: Table, version: Option<string>)

  // ---- versions ----

  function SplitDots(s: string): (parts: seq<string>)
    ensures |parts| > 0
  {
    if s == [] then [""]
    else
      var rest := SplitDots(s[1..]);
      if s[0] == '.' then [""] + rest else [[s[0]] + rest[0]] + rest[1..]
  }

  /** `str::parse::<u64>`: an optional plus sign, at least one digit, no overflow. */
  function ParseU64(s: string): Option<nat>
  {
    var digits := if s != [] && s[0] == '+' then s[1..] else s;
    var value := Value(digits);
    if digits == [] || value.None? || value.value > U64_MAX then None else value
  }

  datatype Version = Version(major: nat, minor: nat, patch: nat)

  function VersionOf(s: string): Version
  {
    var parts := SplitDots(s);
    var part := (i: nat) => if i < |parts| then ParseU64(parts[i]).GetOr(0) else 0;
    Version(part(0), part(1), part(2))
  }

  predicate Before(a: Version, b: Version)
  {
    || a.major < b.major
    || (a.major == b.major && a.minor < b.minor)
    || (a.major == b.major && a.minor == b.minor && a.patch < b.patch)
  }

  predicate SemverLt(a: string, b: string) { Before(VersionOf(a), VersionOf(b)) }

  lemma {:induction false} SplitAtDot(part: string, rest: string)
    requires '.' !in part
    ensures SplitDots(part + "." + rest) == [part] + SplitDots(rest)
  {
    var s := part + "." + rest;
    if part == [] {
      assert s[1..] == rest;
    } else {
      assert s[1..] == part[1..] + "." + rest && s[0] == part[0];
      SplitAtDot(part[1..], rest);
      assert part == [part[0]] + part[1..];
    }
  }

  lemma {:induction false} NothingToSplit(part: string)
    requires '.' !in part
    ensures SplitDots(part) == [part]
  {
    if part != [] {
      NothingToSplit(part[1..]);
      assert part == [part[0]] + part[1..];
    }
  }

  /** Every version written the usual way is read as its three numbers. */
  lemma VersionReadsBack(v: Version)
    requires v.major <= U64_MAX && v.minor <= U64_MAX && v.patch <= U64_MAX
    ensures VersionOf(Digits(v.major) + "." + (Digits(v.minor) + "." + Digits(v.patch))) == v
  {
    var a, b, c := Digits(v.major), Digits(v.minor), Digits(v.patch);
    SplitAtDot(a, b + "." + c);
    SplitAtDot(b, c);
    NothingToSplit(c);
    assert SplitDots(a + "." + (b + "." + c)) == [a, b, c];
    ValueOfDigits(v.major);
    ValueOfDigits(v.minor);
    ValueOfDigits(v.patch);
  }

  // ---- one entry ----

  predicate AuthStated(e: Entry) { e.auth.Some? || e.kind.Infra? }

  function ToRegistration(e: Entry, now: int): Registration
    requires AuthStated(e)
  {
    Registration(
      e.kind, e.description, e.upstream, e.auth.GetOr(NoAuth), e.egress.GetOr(Direct),
      e.timeouts.GetOr(Timeouts(30, 60)),
      e.bodyLimit.GetOr(10 * 1024 * 1024), e.metadata.GetOr("{}"), true, false, now, now)
  }

  /** What the loop does with one entry; None is the cross-kind error. */
  function ApplyEntry(t: Table, e: Entry, now: int): Option<Table>
    requires AuthStated(e)
  {
    if e.name !in t then Some(t[e.name := ToRegistration(e, now)])
    else if !t[e.name].seed then Some(t)
    else if t[e.name].kind != e.kind then None
    else Some(Upserted(t, e.name,
                       ToRegistration(e, now).(createdAt := t[e.name].createdAt, disabled := t[e.name].disabled)))
  }

  // ---- the loop ----

  ghost predicate Stated(es: seq<Entry>) { forall i | 0 <= i < |es| :: AuthStated(es[i]) }

  /** The table the loop has reached, and whether it stopped there on a cross-kind error. */
  datatype Reached = Reached(table: Table, stopped: bool)

  ghost function Applied(t: Table, es: seq<Entry>, now: int): Reached
    requires Stated(es)
  {
    if es == [] then Reached(t, false)
    else
      var front := Applied(t, es[..|es| - 1], now);
      if front.stopped then front
      else
        var next := ApplyEntry(front.table, es[|es| - 1], now);
        if next.Some? then Reached(next.value, false) else Reached(front.table, true)
  }

  lemma AppliedNext(t: Table, es: seq<Entry>, now: int, k: nat)
    requires Stated(es) && k < |es|
    ensures Stated(es[..k]) && Stated(es[..k + 1])
    ensures Applied(t, es[..k], now).stopped ==> Applied(t, es[..k + 1], now) == Applied(t, es[..k], now)
    ensures !Applied(t, es[..k], now).stopped ==>
      var next := ApplyEntry(Applied(t, es[..k], now).table, es[k], now);
      Applied(t, es[..k + 1], now) == (
        if next.Some? then Reached(next.value, false) else Reached(Applied(t, es[..k], now).table, true))
  {
    assert es[..k + 1][..k] == es[..k];
  }

  lemma AppliedNothing(t: Table, es: seq<Entry>, now: int)
    ensures Stated(es[..0]) && Applied(t, es[..0], now) == Reached(t, false)
  {
  }

  lemma {:induction false} StoppedForGood(t: Table, es: seq<Entry>, now: int, j: nat, k: nat)
    requires Stated(es) && j <= k <= |es| && Applied(t, es[..j], now).stopped
    ensures Applied(t, es[..k], now) == Applied(t, es[..j], now)
    decreases k
  {
    if j < k {
      StoppedForGood(t, es, now, j, k - 1);
      AppliedNext(t, es, now, k - 1);
    }
  }

  // ---- what loading never changes ----

  /** Rows stay, with their kind, owner and `disabled` flag and birth date; operator rows stay as they are. */
  ghost predicate Kept(a: Table, b: Table)
  {
    forall n | n in a ::
      && n in b && b[n].kind == a[n].kind && b[n].seed == a[n].seed && b[n].disabled == a[n].disabled
      && b[n].createdAt == a[n].createdAt && (!a[n].seed ==> b[n] == a[n])
  }

  lemma KeptReflexive(a: Table)
    ensures Kept(a, a)
  {
  }

  lemma KeptTransitive(a: Table, b: Table, c: Table)
    requires Kept(a, b) && Kept(b, c)
    ensures Kept(a, c)
  {
  }

  lemma EntryKeeps(t: Table, e: Entry, now: int)
    requires AuthStated(e) && ApplyEntry(t, e, now).Some?
    ensures Kept(t, ApplyEntry(t, e, now).value)
  {
  }

  lemma {:induction false} AppliedKeeps(t: Table, es: seq<Entry>, now: int, j: nat, k: nat)
    requires Stated(es) && j <= k <= |es|
    ensures Kept(Applied(t, es[..j], now).table, Applied(t, es[..k], now).table)
    decreases k
  {
    hide ApplyEntry, Kept;
    KeptReflexive(Applied(t, es[..j], now).table);
    if j < k {
      AppliedKeeps(t, es, now, j, k - 1);
      AppliedNext(t, es, now, k - 1);
      var before := Applied(t, es[..k - 1], now);
      if !before.stopped && ApplyEntry(before.table, es[k - 1], now).Some? {
        EntryKeeps(before.table, es[k - 1], now);
        KeptTransitive(Applied(t, es[..j], now).table, before.table, ApplyEntry(before.table, es[k - 1], now).value);
      }
    }
  }

  // ---- what a completed load means, name by name ----

  ghost predicate Touched(es: seq<Entry>, n: string) { exists i | 0 <= i < |es| :: es[i].name == n }

  ghost function LastOf(es: seq<Entry>, n: string): (e: Entry)
    requires Touched(es, n)
    ensures e.name == n && exists i | 0 <= i < |es| :: es[i] == e && forall j | i < j < |es| :: es[j].name != n
  {
    if es[|es| - 1].name == n then es[|es| - 1]
    else
      assert forall i | 0 <= i < |es| && es[i].name == n :: i < |es| - 1 && es[..|es| - 1][i] == es[i];
      LastOf(es[..|es| - 1], n)
  }

  /** The row a completed load leaves under a name. */
  ghost predicate Installed(t: Table, es: seq<Entry>, now: int, n: string, t': Table)
    requires Stated(es)
  {
    if !Touched(es, n) || (n in t && !t[n].seed) then
      (n in t' <==> n in t) && (n in t ==> t'[n] == t[n])
    else
      && n in t' && AuthStated(LastOf(es, n))
      && t'[n] == ToRegistration(LastOf(es, n), now).(
           disabled := n in t && t[n].disabled, createdAt := if n in t then t[n].createdAt else now)
  }

  lemma TouchedNext(es: seq<Entry>, k: nat, n: string)
    requires k < |es|
    ensures Touched(es[..k + 1], n) <==> Touched(es[..k], n) || es[k].name == n
    ensures es[k].name == n ==> Touched(es[..k + 1], n) && LastOf(es[..k + 1], n) == es[k]
    ensures es[k].name != n && Touched(es[..k], n) ==>
      Touched(es[..k + 1], n) && LastOf(es[..k + 1], n) == LastOf(es[..k], n)
  {
    assert es[..k + 1][..k] == es[..k];
    assert es[..k + 1][k] == es[k];
    if Touched(es[..k], n) {
      var i :| 0 <= i < k && es[..k][i].name == n;
      assert es[..k + 1][i].name == n;
    }
    if Touched(es[..k + 1], n) && es[k].name != n {
      var i :| 0 <= i < k + 1 && es[..k + 1][i].name == n;
      assert es[..k][i].name == n;
    }
  }

  lemma EntryElsewhere(t: Table, e: Entry, now: int, n: string)
    requires AuthStated(e) && n != e.name && ApplyEntry(t, e, now).Some?
    ensures n in ApplyEntry(t, e, now).value <==> n in t
    ensures n in t ==> ApplyEntry(t, e, now).value[n] == t[n]
  {
  }

  lemma InstalledHere(t: Table, es: seq<Entry>, now: int, k: nat, a: Table)
    requires Stated(es) && k < |es| && Kept(t, a) && Stated(es[..k]) && Installed(t, es[..k], now, es[k].name, a)
    requires ApplyEntry(a, es[k], now).Some?
    ensures Stated(es[..k + 1]) && Installed(t, es[..k + 1], now, es[k].name, ApplyEntry(a, es[k], now).value)
  {
    TouchedNext(es, k, es[k].name);
    hide Touched, LastOf, Stated;
  }

  lemma InstalledElsewhere(t: Table, es: seq<Entry>, now: int, k: nat, n: string, a: Table)
    requires Stated(es) && k < |es| && Stated(es[..k]) && Installed(t, es[..k], now, n, a) && n != es[k].name
    requires ApplyEntry(a, es[k], now).Some?
    ensures Stated(es[..k + 1]) && Installed(t, es[..k + 1], now, n, ApplyEntry(a, es[k], now).value)
  {
    TouchedNext(es, k, n);
    EntryElsewhere(a, es[k], now, n);
    hide Touched, LastOf, ApplyEntry, ToRegistration;
  }

  /** A load that completes installs, under every name of the catalog that no operator
      owns, the last entry of that name, and changes nothing else. */
  lemma {:induction false} CompletedLoadInstalls(t: Table, es: seq<Entry>, now: int, k: nat, n: string)
    requires Stated(es) && k <= |es| && !Applied(t, es[..k], now).stopped
    ensures Installed(t, es[..k], now, n, Applied(t, es[..k], now).table)
  {
    if k > 0 {
      AppliedNext(t, es, now, k - 1);
      CompletedLoadInstalls(t, es, now, k - 1, n);
      AppliedKeeps(t, es, now, 0, k - 1);
      assert Applied(t, es[..0], now).table == t;
      hide Installed, Kept, Applied, ApplyEntry;
      if n == es[k - 1].name {
        InstalledHere(t, es, now, k - 1, Applied(t, es[..k - 1], now).table);
      } else {
        InstalledElsewhere(t, es, now, k - 1, n, Applied(t, es[..k - 1], now).table);
      }
    }
  }

  // ---- interrupted and rerun ----

  /** The same row, timestamps aside. */
  ghost predicate SameRow(a: Registration, b: Registration)
  {
    a == b.(createdAt := a.createdAt, updatedAt := a.updatedAt) && (!a.seed ==> a == b)
  }

  ghost predicate SameAt(a: Table, b: Table, n: string)
  {
    (n in a <==> n in b) && (n in a ==> SameRow(a[n], b[n]))
  }

  ghost predicate Similar(a: Table, b: Table) { forall n | n in a || n in b :: SameAt(a, b, n) }

  /** Loading one entry looks at its own row only, and not at timestamps. */
  lemma EntryCongruence(a: Table, b: Table, e: Entry, n1: int, n2: int)
    requires AuthStated(e) && SameAt(a, b, e.name)
    ensures ApplyEntry(a, e, n1).Some? <==> ApplyEntry(b, e, n2).Some?
    ensures ApplyEntry(a, e, n1).Some? ==> SameAt(ApplyEntry(a, e, n1).value, ApplyEntry(b, e, n2).value, e.name)
  {
  }

  /** An entry applied once, with its row later only refreshed, has the same effect applied again. */
  lemma EntryAgain(t: Table, later: Table, r: Table, e: Entry, n1: int, n2: int)
    requires AuthStated(e) && ApplyEntry(t, e, n1).Some? && Kept(ApplyEntry(t, e, n1).value, later)
    requires e.name in r <==> e.name in later
    requires e.name in r ==> r[e.name] == later[e.name]
    ensures ApplyEntry(r, e, n2).Some? && SameAt(ApplyEntry(r, e, n2).value, ApplyEntry(t, e, n1).value, e.name)
  {
    assert e.name in ApplyEntry(t, e, n1).value;
  }

  /** How a rerun over the first `j` entries compares: what it touched is as the first run
      had it then, the rest is as the interruption left it. */
  ghost predicate Catching(es: seq<Entry>, j: nat, first: Table, left: Table, again: Table)
    requires j <= |es|
  {
    && (forall n | Touched(es[..j], n) :: SameAt(again, first, n))
    && (forall n | !Touched(es[..j], n) :: (n in again <==> n in left) && (n in left ==> again[n] == left[n]))
  }

  lemma CatchingStep(es: seq<Entry>, j: nat, first: Table, left: Table, again: Table, n1: int, n2: int)
    requires Stated(es) && j < |es| && Catching(es, j, first, left, again)
    requires ApplyEntry(first, es[j], n1).Some? && Kept(ApplyEntry(first, es[j], n1).value, left)
    ensures ApplyEntry(again, es[j], n2).Some?
    ensures Catching(es, j + 1, ApplyEntry(first, es[j], n1).value, left, ApplyEntry(again, es[j], n2).value)
  {
    var e := es[j];
    if Touched(es[..j], e.name) {
      EntryCongruence(again, first, e, n2, n1);
    } else {
      EntryAgain(first, left, again, e, n1, n2);
    }
    var first', again' := ApplyEntry(first, e, n1).value, ApplyEntry(again, e, n2).value;
    hide ApplyEntry, SameRow;
    forall n | n != e.name
      ensures Touched(es[..j], n) ==> SameAt(again', first', n)
      ensures !Touched(es[..j], n) ==> (n in again' <==> n in left) && (n in left ==> again'[n] == left[n])
    {
      EntryElsewhere(first, e, n1, n);
      EntryElsewhere(again, e, n2, n);
    }
    forall n ensures Touched(es[..j + 1], n) <==> Touched(es[..j], n) || n == e.name {
      TouchedNext(es, j, n);
    }
  }

  lemma {:induction false} RerunCatches(t: Table, es: seq<Entry>, k: nat, j: nat, n1: int, n2: int)
    requires Stated(es) && j <= k <= |es| && !Applied(t, es[..k], n1).stopped
    ensures !Applied(Applied(t, es[..k], n1).table, es[..j], n2).stopped
    ensures Catching(es, j, Applied(t, es[..j], n1).table, Applied(t, es[..k], n1).table,
                     Applied(Applied(t, es[..k], n1).table, es[..j], n2).table)
  {
    var left := Applied(t, es[..k], n1).table;
    if j > 0 {
      RerunCatches(t, es, k, j - 1, n1, n2);
      if Applied(t, es[..j], n1).stopped {
        StoppedForGood(t, es, n1, j, k);
      }
      AppliedNext(t, es, n1, j - 1);
      AppliedNext(left, es, n2, j - 1);
      AppliedKeeps(t, es, n1, j, k);
      hide Kept, Catching, ApplyEntry, Applied;
      CatchingStep(es, j - 1, Applied(t, es[..j - 1], n1).table, left, Applied(left, es[..j - 1], n2).table, n1, n2);
    }
  }

  ghost predicate SameReached(a: Reached, b: Reached) { a.stopped == b.stopped && Similar(a.table, b.table) }

  lemma EntryKeepsSimilar(a: Table, b: Table, e: Entry, n1: int, n2: int)
    requires AuthStated(e) && Similar(a, b)
    ensures ApplyEntry(a, e, n1).Some? <==> ApplyEntry(b, e, n2).Some?
    ensures ApplyEntry(a, e, n1).Some? ==> Similar(ApplyEntry(a, e, n1).value, ApplyEntry(b, e, n2).value)
  {
    hide ApplyEntry, SameRow;
    assert SameAt(a, b, e.name);
    EntryCongruence(a, b, e, n1, n2);
    if ApplyEntry(a, e, n1).Some? {
      forall n | n != e.name ensures SameAt(ApplyEntry(a, e, n1).value, ApplyEntry(b, e, n2).value, n) {
        assert SameAt(a, b, n);
        EntryElsewhere(a, e, n1, n);
        EntryElsewhere(b, e, n2, n);
      }
    }
  }

  lemma {:induction false} FromHereOn(a: Table, b: Table, es: seq<Entry>, k: nat, j: nat, n1: int, n2: int)
    requires Stated(es) && k <= j <= |es| && SameReached(Applied(a, es[..k], n1), Applied(b, es[..k], n2))
    ensures SameReached(Applied(a, es[..j], n1), Applied(b, es[..j], n2))
    decreases j
  {
    hide Applied, ApplyEntry, Similar;
    if k < j {
      FromHereOn(a, b, es, k, j - 1, n1, n2);
      AppliedNext(a, es, n1, j - 1);
      AppliedNext(b, es, n2, j - 1);
      var x, y := Applied(a, es[..j - 1], n1), Applied(b, es[..j - 1], n2);
      if !x.stopped {
        EntryKeepsSimilar(x.table, y.table, es[j - 1], n1, n2);
      }
    }
  }

  lemma LoadIgnoresTimestamps(a: Table, b: Table, es: seq<Entry>, n1: int, n2: int)
    requires Stated(es) && Similar(a, b)
    ensures SameReached(Applied(a, es, n1), Applied(b, es, n2))
  {
    assert es[..0] == [] && es[..|es|] == es;
    FromHereOn(a, b, es, 0, |es|, n1, n2);
  }

  /** A loop cut short after any number of entries and then run again from the start ends
      like one that was never cut short, cross-kind error or not. */
  lemma {:induction false} RerunIsOneRun(t: Table, es: seq<Entry>, k: nat, n0: int, n1: int, n2: int)
    requires Stated(es) && k <= |es|
    ensures SameReached(Applied(Applied(t, es[..k], n1).table, es, n2), Applied(t, es, n0))
  {
    if Applied(t, es[..k], n1).stopped {
      assert k > 0 && es[..k][..k - 1] == es[..k - 1];
      RerunIsOneRun(t, es, k - 1, n0, n1, n2);
      AppliedNext(t, es, n1, k - 1);
    } else {
      var left := Applied(t, es[..k], n1).table;
      RerunCatches(t, es, k, k, n1, n2);
      var again := Applied(left, es[..k], n2).table;
      forall n ensures SameAt(again, left, n) {
      }
      assert es[..|es|] == es;
      FromHereOn(left, t, es, k, |es|, n2, n1);
      LoadIgnoresTimestamps(t, t, es, n1, n0);
    }
  }

  // ---- whole loads ----

  datatype Verdict = UpToDate | OlderThanDb | Malformed | CrossKind | Loaded

  /** The checks made before the table is touched; `wellFormed` stands for the name, upstream and metadata
      validators. */
  predicate Acceptable(es: seq<Entry>, wellFormed: Entry -> bool)
  {
    forall i | 0 <= i < |es| :: wellFormed(es[i]) && AuthStated(es[i])
  }

  /** The verdict reached before the loop, if any. */
  function Skips(db: Db, c: Catalog, wellFormed: Entry -> bool): Option<Verdict>
  {
    if db.version == Some(c.version) then Some(UpToDate)
    else if db.version.Some? && !SemverLt(db.version.value, c.version) then Some(OlderThanDb)
    else if !Acceptable(c.entries, wellFormed) then Some(Malformed)
    else None
  }

  ghost function Load(db: Db, c: Catalog, wellFormed: Entry -> bool, now: int): (Db, Verdict)
  {
    if Skips(db, c, wellFormed).Some? then (db, Skips(db, c, wellFormed).value)
    else
      var r := Applied(db.rows, c.entries, now);
      if r.stopped then (Db(r.table, db.version), CrossKind) else (Db(r.table, Some(c.version)), Loaded)
  }

  /** What a load that dies after `k` entries leaves behind. */
  ghost function Killed(db: Db, c: Catalog, wellFormed: Entry -> bool, now: int, k: nat): Db
    requires k <= |c.entries|
  {
    if Skips(db, c, wellFormed).Some? then db else Db(Applied(db.rows, c.entries[..k], now).table, db.version)
  }

  datatype Outcome = Created | Refreshed | OperatorOwned | WrongKind

  class RegistrationRepository {
    var rows: Table
    var version: Option<string>

    constructor ()
      ensures rows == map[] && version == None
    {
      rows, version := map[], None;
    }

    /** One pass of the loop: the row of `e` is created, refreshed, left to its operator, or
        found to be of another kind. */
    method ApplyOne(e: Entry, now: int) returns (outcome: Outcome)
      requires AuthStated(e)
      modifies this`rows
      ensures outcome.WrongKind? <==> ApplyEntry(old(rows), e, now).None?
      ensures rows == ApplyEntry(old(rows), e, now).GetOr(old(rows))
      ensures rows.Keys == old(rows).Keys + (if outcome.Created? then {e.name} else {})
      ensures outcome.Created? <==> e.name !in old(rows)
      ensures outcome.OperatorOwned? <==> e.name in old(rows) && !old(rows)[e.name].seed
      ensures forall n | n in old(rows) && n != e.name :: rows[n] == old(rows)[n]
    {
      if e.name !in rows {
        rows := rows[e.name := ToRegistration(e, now)];
        return Created;
      }
      var existing := rows[e.name];
      if !existing.seed {
        return OperatorOwned;
      }
      if existing.kind != e.kind {
        return WrongKind;
      }
      var next := ToRegistration(e, now).(createdAt := existing.createdAt, disabled := existing.disabled);
      rows := Upserted(rows, e.name, next);
      return Refreshed;
    }

    /** The loader. Its counters account for every entry of a load that completes. */
    method ApplyCatalog(c: Catalog, wellFormed: Entry -> bool, now: int)
      returns (verdict: Verdict, inserted: nat, updated: nat, skipped: nat)
      modifies this
      ensures (Db(rows, version), verdict) == Load(Db(old(rows), old(version)), c, wellFormed, now)
      ensures verdict.Loaded? ==> inserted + updated + skipped == |c.entries|
      ensures |rows.Keys| == |old(rows).Keys| + inserted
    {
      hide SemverLt, ApplyEntry, Applied;
      inserted, updated, skipped := 0, 0, 0;
      if version == Some(c.version) {
        return UpToDate, inserted, updated, skipped;
      }
      if version.Some? && !SemverLt(version.value, c.version) {
        return OlderThanDb, inserted, updated, skipped;
      }
      if !Acceptable(c.entries, wellFormed) {
        return Malformed, inserted, updated, skipped;
      }
      ghost var before := rows;
      ghost var es := c.entries;
      assert es[..|es|] == es;
      AppliedNothing(before, es, now);
      for i := 0 to |c.entries|
        invariant Stated(es) && version == old(version)
        invariant Applied(before, es[..i], now) == Reached(rows, false)
        invariant inserted + updated + skipped == i && |rows.Keys| == |before.Keys| + inserted
      {
        AppliedNext(before, es, now, i);
        var outcome := ApplyOne(c.entries[i], now);
        match outcome
        case Created => inserted := inserted + 1;
        case Refreshed => updated := updated + 1;
        case OperatorOwned => skipped := skipped + 1;
        case WrongKind =>
          StoppedForGood(before, es, now, i + 1, |es|);
          return CrossKind, inserted, updated, skipped;
      }
      version := Some(c.version);
      verdict := Loaded;
    }
  }

  // ---- any number of interruptions ----

  datatype Death = Death(after: nat, at: int)

  ghost predicate Possible(c: Catalog, deaths: seq<Death>)
  {
    forall i | 0 <= i < |deaths| :: deaths[i].after <= |c.entries|
  }

  ghost function KilledOften(db: Db, c: Catalog, wellFormed: Entry -> bool, deaths: seq<Death>): Db
    requires Possible(c, deaths)
  {
    if deaths == [] then db
    else
      var last := deaths[|deaths| - 1];
      Killed(KilledOften(db, c, wellFormed, deaths[..|deaths| - 1]), c, wellFormed, last.at, last.after)
  }

  lemma KilledIsUndone(db: Db, c: Catalog, wellFormed: Entry -> bool, k: nat, n0: int, n1: int, n2: int)
    requires k <= |c.entries|
    ensures var again, once := Load(Killed(db, c, wellFormed, n1, k), c, wellFormed, n2), Load(db, c, wellFormed, n0);
      again.1 == once.1 && again.0.version == once.0.version && Similar(again.0.rows, once.0.rows)
  {
    hide SemverLt;
    if Skips(db, c, wellFormed).None? {
      RerunIsOneRun(db.rows, c.entries, k, n0, n1, n2);
    }
  }

  /**
   However often the daemon dies during a seed load, and wherever, the load that finally
   gets through gives the same verdict, records the same version and leaves the same table,
   timestamps aside, as if it had never been interrupted.
   */
  lemma {:induction false} InterruptionsAreUndone(
    db: Db, c: Catalog, wellFormed: Entry -> bool, deaths: seq<Death>, n0: int, n1: int)
    requires Possible(c, deaths)
    ensures var again := Load(KilledOften(db, c, wellFormed, deaths), c, wellFormed, n1);
      var once := Load(db, c, wellFormed, n0);
      again.1 == once.1 && again.0.version == once.0.version && Similar(again.0.rows, once.0.rows)
  {
    hide SemverLt, Skips, Load, Killed, SameRow;
    if deaths == [] {
      KilledIsUndone(db, c, wellFormed, 0, n0, n0, n0);
      SameVerdictAnyTime(db, c, wellFormed, n1, n0);
    } else {
      var last := deaths[|deaths| - 1];
      var earlier := KilledOften(db, c, wellFormed, deaths[..|deaths| - 1]);
      KilledIsUndone(earlier, c, wellFormed, last.after, n0, last.at, n1);
      InterruptionsAreUndone(db, c, wellFormed, deaths[..|deaths| - 1], n0, n0);
      SimilarTransitive(Load(KilledOften(db, c, wellFormed, deaths), c, wellFormed, n1).0.rows,
                        Load(earlier, c, wellFormed, n0).0.rows, Load(db, c, wellFormed, n0).0.rows);
    }
  }

  lemma SameVerdictAnyTime(db: Db, c: Catalog, wellFormed: Entry -> bool, n0: int, n1: int)
    ensures var a, b := Load(db, c, wellFormed, n0), Load(db, c, wellFormed, n1);
      a.1 == b.1 && a.0.version == b.0.version && Similar(a.0.rows, b.0.rows)
  {
    hide SemverLt;
    if Skips(db, c, wellFormed).None? {
      LoadIgnoresTimestamps(db.rows, db.rows, c.entries, n0, n1);
    }
  }

  lemma SimilarTransitive(a: Table, b: Table, c: Table)
    requires Similar(a, b) && Similar(b, c)
    ensures Similar(a, c)
  {
    forall n | n in a || n in c ensures SameAt(a, c, n) {
      assert n in a ==> SameAt(a, b, n);
      assert n in c ==> SameAt(b, c, n);
      assert n in b ==> SameAt(a, b, n) && SameAt(b, c, n);
    }
  }

  // ---- any sequence of loads ----

  /** A daemon start: a catalog, when it was loaded, and where the load died, if it did. */
  datatype Start = Start(catalog: Catalog, at: int, death: Option<nat>)

  ghost predicate Starts(a: Db, s: Start, wellFormed: Entry -> bool, b: Db)
  {
    match s.death
    case None => b == Load(a, s.catalog, wellFormed, s.at).0
    case Some(k) => k <= |s.catalog.entries| && b == Killed(a, s.catalog, wellFormed, s.at, k)
  }

  ghost predicate VersionKept(a: Option<string>, b: Option<string>)
  {
    a.Some? ==> b.Some? && (a == b || SemverLt(a.value, b.value))
  }

  lemma StartKeeps(a: Db, s: Start, wellFormed: Entry -> bool, b: Db)
    requires Starts(a, s, wellFormed, b)
    ensures Kept(a.rows, b.rows) && VersionKept(a.version, b.version)
  {
    hide SemverLt;
    if Skips(a, s.catalog, wellFormed).None? {
      var es := s.catalog.entries;
      assert es[..0] == [] && es[..|es|] == es;
      AppliedKeeps(a.rows, es, s.at, 0, if s.death.Some? then s.death.value else |es|);
    }
  }

  /**
   Over any sequence of daemon starts, with any catalogs and any deaths on the way, rows an
   operator owns never change, seed rows keep kind, owner and `disabled` flag, and the
   recorded version never decreases.
   */
  lemma {:induction false} StartsKeep(dbs: seq<Db>, starts: seq<Start>, wellFormed: Entry -> bool, i: nat, j: nat)
    requires |dbs| == |starts| + 1 && i <= j < |dbs|
    requires forall m | 0 <= m < |starts| :: Starts(dbs[m], starts[m], wellFormed, dbs[m + 1])
    ensures Kept(dbs[i].rows, dbs[j].rows) && VersionKept(dbs[i].version, dbs[j].version)
    decreases j
  {
    hide Starts, VersionOf;
    if i < j {
      StartsKeep(dbs, starts, wellFormed, i, j - 1);
      StartKeeps(dbs[j - 1], starts[j - 1], wellFormed, dbs[j]);
    }
  }
}
