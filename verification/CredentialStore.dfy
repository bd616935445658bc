/**
 The sealed credential store: table `credential_secrets` (src/repo/credential_secrets.rs),
 the set-value and clear handlers (src/registrations/api.rs, src/admin/uds.rs) and the
 sweeper tick (src/daemon.rs).
 */
module CredentialStore {
  import opened Wrappers
  import opened Primitives
  import opened AuthSpecs

  datatype Secret = Secret(sealed: string, setAt: int, tombstonedAt: Option<int>)

  type Secrets = map<string, Secret>

  /** A row carrying an AuthSpec: a registration, or an agent's override of one. */
  datatype Target = Registration(name: string) | Override(agent: int, name: string)

  type Specs = map<Target, AuthSpec>

  predicate Live(secrets: Secrets, ref: string)
  {
    ref in secrets && secrets[ref].tombstonedAt.None?
  }

  predicate Referenced(specs: Specs, ref: string)
  {
    exists t | t in specs :: specs[t].StoredSecretRef() == Some(ref)
  }

  // ---- SQL three-valued logic ----

  datatype Truth = True | False | Unknown

  function Not(t: Truth): Truth
  {
    match t case True => False case False => True case Unknown => Unknown
  }

  function Or(a: Truth, b: Truth): Truth
  {
    if a.True? || b.True? then True else if a.False? && b.False? then False else Unknown
  }

  /** `x = y` for a non-null `x`. */
  function SqlEq(x: string, y: Option<string>): Truth
  {
    if y.None? then Unknown else if y.value == x then True else False
  }

  function SqlIn(x: string, column: seq<Option<string>>): Truth
  {
    if column == [] then False else Or(SqlEq(x, column[0]), SqlIn(x, column[1..]))
  }

  function IsNotNull(column: seq<Option<string>>): seq<Option<string>>
  {
    if column == [] then []
    else (if column[0].None? then [] else [column[0]]) + IsNotNull(column[1..])
  }

  /** The `UNREFERENCED` predicate over the two extracted columns. */
  function Unreferenced(ref: string, registrations: seq<Option<string>>, overrides: seq<Option<string>>): Truth
  {
    Not(SqlIn(ref, IsNotNull(registrations) + IsNotNull(overrides)))
  }

  lemma {:induction false} SqlInMeaning(x: string, column: seq<Option<string>>)
    ensures SqlIn(x, column).True? <==> Some(x) in column
    ensures SqlIn(x, column).Unknown? <==> Some(x) !in column && None in column
  {
    if column != [] {
      SqlInMeaning(x, column[1..]);
      assert column == [column[0]] + column[1..];
    }
  }

  lemma {:induction false} IsNotNullMeaning(column: seq<Option<string>>, v: Option<string>)
    ensures v in IsNotNull(column) <==> v in column && v.Some?
  {
    if column != [] {
      IsNotNullMeaning(column[1..], v);
      assert column == [column[0]] + column[1..];
    }
  }

  /** With the null filters the SQL predicate is plain non-reference, for every content. */
  lemma UnreferencedMeaning(ref: string, registrations: seq<Option<string>>, overrides: seq<Option<string>>)
    ensures Unreferenced(ref, registrations, overrides).True? <==>
      Some(ref) !in registrations && Some(ref) !in overrides
    ensures !Unreferenced(ref, registrations, overrides).Unknown?
  {
    SqlInMeaning(ref, IsNotNull(registrations) + IsNotNull(overrides));
    IsNotNullMeaning(registrations, Some(ref));
    IsNotNullMeaning(overrides, Some(ref));
    IsNotNullMeaning(registrations, None);
    IsNotNullMeaning(overrides, None);
  }

  /** Without them a single NULL would switch collection off for every row. */
  lemma NullFilterIsLoadBearing(ref: string, registrations: seq<Option<string>>, overrides: seq<Option<string>>)
    ensures None in registrations || None in overrides ==> !Not(SqlIn(ref, registrations + overrides)).True?
    ensures None !in registrations && None !in overrides ==>
      Not(SqlIn(ref, registrations + overrides)) == Unreferenced(ref, registrations, overrides)
  {
    SqlInMeaning(ref, registrations + overrides);
    UnreferencedMeaning(ref, registrations, overrides);
  }

  /** `column` lists the extracted refs of the rows of `specs` selected by `registrations`. */
  ghost predicate ColumnOf(column: seq<Option<string>>, specs: Specs, registrations: bool)
  {
    forall v :: v in column <==> exists t | t in specs ::
      t.Registration? == registrations && specs[t].StoredSecretRef() == v
  }

  lemma UnreferencedInTables(
    ref: string, specs: Specs, registrations: seq<Option<string>>, overrides: seq<Option<string>>)
    requires ColumnOf(registrations, specs, true) && ColumnOf(overrides, specs, false)
    ensures Unreferenced(ref, registrations, overrides).True? <==> !Referenced(specs, ref)
  {
    UnreferencedMeaning(ref, registrations, overrides);
    if Referenced(specs, ref) {
      var t :| t in specs && specs[t].StoredSecretRef() == Some(ref);
      assert t.Registration? || !t.Registration?;
    }
  }

  // ---- statements ----

  function Inserted(secrets: Secrets, ref: string, sealed: string, now: int): Secrets
  {
    secrets[ref := Secret(sealed, now, None)]
  }

  function Tombstoned(secrets: Secrets, now: int, doomed: set<string>): Secrets
  {
    map r | r in secrets ::
      if r in doomed && secrets[r].tombstonedAt.None? then secrets[r].(tombstonedAt := Some(now)) else secrets[r]
  }

  function TombstonedIfUnreferenced(secrets: Secrets, specs: Specs, ref: string, now: int): Secrets
  {
    Tombstoned(secrets, now, set r | r in secrets && r == ref && !Referenced(specs, r))
  }

  function OrphansTombstoned(secrets: Secrets, specs: Specs, setBefore: int, now: int): Secrets
  {
    Tombstoned(secrets, now, set r | r in secrets && secrets[r].setAt < setBefore && !Referenced(specs, r))
  }

  function Swept(secrets: Secrets, cutoff: int): Secrets
  {
    map r | r in secrets && !(secrets[r].tombstonedAt.Some? && secrets[r].tombstonedAt.value < cutoff) :: secrets[r]
  }

  // ---- sweeper configuration ----

  const MIN_ORPHAN_GRACE_SECONDS: int := 60
  const SECS_PER_DAY: int := 86_400

  function Max(a: int, b: int): int { if a < b then b else a }

  function Min(a: int, b: int): int { if a < b then a else b }

  /** Configured grace, floored at a minute and clamped into `i64`. */
  function Grace(configured: nat): (g: int)
    ensures MIN_ORPHAN_GRACE_SECONDS <= g <= I64_MAX
    ensures MIN_ORPHAN_GRACE_SECONDS <= configured <= I64_MAX ==> g == configured
  {
    Min(Max(configured, MIN_ORPHAN_GRACE_SECONDS), I64_MAX)
  }

  /** `now.saturating_sub(grace)`: only ever raises the bound above `now - grace`
      when that is below `i64::MIN`. */
  function SetBefore(now: int, grace: int): (t: int)
    ensures I64_MIN <= now - grace ==> t == now - grace
  {
    Max(now - grace, I64_MIN)
  }

  /** What a tick at `now` keeps after its two statements; the first one executes at `at`. */
  function Tick(secrets: Secrets, specs: Specs, now: int, at: int, configured: nat, retentionDays: nat): Secrets
  {
    Swept(OrphansTombstoned(secrets, specs, SetBefore(now, Grace(configured)), at), now - retentionDays * SECS_PER_DAY)
  }

  /**
   One undisturbed tick leaves only rows that are referenced, young or freshly
   tombstoned; it tombstones exactly the old unreferenced live rows and deletes exactly
   the rows tombstoned before the retention cutoff, whatever the configuration says.
   */
  lemma TickExact(secrets: Secrets, specs: Specs, now: int, at: int, configured: nat, retentionDays: nat, r: string)
    requires 0 <= now <= at <= I64_MAX && r in secrets
    ensures
      var after := Tick(secrets, specs, now, at, configured, retentionDays);
      var cutoff := now - retentionDays * SECS_PER_DAY;
      var orphan := Live(secrets, r) && secrets[r].setAt < now - Grace(configured) && !Referenced(specs, r);
      && after.Keys <= secrets.Keys
      && (r !in after <==> secrets[r].tombstonedAt.Some? && secrets[r].tombstonedAt.value < cutoff)
      && (r in after ==> after[r] == if orphan then secrets[r].(tombstonedAt := Some(at)) else secrets[r])
      && (r in after ==>
            || Referenced(specs, r)
            || secrets[r].setAt >= now - Grace(configured)
            || (after[r].tombstonedAt.Some? && after[r].tombstonedAt.value >= cutoff))
  {
  }

  // ---- repository and handlers ----

  /** The two tables of AuthSpecs and the sealed rows, as the handlers see them. */
  class Store {
    var secrets: Secrets
    var specs: Specs
    /** Every ref the random source has produced or a caller has ever named. */
    var known: set<string>

    ghost predicate Valid()
      reads this
    {
      && secrets.Keys <= known
      && forall t | t in specs && specs[t].StoredSecretRef().Some? :: specs[t].StoredSecretRef().value in known
    }

    constructor ()
      ensures Valid() && secrets == map[] && specs == map[]
    {
      secrets, specs, known := map[], map[], {};
    }

    /** `insert`: the minted ref repeats none seen before. */
    method Insert(ref: string, sealed: string, now: int)
      requires Valid() && ref !in known
      modifies this`secrets, this`known
      ensures Valid() && secrets == Inserted(old(secrets), ref, sealed, now) && known == old(known) + {ref}
    {
      secrets := secrets[ref := Secret(sealed, now, None)];
      known := known + {ref};
    }

    /** `get`: only live rows are visible. */
    method Get(ref: string) returns (found: Option<Secret>)
      ensures found.Some? <==> Live(secrets, ref)
      ensures found.Some? ==> found.value == secrets[ref]
    {
      found := if ref in secrets && secrets[ref].tombstonedAt.None? then Some(secrets[ref]) else None;
    }

    method TombstoneIfUnreferenced(ref: string, now: int) returns (hit: bool)
      requires Valid()
      modifies this`secrets
      ensures Valid() && secrets == TombstonedIfUnreferenced(old(secrets), specs, ref, now)
      ensures hit <==> Live(old(secrets), ref) && !Referenced(specs, ref)
    {
      var before := secrets;
      hit := Live(secrets, ref) && !Referenced(specs, ref);
      if hit {
        secrets := secrets[ref := secrets[ref].(tombstonedAt := Some(now))];
      }
      assert secrets == TombstonedIfUnreferenced(before, specs, ref, now);
    }

    /** The set-value handler of a registration or an override, run undisturbed
        (`op_put_credential`, `op_set_agent_stored_credential`).  `admissible` is what the
        registrations table says: the URL's kind matches, or the override's registration
        is an enabled tool or model.  On success the new value is live under a fresh ref
        recorded in the header shape the row had, the replaced ref is tombstoned exactly
        when nothing else shares it, and every other ref keeps its row.  A refused
        override leaves its sealed value behind, unreferenced. */
    method SetValue(t: Target, admissible: bool, header: Option<string>, inherited: Option<string>,
                    ref: string, sealed: string, now: int)
      returns (ok: bool)
      requires Valid() && ref !in known
      modifies this
      ensures Valid()
      ensures ok <==> admissible && (t.Override? || t in old(specs))
      ensures !ok ==> specs == old(specs)
      ensures !ok ==> secrets == if t.Override? then Inserted(old(secrets), ref, sealed, now) else old(secrets)
      ensures ok ==>
        && specs == old(specs)[t := StoredSpec(ShapeOf(old(specs), t, header, inherited), ref)]
        && secrets.Keys == old(secrets).Keys + {ref}
        && Live(secrets, ref) && secrets[ref].sealed == sealed
      ensures ok ==> forall r | r in old(secrets) && Live(old(secrets), r) ::
        (Live(secrets, r) <==> Referenced(specs, r) || !(t in old(specs) && old(specs)[t].StoredSecretRef() == Some(r)))
      ensures forall r | r in old(secrets) && (Live(secrets, r) || !Live(old(secrets), r)) ::
        r in secrets && secrets[r] == old(secrets)[r]
    {
      if t.Registration? && (t !in specs || !admissible) {
        return false;
      }
      var oldRef := if t in specs then specs[t].StoredSecretRef() else None;
      var shape := ShapeOf(specs, t, header, inherited);
      Insert(ref, sealed, now);
      if !admissible {
        return false;
      }
      specs := specs[t := StoredSpec(shape, ref)];
      assert Referenced(specs, ref) by {
        assert specs[t].StoredSecretRef() == Some(ref);
      }
      if oldRef.Some? {
        var _ := TombstoneIfUnreferenced(oldRef.value, now);
      }
      ok := true;
    }

    /** The clear handlers (`op_delete_credential`, `op_unset_agent_credential`): the ref
        survives exactly when another row still names it. */
    method Clear(t: Target, now: int)
      requires Valid()
      modifies this`secrets, this`specs
      ensures Valid()
      ensures specs ==
        if t.Override? then old(specs) - {t}
        else if t in old(specs) && old(specs)[t].StoredSecretRef().Some? then old(specs)[t := NoAuth] else old(specs)
      ensures forall r | r in old(secrets) && Live(old(secrets), r) ::
        (Live(secrets, r) <==> Referenced(specs, r) || !(t in old(specs) && old(specs)[t].StoredSecretRef() == Some(r)))
      ensures secrets.Keys == old(secrets).Keys
      ensures forall r | r in old(secrets) && (Live(secrets, r) || !Live(old(secrets), r)) ::
        r in secrets && secrets[r] == old(secrets)[r]
    {
      var oldRef := if t in specs then specs[t].StoredSecretRef() else None;
      if t.Override? {
        specs := specs - {t};
      } else if oldRef.Some? {
        specs := specs[t := NoAuth];
      }
      if oldRef.Some? {
        var _ := TombstoneIfUnreferenced(oldRef.value, now);
      }
    }

    /** One sweeper tick with nothing in between: it deletes exactly the tombstones older
        than the retention, tombstones exactly the live rows that are older than the grace
        and referenced by nothing, leaves every other row as it is, and adds none. */
    method SweeperTick(now: int, configured: nat, retentionDays: nat)
      requires Valid()
      modifies this`secrets
      ensures Valid() && secrets.Keys <= old(secrets).Keys
      ensures forall r | r in old(secrets) ::
        (r !in secrets <==>
          old(secrets)[r].tombstonedAt.Some? && old(secrets)[r].tombstonedAt.value < now - retentionDays * SECS_PER_DAY)
      ensures forall r | r in secrets && Live(old(secrets), r) ::
        Live(secrets, r) <==> Referenced(specs, r) || old(secrets)[r].setAt >= SetBefore(now, Grace(configured))
      ensures forall r | r in secrets && !(Live(old(secrets), r) && !Live(secrets, r)) :: secrets[r] == old(secrets)[r]
      ensures forall r | r in secrets && Live(old(secrets), r) && !Live(secrets, r) ::
        secrets[r] == old(secrets)[r].(tombstonedAt := Some(now))
    {
      secrets := OrphansTombstoned(secrets, specs, SetBefore(now, Grace(configured)), now);
      secrets := Swept(secrets, now - retentionDays * SECS_PER_DAY);
    }
  }

  /** Header of the new spec: the body's, else the existing row's own shape, else (an
      override that does not exist yet) the one of the registration. */
  function ShapeOf(specs: Specs, t: Target, header: Option<string>, inherited: Option<string>): Option<string>
  {
    if t.Override? && header.Some? then header
    else if t in specs then specs[t].HeaderName()
    else inherited
  }
}
