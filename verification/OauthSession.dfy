/**
 The `oauth_sessions` table (src/oauth/session.rs) and the per-session locks
 (`RefreshLockMap`, src/oauth/refresh.rs).

 Each SQL statement is one function from table to table; the repository class
 updates its table in place and is proved against those functions.  The
 `incarnation` of a row is the number of the INSERT that created it: no statement
 ever tests it, so the theorems of module `OauthProtocol` can ask whether a
 statement hit the row its caller had read.
 */
module OauthSessions {
  import opened Wrappers

  datatype Key = Key(name: string, sessionLabel: string)

  datatype Session = Session(
    incarnation: nat,
    refreshToken: string,
    accessToken: Option<string>,
    expiresAt: Option<int>,
    degraded: bool)

  type Rows = map<Key, Session>

  /** INSERT of a fresh row. */
  function Inserted(
    rows: Rows, k: Key, incarnation: nat, refreshToken: string, access: Option<string>, expiresAt: Option<int>): Rows
  {
    rows[k := Session(incarnation, refreshToken, access, expiresAt, false)]
  }

  /** Both UPDATE statements of `update_tokens`, selected by `rotated`. */
  function TokensUpdated(rows: Rows, k: Key, access: string, expiresAt: int, rotated: Option<string>): Rows
  {
    if k !in rows then rows
    else rows[k := rows[k].(accessToken := Some(access), expiresAt := Some(expiresAt),
                            refreshToken := rotated.GetOr(rows[k].refreshToken), degraded := false)]
  }

  /** UPDATE of `mark_degraded`. */
  function MarkedDegraded(rows: Rows, k: Key): Rows
  {
    if k !in rows then rows else rows[k := rows[k].(degraded := true)]
  }

  /** WHERE clause of `list_pending_refresh`. */
  predicate Pending(row: Session, threshold: int)
  {
    !row.degraded && row.expiresAt.Some? && row.expiresAt.value <= threshold
  }

  function Expiry(rows: Rows, k: Key): int { if k in rows then rows[k].expiresAt.GetOr(0) else 0 }

  ghost predicate NoRepeats(keys: seq<Key>) { forall i, j | 0 <= i < j < |keys| :: keys[i] != keys[j] }

  ghost predicate SoonestFirst(rows: Rows, keys: seq<Key>)
  {
    forall i, j | 0 <= i < j < |keys| :: Expiry(rows, keys[i]) <= Expiry(rows, keys[j])
  }

  lemma AppendSoonest(rows: Rows, keys: seq<Key>, next: Key)
    requires NoRepeats(keys) && SoonestFirst(rows, keys) && next !in keys
    requires forall i | 0 <= i < |keys| :: Expiry(rows, keys[i]) <= Expiry(rows, next)
    ensures NoRepeats(keys + [next]) && SoonestFirst(rows, keys + [next])
  {
  }

  class SessionRepository {
    var rows: Rows
    var inserts: nat

    ghost predicate Valid()
      reads this
    {
      forall k | k in rows :: rows[k].incarnation < inserts
    }

    constructor ()
      ensures Valid() && rows == map[] && inserts == 0
    {
      rows, inserts := map[], 0;
    }

    /** Fails on the primary key when the session exists; the table is then unchanged. */
    method Create(k: Key, refreshToken: string, access: Option<string>, expiresAt: Option<int>)
      returns (created: Option<Session>)
      requires Valid()
      modifies this
      ensures Valid()
      ensures created.Some? <==> k !in old(rows)
      ensures created.None? ==> rows == old(rows) && inserts == old(inserts)
      ensures created.Some? ==>
        rows == Inserted(old(rows), k, old(inserts), refreshToken, access, expiresAt) && inserts == old(inserts) + 1 &&
        rows[k] == created.value && forall x | x in old(rows) :: old(rows)[x].incarnation != created.value.incarnation
    {
      if k in rows {
        return None;
      }
      rows := Inserted(rows, k, inserts, refreshToken, access, expiresAt);
      inserts := inserts + 1;
      created := Some(rows[k]);
    }

    /** Never creates a row and never changes which INSERT a row came from. */
    method UpdateTokens(k: Key, access: string, expiresAt: int, rotated: Option<string>)
      requires Valid()
      modifies this`rows
      ensures Valid() && rows == TokensUpdated(old(rows), k, access, expiresAt, rotated)
      ensures rows.Keys == old(rows).Keys
      ensures forall x | x in rows :: rows[x].incarnation == old(rows)[x].incarnation
    {
      if k in rows {
        var row := rows[k].(accessToken := Some(access), expiresAt := Some(expiresAt), degraded := false);
        if rotated.Some? {
          row := row.(refreshToken := rotated.value);
        }
        rows := rows[k := row];
      }
    }

    method MarkDegraded(k: Key)
      requires Valid()
      modifies this`rows
      ensures Valid() && rows == MarkedDegraded(old(rows), k)
      ensures rows.Keys == old(rows).Keys
      ensures forall x | x in rows :: rows[x].incarnation == old(rows)[x].incarnation
    {
      if k in rows {
        rows := rows[k := rows[k].(degraded := true)];
      }
    }

    method Delete(k: Key) returns (removed: bool)
      requires Valid()
      modifies this`rows
      ensures Valid() && rows == old(rows) - {k} && removed == (k in old(rows))
    {
      removed := k in rows;
      rows := rows - {k};
    }

    /** Lists exactly the keys of pending rows, each once, soonest expiry first. */
    method ListPendingRefresh(threshold: int) returns (keys: seq<Key>)
      requires Valid()
      ensures forall k :: k in keys <==> k in rows && Pending(rows[k], threshold)
      ensures NoRepeats(keys) && SoonestFirst(rows, keys)
    {
      keys := [];
      var todo := set k | k in rows && Pending(rows[k], threshold);
      while todo != {}
        invariant todo <= rows.Keys
        invariant forall k :: k in keys || k in todo <==> k in rows && Pending(rows[k], threshold)
        invariant forall k | k in keys :: k !in todo
        invariant NoRepeats(keys) && SoonestFirst(rows, keys)
        invariant forall i, k | 0 <= i < |keys| && k in todo :: Expiry(rows, keys[i]) <= Expiry(rows, k)
        decreases |todo|
      {
        var next := Soonest(todo);
        AppendSoonest(rows, keys, next);
        hide NoRepeats, SoonestFirst, Expiry;
        keys, todo := keys + [next], todo - {next};
      }
    }

    method Soonest(todo: set<Key>) returns (least: Key)
      requires todo != {}
      ensures least in todo
      ensures forall k | k in todo :: Expiry(rows, least) <= Expiry(rows, k)
    {
      least :| least in todo;
      var rest := todo - {least};
      while rest != {}
        invariant least in todo && rest <= todo
        invariant forall k | k in todo && k !in rest :: Expiry(rows, least) <= Expiry(rows, k)
        decreases |rest|
      {
        var k :| k in rest;
        if Expiry(rows, k) < Expiry(rows, least) {
          least := k;
        }
        rest := rest - {k};
      }
    }
  }

  // ---- RefreshLockMap ----

  /** Map key of a session's lock: the two parts joined by U+001F. */
  function LockKey(k: Key): string
  {
    k.name + [0x1f as char] + k.sessionLabel
  }

  /** `RefreshLockMap`: lock identities handed out so far. */
  class RefreshLockMap {
    var locks: map<string, nat>
    var made: nat

    ghost predicate Valid()
      reads this
    {
      && (forall x | x in locks :: locks[x] < made)
      && (forall x, y | x in locks && y in locks && x != y :: locks[x] != locks[y])
    }

    constructor ()
      ensures Valid() && locks == map[]
    {
      locks, made := map[], 0;
    }

    /** One lock for ever per session: later calls for `k` return it again, and no
        earlier session's lock changes. */
    method Get(k: Key) returns (lock: nat)
      requires Valid()
      modifies this
      ensures Valid()
      ensures LockKey(k) in locks && locks[LockKey(k)] == lock
      ensures forall x | x in old(locks) :: x in locks && locks[x] == old(locks)[x]
      ensures forall x | x in locks && x != LockKey(k) :: x in old(locks)
    {
      var key := LockKey(k);
      if key !in locks {
        locks := locks[key := made];
        made := made + 1;
      }
      lock := locks[key];
    }
  }

  /**
   Two sessions share a lock only when a name or label contains the separator;
   names without it get distinct locks whatever the labels are.
   */
  lemma {:induction false} LockKeyInjective(a: Key, b: Key)
    requires 0x1f as char !in a.name && 0x1f as char !in b.name
    ensures LockKey(a) == LockKey(b) <==> a == b
  {
    if LockKey(a) == LockKey(b) {
      var n := |a.name|;
      assert LockKey(a)[n] == 0x1f as char;
      var m := |b.name|;
      assert LockKey(b)[m] == 0x1f as char;
      assert LockKey(a)[..n] == a.name && LockKey(b)[..n] == b.name;
      assert LockKey(a)[n + 1..] == a.sessionLabel && LockKey(b)[n + 1..] == b.sessionLabel;
    }
  }
}
