/**
 Every interleaving of proxy requests, refresher items, operator bootstraps and
 lock-free revokes on the `oauth_sessions` table.

 A label is one atomic step: one SQL statement, one lock operation or one answer of
 the token endpoint.  `Abort` drops a task at any await point (cancelled request,
 backend error), which releases its lock guard.  The log is a history variable: no
 step reads it.
 */
module OauthProtocol {
  import opened Wrappers
  import opened OauthSessions

  const PROXY_MARGIN: int := 60
  const REFRESHER_MARGIN: int := 300

  datatype Kind =
    | Proxy
    | Refresher(threshold: int)
    | Bootstrap(refreshToken: string)

  datatype Pc =
    | Waiting
    | Locked
    | Holding(session: Session)
    | Exchanging(session: Session)
    | Persisting(session: Session, access: string, expiresAt: int, rotated: Option<string>)
    | ReadingBack(session: Session)
    | Failing(session: Session)
    | Finished

  datatype Task = Task(kind: Kind, key: Key, pc: Pc)

  datatype Event =
    | Started(incarnation: nat, kind: Kind, at: int)
    | Succeeded(incarnation: nat, expiresAt: int)
    | Failed(incarnation: nat)
    | Returned(incarnation: nat, token: string)

  /** `minted[i]` is the key of incarnation `i`, so `|minted|` counts the INSERTs. */
  datatype State = State(
    now: int,
    rows: Rows,
    minted: seq<Key>,
    holder: map<string, nat>,
    tasks: map<nat, Task>,
    log: seq<Event>)

  datatype Label =
    | Tick(seconds: nat)
    | Spawn(id: nat, kind: Kind, key: Key)
    | Acquire(id: nat)
    | Read(id: nat)
    | Decide(id: nat)
    | TokenAnswer(id: nat, access: string, lifetime: int, rotated: Option<string>)
    | ExchangeError(id: nat)
    | Persist(id: nat)
    | ReadBack(id: nat)
    | CleanUp(id: nat)
    | Revoke(key: Key)
    | Abort(id: nat)

  predicate HasLock(pc: Pc) { !pc.Waiting? && !pc.Finished? }

  predicate HasSession(pc: Pc) { HasLock(pc) && !pc.Locked? }

  predicate InExchange(pc: Pc) { pc.Exchanging? || pc.Persisting? || pc.ReadingBack? }

  function Put(s: State, id: nat, pc: Pc): State
    requires id in s.tasks
  {
    s.(tasks := s.tasks[id := s.tasks[id].(pc := pc)])
  }

  /** A caller ends and its lock guard is dropped. */
  function Release(s: State, id: nat): State
    requires id in s.tasks
  {
    Put(s, id, Finished).(holder := s.holder - {LockKey(s.tasks[id].key)})
  }

  function Logged(s: State, e: Event): State { s.(log := s.log + [e]) }

  // ---- the branches after the locked read ----

  /** Whether the reader goes on to the token endpoint. */
  predicate Exchanges(kind: Kind, session: Session, now: int)
  {
    match kind
    case Proxy =>
      !session.degraded && !EmptyTokens(session) &&
      (session.accessToken.None? || (session.expiresAt.Some? && session.expiresAt.value <= now + PROXY_MARGIN))
    case Refresher(threshold) =>
      !session.degraded && (session.expiresAt.Some? ==> session.expiresAt.value <= threshold)
    case Bootstrap(_) => true
  }

  predicate EmptyTokens(session: Session)
  {
    session.accessToken == Some("") || session.refreshToken == ""
  }

  /** Whether the reader hands out the token it read. */
  predicate ReturnsCached(kind: Kind, session: Session, now: int)
  {
    kind.Proxy? && !session.degraded && !EmptyTokens(session) && !Exchanges(kind, session, now)
  }

  // ---- steps ----

  predicate Enabled(s: State, l: Label)
  {
    match l
    case Tick(_) => true
    case Spawn(id, kind, key) =>
      id !in s.tasks &&
      (kind.Refresher? ==>
        kind.threshold <= s.now + REFRESHER_MARGIN && key in s.rows && Pending(s.rows[key], kind.threshold))
    case Acquire(id) => id in s.tasks && s.tasks[id].pc.Waiting? && LockKey(s.tasks[id].key) !in s.holder
    case Read(id) => id in s.tasks && s.tasks[id].pc.Locked?
    case Decide(id) => id in s.tasks && s.tasks[id].pc.Holding?
    case TokenAnswer(id, access, _, rotated) =>
      && id in s.tasks && s.tasks[id].pc.Exchanging? && s.tasks[id].pc.session.refreshToken != ""
      && access != "" && rotated != Some("")
    case ExchangeError(id) => id in s.tasks && InExchange(s.tasks[id].pc)
    case Persist(id) => id in s.tasks && s.tasks[id].pc.Persisting?
    case ReadBack(id) => id in s.tasks && s.tasks[id].pc.ReadingBack?
    case CleanUp(id) => id in s.tasks && s.tasks[id].pc.Failing?
    case Revoke(_) => true
    case Abort(id) => id in s.tasks && HasLock(s.tasks[id].pc)
  }

  function Next(s: State, l: Label): State
    requires Enabled(s, l)
  {
    match l
    case Tick(seconds) => s.(now := s.now + seconds)
    case Spawn(id, kind, key) => s.(tasks := s.tasks[id := Task(kind, key, Waiting)])
    case Acquire(id) => Put(s, id, Locked).(holder := s.holder[LockKey(s.tasks[id].key) := id])
    case Read(id) => AfterRead(s, id)
    case Decide(id) => AfterDecide(s, id)
    case TokenAnswer(id, access, lifetime, rotated) =>
      Put(s, id, Persisting(s.tasks[id].pc.session, access, s.now + lifetime, rotated))
    case ExchangeError(id) => Failed(s, id)
    case Persist(id) =>
      var t := s.tasks[id];
      Logged(Put(s, id, ReadingBack(t.pc.session)), Succeeded(t.pc.session.incarnation, t.pc.expiresAt)).(
        rows := TokensUpdated(s.rows, t.key, t.pc.access, t.pc.expiresAt, t.pc.rotated))
    case ReadBack(id) => AfterReadBack(s, id)
    case CleanUp(id) =>
      var t := s.tasks[id];
      Release(s, id).(rows := if t.kind.Bootstrap? then s.rows - {t.key} else MarkedDegraded(s.rows, t.key))
    case Revoke(key) => s.(rows := s.rows - {key})
    case Abort(id) => Release(s, id)
  }

  function Failed(s: State, id: nat): State
    requires id in s.tasks && HasSession(s.tasks[id].pc)
  {
    var session := s.tasks[id].pc.session;
    Logged(Put(s, id, Failing(session)), Event.Failed(session.incarnation))
  }

  /** Bootstrap inserts its row (and gives up on a primary-key conflict); the others select. */
  function AfterRead(s: State, id: nat): State
    requires id in s.tasks
  {
    var t := s.tasks[id];
    if t.kind.Bootstrap? then
      if t.key in s.rows then Release(s, id)
      else
        var rows := Inserted(s.rows, t.key, |s.minted|, t.kind.refreshToken, None, None);
        Put(s, id, Holding(rows[t.key])).(rows := rows, minted := s.minted + [t.key])
    else if t.key in s.rows then Put(s, id, Holding(s.rows[t.key]))
    else Release(s, id)
  }

  function AfterDecide(s: State, id: nat): State
    requires id in s.tasks && s.tasks[id].pc.Holding?
  {
    var t := s.tasks[id];
    var session := t.pc.session;
    if Exchanges(t.kind, session, s.now) then
      Logged(Put(s, id, Exchanging(session)), Started(session.incarnation, t.kind, s.now))
    else if ReturnsCached(t.kind, session, s.now) then
      Logged(Release(s, id), Returned(session.incarnation, session.accessToken.value))
    else Release(s, id)
  }

  /** The canonical row is read again; a proxy hands out the token it finds there. */
  function AfterReadBack(s: State, id: nat): State
    requires id in s.tasks && s.tasks[id].pc.ReadingBack?
  {
    var t := s.tasks[id];
    if t.key !in s.rows then Failed(s, id)
    else if t.kind.Proxy? && s.rows[t.key].accessToken.Some? then
      Logged(Release(s, id), Returned(s.rows[t.key].incarnation, s.rows[t.key].accessToken.value))
    else Release(s, id)
  }

  // ---- runs ----

  /** Any table to start from, no task yet. */
  ghost predicate Init(s: State)
  {
    && s.holder == map[] && s.tasks == map[] && s.log == []
    && forall k | k in s.rows :: s.rows[k].incarnation < |s.minted| && s.minted[s.rows[k].incarnation] == k
  }

  ghost predicate IsRun(states: seq<State>, labels: seq<Label>)
  {
    && |states| == |labels| + 1
    && Init(states[0])
    && forall i | 0 <= i < |labels| :: Enabled(states[i], labels[i]) && states[i + 1] == Next(states[i], labels[i])
  }

  // ---- the shape of a step ----

  function Actor(l: Label): Option<nat>
  {
    match l
    case Tick(_) | Revoke(_) => None
    case _ => Some(l.id)
  }

  /** What one step of task `id` can do to its own row. */
  ghost predicate RowMoves(s: State, s': State, t: Task, t': Task)
  {
    var k := t.key;
    && (forall x | x != k :: x in s'.rows <==> x in s.rows)
    && (forall x | x != k && x in s.rows :: s'.rows[x] == s.rows[x])
    && (s'.minted == s.minted || s'.minted == s.minted + [k])
    && (s'.minted != s.minted ==>
          t.pc.Locked? && t.kind.Bootstrap? && k !in s.rows && k in s'.rows &&
          s'.rows[k] == Session(|s.minted|, t.kind.refreshToken, None, None, false) && t'.pc == Holding(s'.rows[k]))
    && (s'.minted == s.minted && k in s'.rows ==>
          k in s.rows && s'.rows[k].incarnation == s.rows[k].incarnation &&
          if t.pc.Persisting? && t'.pc.ReadingBack? then
            !s'.rows[k].degraded && s'.rows[k].expiresAt == Some(t.pc.expiresAt) && s'.rows[k].accessToken.Some?
          else if t.pc.Failing? then
            s'.rows[k] == s.rows[k].(degraded := s'.rows[k].degraded) && (s.rows[k].degraded ==> s'.rows[k].degraded)
          else s'.rows[k] == s.rows[k])
  }

  /** Which event, if any, the step logs. */
  ghost predicate LogMoves(s: State, s': State, t: Task, t': Task)
  {
    || s'.log == s.log
    || (&& t.pc.Holding? && t'.pc == Exchanging(t.pc.session) && Exchanges(t.kind, t.pc.session, s.now)
        && s'.log == s.log + [Started(t.pc.session.incarnation, t.kind, s.now)])
    || (&& t.pc.Persisting? && t'.pc == ReadingBack(t.pc.session)
        && s'.log == s.log + [Succeeded(t.pc.session.incarnation, t.pc.expiresAt)])
    || (&& InExchange(t.pc) && t'.pc == Failing(t.pc.session)
        && s'.log == s.log + [Event.Failed(t.pc.session.incarnation)])
    || (&& t.pc.Holding? && !t.pc.session.degraded && t'.pc.Finished?
        && exists token :: s'.log == s.log + [Returned(t.pc.session.incarnation, token)])
    || (&& t.pc.ReadingBack? && t.key in s.rows && t'.pc.Finished?
        && exists token :: s'.log == s.log + [Returned(s.rows[t.key].incarnation, token)])
  }

  ghost predicate PcMoves(s: State, s': State, t: Task, t': Task)
  {
    && !t.pc.Finished? && t'.kind == t.kind && t'.key == t.key
    && (HasLock(t'.pc) ==> HasLock(t.pc) || t'.pc.Locked?)
    && (HasSession(t'.pc) ==>
          || (HasSession(t.pc) && t'.pc.session == t.pc.session)
          || (t.pc.Locked? && t'.pc.Holding? && t.key in s'.rows && t'.pc.session == s'.rows[t.key]))
    && (t'.pc.Holding? ==> t.pc.Locked?)
    && (t'.pc.Exchanging? ==> t.pc.Holding? && Exchanges(t.kind, t.pc.session, s.now) && s'.rows == s.rows)
    && (t'.pc.Persisting? ==> t.pc.Exchanging? && s'.rows == s.rows)
    && (t'.pc.ReadingBack? ==>
          t.pc.Persisting? && s'.log == s.log + [Succeeded(t.pc.session.incarnation, t.pc.expiresAt)])
    && (t'.pc.Failing? ==> InExchange(t.pc))
    && (t.pc.Locked? && t.kind.Bootstrap? && t'.pc.Holding? ==> s'.minted != s.minted)
  }

  ghost predicate LockMoves(s: State, s': State, id: nat, t: Task, t': Task)
  {
    var lock := LockKey(t.key);
    && (forall x | x != lock && x in s.holder :: x in s'.holder && s'.holder[x] == s.holder[x])
    && (t.pc.Waiting? ==> lock !in s.holder)
    && (HasLock(t'.pc) ==>
          if HasLock(t.pc) then (lock in s.holder ==> lock in s'.holder && s'.holder[lock] == s.holder[lock])
          else lock in s'.holder && s'.holder[lock] == id)
  }

  /** All that the invariants need to know about `s' == Next(s, l)`. */
  ghost predicate Shape(s: State, l: Label, s': State)
  {
    && s.now <= s'.now
    && match Actor(l)
       case None =>
         && s'.tasks == s.tasks && s'.holder == s.holder && s'.minted == s.minted && s'.log == s.log
         && (s'.rows == s.rows || (l.Revoke? && s'.rows == s.rows - {l.key}))
       case Some(id) =>
         && id in s'.tasks && s'.tasks == s.tasks[id := s'.tasks[id]]
         && if l.Spawn? then
              && id !in s.tasks && s'.tasks[id].pc.Waiting? && s'.holder == s.holder && s'.minted == s.minted
              && s'.log == s.log && s'.rows == s.rows
              && (l.kind.Refresher? ==> l.kind.threshold <= s.now + REFRESHER_MARGIN) && s'.tasks[id].kind == l.kind
            else
              id in s.tasks && Moves(s, s', id, s.tasks[id], s'.tasks[id]) &&
              (s.tasks[id].pc.Failing? && !l.Abort? ==> CleanedUp(s', s.tasks[id]))
  }

  ghost predicate Moves(s: State, s': State, id: nat, t: Task, t': Task)
  {
    RowMoves(s, s', t, t') && LogMoves(s, s', t, t') && PcMoves(s, s', t, t') && LockMoves(s, s', id, t, t')
  }

  /** The degrade or roll-back write has run. */
  predicate CleanedUp(s: State, t: Task) { t.key in s.rows ==> s.rows[t.key].degraded }

  lemma RowShape(s: State, l: Label)
    requires Enabled(s, l) && Actor(l).Some? && !l.Spawn?
    ensures RowMoves(s, Next(s, l), s.tasks[l.id], Next(s, l).tasks[l.id])
  {
    if l.Read? {
      ReadShape(s, l.id);
    } else if !l.Persist? && !l.CleanUp? {
      assert Next(s, l).rows == s.rows && Next(s, l).minted == s.minted;
    }
  }

  lemma ReadShape(s: State, id: nat)
    requires Enabled(s, Read(id))
    ensures RowMoves(s, AfterRead(s, id), s.tasks[id], AfterRead(s, id).tasks[id])
    ensures PcMoves(s, AfterRead(s, id), s.tasks[id], AfterRead(s, id).tasks[id])
  {
  }

  lemma LogShape(s: State, l: Label)
    requires Enabled(s, l) && Actor(l).Some? && !l.Spawn?
    ensures LogMoves(s, Next(s, l), s.tasks[l.id], Next(s, l).tasks[l.id])
  {
  }

  lemma PcShape(s: State, l: Label)
    requires Enabled(s, l) && Actor(l).Some? && !l.Spawn?
    ensures PcMoves(s, Next(s, l), s.tasks[l.id], Next(s, l).tasks[l.id])
  {
    if l.Read? {
      ReadShape(s, l.id);
    }
  }

  lemma LockShape(s: State, l: Label)
    requires Enabled(s, l) && Actor(l).Some? && !l.Spawn?
    ensures LockMoves(s, Next(s, l), l.id, s.tasks[l.id], Next(s, l).tasks[l.id])
  {
  }

  lemma StepShape(s: State, l: Label)
    requires Enabled(s, l)
    ensures Shape(s, l, Next(s, l))
  {
    if Actor(l).Some? && !l.Spawn? {
      RowShape(s, l);
      LogShape(s, l);
      PcShape(s, l);
      LockShape(s, l);
    }
  }

  // ---- invariant ----

  ghost predicate TaskInv(s: State, id: nat)
    requires id in s.tasks
  {
    var t := s.tasks[id];
    && (HasLock(t.pc) ==> LockKey(t.key) in s.holder && s.holder[LockKey(t.key)] == id)
    && (HasSession(t.pc) ==>
          && t.pc.session.incarnation < |s.minted| && s.minted[t.pc.session.incarnation] == t.key
          && (t.key in s.rows ==> s.rows[t.key].incarnation == t.pc.session.incarnation))
    && (t.pc.Holding? || t.pc.Exchanging? || t.pc.Persisting? ==> (t.key in s.rows ==> s.rows[t.key] == t.pc.session))
    && (InExchange(t.pc) ==> !t.pc.session.degraded)
    && (t.pc.ReadingBack? && t.key in s.rows ==> !s.rows[t.key].degraded)
    && (t.kind.Refresher? ==> t.kind.threshold <= s.now + REFRESHER_MARGIN)
    && (t.kind.Bootstrap? && HasSession(t.pc) ==> !t.pc.session.degraded && t.pc.session.accessToken.None?)
  }

  ghost predicate RowsInv(s: State)
  {
    && (forall k | k in s.rows :: s.rows[k].incarnation < |s.minted| && s.minted[s.rows[k].incarnation] == k)
    && (forall i | 0 <= i < |s.log| :: s.log[i].incarnation < |s.minted|)
  }

  ghost predicate Inv(s: State)
  {
    RowsInv(s) && forall id | id in s.tasks :: TaskInv(s, id)
  }

  /** Nothing that task `id` relies on has moved, except that its row may be gone. */
  ghost predicate Undisturbed(s: State, s': State, id: nat)
    requires id in s.tasks && id in s'.tasks
  {
    var t := s.tasks[id];
    && s'.tasks[id] == t && s.now <= s'.now && s.minted <= s'.minted
    && (HasLock(t.pc) ==>
          && (LockKey(t.key) in s.holder ==>
                LockKey(t.key) in s'.holder && s'.holder[LockKey(t.key)] == s.holder[LockKey(t.key)])
          && (t.key in s'.rows ==> t.key in s.rows && s'.rows[t.key] == s.rows[t.key]))
  }

  lemma FrameTask(s: State, s': State, id: nat)
    requires id in s.tasks && id in s'.tasks && TaskInv(s, id) && Undisturbed(s, s', id)
    ensures TaskInv(s', id)
  {
  }

  /** Mutual exclusion: a step disturbs no other task. */
  lemma Others(s: State, l: Label, s': State, id: nat)
    requires Inv(s) && Shape(s, l, s') && id in s.tasks && Actor(l) != Some(id)
    ensures id in s'.tasks && Undisturbed(s, s', id)
  {
    assert TaskInv(s, id);
    if Actor(l).Some? && l.id in s.tasks && !l.Spawn? {
      OthersMoving(s, s', l.id, id);
    }
  }

  lemma OthersMoving(s: State, s': State, actor: nat, id: nat)
    requires Inv(s) && actor in s.tasks && actor in s'.tasks && id in s.tasks && id != actor && s.now <= s'.now
    requires s'.tasks == s.tasks[actor := s'.tasks[actor]] && Moves(s, s', actor, s.tasks[actor], s'.tasks[actor])
    ensures id in s'.tasks && Undisturbed(s, s', id)
  {
    assert TaskInv(s, id) && TaskInv(s, actor);
  }

  lemma ActorInv(s: State, s': State, id: nat)
    requires Inv(s) && id in s.tasks && id in s'.tasks && s.now <= s'.now && Moves(s, s', id, s.tasks[id], s'.tasks[id])
    ensures TaskInv(s', id)
  {
    assert TaskInv(s, id);
  }

  lemma RowsStep(s: State, l: Label, s': State)
    requires Inv(s) && Shape(s, l, s')
    ensures RowsInv(s')
  {
    if Actor(l).Some? && !l.Spawn? {
      var t := s.tasks[l.id];
      assert TaskInv(s, l.id) && RowMoves(s, s', t, s'.tasks[l.id]);
    }
  }

  lemma InvStep(s: State, l: Label, s': State)
    requires Inv(s) && Shape(s, l, s')
    ensures Inv(s')
  {
    RowsStep(s, l, s');
    forall id | id in s'.tasks
      ensures TaskInv(s', id)
    {
      if Actor(l) == Some(id) {
        if !l.Spawn? {
          ActorInv(s, s', id);
        }
      } else {
        Others(s, l, s', id);
        FrameTask(s, s', id);
      }
    }
  }

  lemma RunShape(states: seq<State>, labels: seq<Label>, i: nat)
    requires IsRun(states, labels) && i < |labels|
    ensures Shape(states[i], labels[i], states[i + 1])
  {
    StepShape(states[i], labels[i]);
  }

  lemma {:induction false} InvRun(states: seq<State>, labels: seq<Label>, i: nat)
    requires IsRun(states, labels) && i < |states|
    ensures Inv(states[i])
  {
    hide Next, Enabled;
    if i > 0 {
      InvRun(states, labels, i - 1);
      RunShape(states, labels, i - 1);
      InvStep(states[i - 1], labels[i - 1], states[i]);
    }
  }

  // ---- writes hit the incarnation their task read ----

  /**
   `update_tokens`, `mark_degraded` and the bootstrap roll-back name their row by key
   alone, yet in every run they change the incarnation their caller had read, or nothing:
   no row appears, no other session moves, and a session created later is not hit.
   */
  lemma WritesHitWhatWasRead(states: seq<State>, labels: seq<Label>, i: nat)
    requires IsRun(states, labels) && i < |labels|
    requires labels[i].Persist? || labels[i].CleanUp?
    ensures
      var s, s' := states[i], states[i + 1];
      var t := s.tasks[labels[i].id];
      && s'.rows.Keys <= s.rows.Keys
      && (forall k | k in s.rows && k != t.key :: k in s'.rows && s'.rows[k] == s.rows[k])
      && (t.key in s.rows ==> s.rows[t.key].incarnation == t.pc.session.incarnation)
      && (t.key in s'.rows ==> s'.rows[t.key].incarnation == t.pc.session.incarnation)
  {
    InvRun(states, labels, i);
    assert TaskInv(states[i], labels[i].id);
  }

  ghost predicate Absent(s: State, incarnation: nat)
  {
    incarnation < |s.minted| && forall k | k in s.rows :: s.rows[k].incarnation != incarnation
  }

  lemma AbsentStep(s: State, l: Label, s': State, incarnation: nat)
    requires Shape(s, l, s') && Absent(s, incarnation)
    ensures Absent(s', incarnation)
  {
    if Actor(l).Some? && !l.Spawn? {
      assert RowMoves(s, s', s.tasks[l.id], s'.tasks[l.id]);
    }
  }

  /** A revoked or rolled-back session is never resurrected, by any task, in any run. */
  lemma {:induction false} NeverResurrected(states: seq<State>, labels: seq<Label>, i: nat, j: nat, incarnation: nat)
    requires IsRun(states, labels) && i <= j < |states| && Absent(states[i], incarnation)
    ensures Absent(states[j], incarnation)
    decreases j
  {
    hide Next, Enabled;
    if i < j {
      NeverResurrected(states, labels, i, j - 1, incarnation);
      RunShape(states, labels, j - 1);
      AbsentStep(states[j - 1], labels[j - 1], states[j], incarnation);
    }
  }

  // ---- degraded sessions ----

  /** The incarnation is gone or degraded, and no task holds a usable copy of it. */
  ghost predicate Dead(s: State, incarnation: nat)
  {
    && incarnation < |s.minted|
    && (forall k | k in s.rows && s.rows[k].incarnation == incarnation :: s.rows[k].degraded)
    && (forall id | id in s.tasks :: NoUsableCopy(s.tasks[id].pc, incarnation))
  }

  predicate NoUsableCopy(pc: Pc, incarnation: nat)
  {
    HasSession(pc) && pc.session.incarnation == incarnation ==> pc.session.degraded || pc.Failing?
  }

  /** A task has seen the exchange fail and still owes the degrade or roll-back write. */
  ghost predicate CleaningUp(s: State, incarnation: nat)
  {
    exists id | id in s.tasks :: s.tasks[id].pc.Failing? && s.tasks[id].pc.session.incarnation == incarnation
  }

  predicate Uses(e: Event, incarnation: nat) { !e.Failed? && e.incarnation == incarnation }

  /** From `s` to `s'` nobody exchanged, stored or handed out a token of `incarnation`. */
  ghost predicate NoUse(s: State, s': State, incarnation: nat)
  {
    s.log <= s'.log && forall m | |s.log| <= m < |s'.log| :: !Uses(s'.log[m], incarnation)
  }

  lemma DegradedRowIsDead(s: State, k: Key)
    requires Inv(s) && k in s.rows && s.rows[k].degraded
    ensures Dead(s, s.rows[k].incarnation)
  {
    forall id | id in s.tasks ensures NoUsableCopy(s.tasks[id].pc, s.rows[k].incarnation) {
      assert TaskInv(s, id);
    }
  }

  lemma DeadMove(s: State, s': State, id: nat, incarnation: nat)
    requires Inv(s) && id in s.tasks && id in s'.tasks && Moves(s, s', id, s.tasks[id], s'.tasks[id])
    requires Dead(s, incarnation)
    ensures NoUsableCopy(s'.tasks[id].pc, incarnation) && NoUse(s, s', incarnation)
    ensures forall k | k in s'.rows && s'.rows[k].incarnation == incarnation :: s'.rows[k].degraded
  {
    assert TaskInv(s, id) && NoUsableCopy(s.tasks[id].pc, incarnation);
  }

  lemma DeadStep(s: State, l: Label, s': State, incarnation: nat)
    requires Inv(s) && Shape(s, l, s') && Dead(s, incarnation)
    ensures Dead(s', incarnation) && NoUse(s, s', incarnation)
  {
    if Actor(l).Some? && !l.Spawn? {
      DeadMove(s, s', l.id, incarnation);
    }
    forall id | id in s'.tasks ensures NoUsableCopy(s'.tasks[id].pc, incarnation) {
      if Actor(l) != Some(id) {
        assert s'.tasks[id] == s.tasks[id];
      }
    }
  }

  /**
   Although `update_tokens` clears the flag, a degraded row stays degraded for as long
   as it exists, and no task exchanges, stores or returns a token of it again.  Only a
   new bootstrap (a new incarnation) helps.  Holds in every run, aborts included.
   */
  lemma {:induction false} DegradedIsFinal(states: seq<State>, labels: seq<Label>, i: nat, j: nat, k: Key)
    requires IsRun(states, labels) && i <= j < |states| && k in states[i].rows && states[i].rows[k].degraded
    ensures Dead(states[j], states[i].rows[k].incarnation) && NoUse(states[i], states[j], states[i].rows[k].incarnation)
    decreases j
  {
    hide Next, Enabled;
    if i < j {
      DegradedIsFinal(states, labels, i, j - 1, k);
      InvRun(states, labels, j - 1);
      RunShape(states, labels, j - 1);
      DeadStep(states[j - 1], labels[j - 1], states[j], states[i].rows[k].incarnation);
    } else {
      InvRun(states, labels, i);
      DegradedRowIsDead(states[i], k);
    }
  }

  // ---- failed exchanges ----

  /** No step drops a task between its failed exchange and the degrade or roll-back write. */
  ghost predicate CleanUpSucceeds(states: seq<State>, labels: seq<Label>)
    requires |states| == |labels| + 1
  {
    forall i | 0 <= i < |labels| && labels[i].Abort? && labels[i].id in states[i].tasks ::
      !states[i].tasks[labels[i].id].pc.Failing?
  }

  ghost predicate Spent(s: State, incarnation: nat)
  {
    Dead(s, incarnation) || CleaningUp(s, incarnation)
  }

  ghost predicate Clean(s: State, l: Label)
  {
    l.Abort? && l.id in s.tasks ==> !s.tasks[l.id].pc.Failing?
  }

  lemma CleanedUpIsDead(s: State, l: Label, s': State, id: nat)
    requires Inv(s) && Shape(s, l, s') && Clean(s, l) && id in s.tasks && s.tasks[id].pc.Failing?
    requires Actor(l) == Some(id)
    ensures Dead(s', s.tasks[id].pc.session.incarnation) && s'.log == s.log
  {
    var t, incarnation := s.tasks[id], s.tasks[id].pc.session.incarnation;
    assert TaskInv(s, id) && Moves(s, s', id, t, s'.tasks[id]);
    forall k | k in s'.rows && s'.rows[k].incarnation == incarnation ensures s'.rows[k].degraded {
      assert k == t.key;
    }
    forall x | x in s'.tasks ensures NoUsableCopy(s'.tasks[x].pc, incarnation) {
      if x != id {
        assert TaskInv(s, x);
      }
    }
  }

  lemma OthersCannotUse(s: State, s': State, id: nat, actor: nat)
    requires Inv(s) && id in s.tasks && s.tasks[id].pc.Failing? && actor in s.tasks && actor in s'.tasks && actor != id
    requires Moves(s, s', actor, s.tasks[actor], s'.tasks[actor])
    ensures NoUse(s, s', s.tasks[id].pc.session.incarnation)
  {
    assert TaskInv(s, id) && TaskInv(s, actor);
  }

  lemma CleaningUpStep(s: State, l: Label, s': State, incarnation: nat)
    requires Inv(s) && Shape(s, l, s') && CleaningUp(s, incarnation) && Clean(s, l)
    ensures Spent(s', incarnation) && NoUse(s, s', incarnation)
  {
    var id :| id in s.tasks && s.tasks[id].pc.Failing? && s.tasks[id].pc.session.incarnation == incarnation;
    if Actor(l) == Some(id) {
      CleanedUpIsDead(s, l, s', id);
    } else {
      Others(s, l, s', id);
      assert s'.tasks[id].pc.Failing?;
      if Actor(l).Some? && !l.Spawn? {
        OthersCannotUse(s, s', id, l.id);
      }
    }
  }

  /** After a failure the incarnation is spent, and the log never uses it again. */
  ghost predicate FailureFinal(s: State)
  {
    && (forall a | 0 <= a < |s.log| && s.log[a].Failed? :: Spent(s, s.log[a].incarnation))
    && (forall a, b | 0 <= a < b < |s.log| && s.log[a].Failed? :: !Uses(s.log[b], s.log[a].incarnation))
  }

  lemma SpentStep(s: State, l: Label, s': State, incarnation: nat)
    requires Inv(s) && Shape(s, l, s') && Spent(s, incarnation) && Clean(s, l)
    ensures Spent(s', incarnation) && NoUse(s, s', incarnation)
  {
    if Dead(s, incarnation) {
      DeadStep(s, l, s', incarnation);
    } else {
      CleaningUpStep(s, l, s', incarnation);
    }
  }

  lemma NewFailure(s: State, l: Label, s': State)
    requires Shape(s, l, s')
    ensures s.log <= s'.log && |s'.log| <= |s.log| + 1
    ensures s'.log != s.log && s'.log[|s.log|].Failed? ==> CleaningUp(s', s'.log[|s.log|].incarnation)
  {
    if Actor(l).Some? && !l.Spawn? {
      assert LogMoves(s, s', s.tasks[l.id], s'.tasks[l.id]);
      if s'.log != s.log && s'.log[|s.log|].Failed? {
        assert s'.tasks[l.id].pc.Failing?;
      }
    }
  }

  lemma FailureFinalStep(s: State, l: Label, s': State)
    requires Inv(s) && Shape(s, l, s') && FailureFinal(s) && Clean(s, l)
    ensures FailureFinal(s')
  {
    NewFailure(s, l, s');
    forall a | 0 <= a < |s.log| && s.log[a].Failed?
      ensures Spent(s', s.log[a].incarnation) && NoUse(s, s', s.log[a].incarnation)
    {
      SpentStep(s, l, s', s.log[a].incarnation);
    }
  }

  /**
   With the degrade and roll-back writes succeeding, a failed exchange is the last use
   of its incarnation: no later exchange, no later token handed out.
   */
  lemma {:induction false} NoUseAfterFailure(states: seq<State>, labels: seq<Label>, i: nat)
    requires IsRun(states, labels) && i < |states| && CleanUpSucceeds(states, labels)
    ensures FailureFinal(states[i])
  {
    hide Next, Enabled;
    if i > 0 {
      NoUseAfterFailure(states, labels, i - 1);
      InvRun(states, labels, i - 1);
      RunShape(states, labels, i - 1);
      FailureFinalStep(states[i - 1], labels[i - 1], states[i]);
    }
  }

  // ---- successful exchanges ----

  /** Expiry stored by the latest successful exchange of the incarnation. */
  function LastExpiry(log: seq<Event>, incarnation: nat): (e: Option<int>)
    ensures e.Some? ==> Succeeded(incarnation, e.value) in log
  {
    if log == [] then None
    else
      var last := log[|log| - 1];
      if last.Succeeded? && last.incarnation == incarnation then Some(last.expiresAt)
      else LastExpiry(log[..|log| - 1], incarnation)
  }

  lemma LastExpiryAppend(log: seq<Event>, e: Event, incarnation: nat)
    ensures LastExpiry(log + [e], incarnation) ==
            if e.Succeeded? && e.incarnation == incarnation then Some(e.expiresAt) else LastExpiry(log, incarnation)
  {
    assert (log + [e])[..|log|] == log;
  }

  ghost predicate Reflects(session: Session, log: seq<Event>)
  {
    var e := LastExpiry(log, session.incarnation);
    e.Some? ==> session.expiresAt == e && session.accessToken.Some?
  }

  /** The exchange started at `b` was due: the stored token was about to expire. */
  ghost predicate Due(log: seq<Event>, b: nat)
    requires b < |log| && log[b].Started?
  {
    var e := LastExpiry(log[..b], log[b].incarnation);
    e.Some? ==>
      || (log[b].kind.Proxy? && e.value <= log[b].at + PROXY_MARGIN)
      || (log[b].kind.Refresher? && e.value <= log[b].kind.threshold <= log[b].at + REFRESHER_MARGIN)
  }

  ghost predicate Sharing(s: State)
  {
    && (forall k | k in s.rows :: Reflects(s.rows[k], s.log))
    && (forall id | id in s.tasks && s.tasks[id].pc.Holding? :: Reflects(s.tasks[id].pc.session, s.log))
    && (forall b | 0 <= b < |s.log| && s.log[b].Started? :: Due(s.log, b))
  }

  lemma SharingRow(s: State, s': State, id: nat, k: Key)
    requires Inv(s) && Sharing(s) && id in s.tasks && id in s'.tasks && Moves(s, s', id, s.tasks[id], s'.tasks[id])
    requires k in s'.rows
    ensures Reflects(s'.rows[k], s'.log)
  {
    assert TaskInv(s, id);
    if s'.log != s.log {
      LastExpiryAppend(s.log, s'.log[|s.log|], s'.rows[k].incarnation);
    }
    if s'.minted != s.minted && k == s.tasks[id].key {
      assert LastExpiry(s.log, |s.minted|).None?;
    }
  }

  lemma SharingTask(s: State, l: Label, s': State, id: nat)
    requires Inv(s) && Sharing(s) && Shape(s, l, s') && id in s'.tasks && s'.tasks[id].pc.Holding?
    requires forall k | k in s'.rows :: Reflects(s'.rows[k], s'.log)
    ensures Reflects(s'.tasks[id].pc.session, s'.log)
  {
    if Actor(l) != Some(id) && Actor(l).Some? && !l.Spawn? {
      assert TaskInv(s, id) && TaskInv(s, l.id) && LogMoves(s, s', s.tasks[l.id], s'.tasks[l.id]);
      if s'.log != s.log {
        LastExpiryAppend(s.log, s'.log[|s.log|], s'.tasks[id].pc.session.incarnation);
      }
    }
  }

  lemma DueStep(s: State, l: Label, s': State)
    requires Inv(s) && Sharing(s) && Shape(s, l, s') && s'.log != s.log && s'.log[|s.log|].Started?
    ensures Due(s'.log, |s.log|)
  {
    assert TaskInv(s, l.id) && LogMoves(s, s', s.tasks[l.id], s'.tasks[l.id]);
    assert s'.log[..|s.log|] == s.log;
    assert Reflects(s.tasks[l.id].pc.session, s.log);
  }

  lemma SharingStep(s: State, l: Label, s': State)
    requires Inv(s) && Shape(s, l, s') && Sharing(s)
    ensures Sharing(s')
  {
    NewFailure(s, l, s');
    forall k | k in s'.rows ensures Reflects(s'.rows[k], s'.log) {
      if Actor(l).Some? && !l.Spawn? {
        SharingRow(s, s', l.id, k);
      }
    }
    forall id | id in s'.tasks && s'.tasks[id].pc.Holding? ensures Reflects(s'.tasks[id].pc.session, s'.log) {
      SharingTask(s, l, s', id);
    }
    forall b | 0 <= b < |s'.log| && s'.log[b].Started? ensures Due(s'.log, b) {
      if b < |s.log| {
        assert s'.log[..b] == s.log[..b];
      } else {
        DueStep(s, l, s');
      }
    }
  }

  /** An exchange follows a successful one of the same incarnation only when it is due. */
  lemma {:induction false} ExchangesAreDue(states: seq<State>, labels: seq<Label>, i: nat)
    requires IsRun(states, labels) && i < |states|
    ensures Sharing(states[i])
  {
    hide Next, Enabled;
    if i == 0 {
      assert states[0].log == [];
    } else {
      ExchangesAreDue(states, labels, i - 1);
      InvRun(states, labels, i - 1);
      RunShape(states, labels, i - 1);
      SharingStep(states[i - 1], labels[i - 1], states[i]);
    }
  }

  lemma {:induction false} LastExpiryAt(log: seq<Event>, a: nat, incarnation: nat)
    requires a < |log| && log[a].Succeeded? && log[a].incarnation == incarnation
    requires forall m | a < m < |log| :: !(log[m].Succeeded? && log[m].incarnation == incarnation)
    ensures LastExpiry(log, incarnation) == Some(log[a].expiresAt)
  {
    if a < |log| - 1 {
      LastExpiryAt(log[..|log| - 1], a, incarnation);
    }
  }

  /**
   Queued callers share one exchange: after a success that stored expiry `e`, the next
   exchange of that incarnation starts no earlier than 300 s before `e`, and no earlier
   than 60 s before it when a proxy request starts it.
   */
  lemma QueuedCallersShare(states: seq<State>, labels: seq<Label>, i: nat, a: nat, b: nat)
    requires IsRun(states, labels) && i < |states|
    requires a < b < |states[i].log| && states[i].log[a].Succeeded? && states[i].log[b].Started?
    requires states[i].log[a].incarnation == states[i].log[b].incarnation
    requires forall m | a < m < b ::
      !(states[i].log[m].Succeeded? && states[i].log[m].incarnation == states[i].log[a].incarnation)
    ensures !states[i].log[b].kind.Bootstrap?
    ensures states[i].log[b].at >= states[i].log[a].expiresAt - REFRESHER_MARGIN
    ensures states[i].log[b].kind.Proxy? ==> states[i].log[b].at >= states[i].log[a].expiresAt - PROXY_MARGIN
  {
    hide Next, Enabled;
    var log := states[i].log;
    ExchangesAreDue(states, labels, i);
    LastExpiryAt(log[..b], a, log[a].incarnation);
    assert Due(log, b);
  }

  // ---- why clean-up must not be lost ----

  lemma ExtendRun(states: seq<State>, labels: seq<Label>, l: Label)
    requires IsRun(states, labels) && Enabled(states[|labels|], l)
    ensures IsRun(states + [Next(states[|labels|], l)], labels + [l])
  {
    hide Next, Enabled;
    var more, named := states + [Next(states[|labels|], l)], labels + [l];
    forall i | 0 <= i < |named| ensures Enabled(more[i], named[i]) && more[i + 1] == Next(more[i], named[i]) {
      if i < |labels| {
        assert named[i] == labels[i] && more[i] == states[i] && more[i + 1] == states[i + 1];
      }
    }
  }

  /** A free lock and an undegraded session without access token: a proxy request `id`
      gets as far as the token endpoint in four steps. */
  lemma ReachesExchange(states: seq<State>, labels: seq<Label>, id: nat, k: Key)
    returns (more: seq<State>, named: seq<Label>)
    requires IsRun(states, labels)
    requires var s := states[|labels|];
      && id !in s.tasks && LockKey(k) !in s.holder && k in s.rows
      && !s.rows[k].degraded && s.rows[k].accessToken.None? && s.rows[k].refreshToken != ""
    ensures IsRun(more, named) && |named| == |labels| + 4
    ensures var s, s' := states[|labels|], more[|named|];
      && s'.rows == s.rows && s'.holder == s.holder[LockKey(k) := id]
      && s'.tasks == s.tasks[id := Task(Proxy, k, Exchanging(s.rows[k]))]
      && s'.log == s.log + [Started(s.rows[k].incarnation, Proxy, s.now)]
  {
    var s0 := states[|labels|];
    ExtendRun(states, labels, Spawn(id, Proxy, k));
    more, named := states + [Next(s0, Spawn(id, Proxy, k))], labels + [Spawn(id, Proxy, k)];
    var s1 := Next(s0, Spawn(id, Proxy, k));
    ExtendRun(more, named, Acquire(id));
    more, named := more + [Next(s1, Acquire(id))], named + [Acquire(id)];
    var s2 := Next(s1, Acquire(id));
    ExtendRun(more, named, Read(id));
    more, named := more + [Next(s2, Read(id))], named + [Read(id)];
    var s3 := Next(s2, Read(id));
    ExtendRun(more, named, Decide(id));
    more, named := more + [Next(s3, Decide(id))], named + [Decide(id)];
  }

  /** The exchange fails and the caller is dropped before its degrade write. */
  lemma FailsAndIsDropped(states: seq<State>, labels: seq<Label>, id: nat)
    returns (more: seq<State>, named: seq<Label>)
    requires IsRun(states, labels) && id in states[|labels|].tasks && states[|labels|].tasks[id].pc.Exchanging?
    ensures IsRun(more, named) && |named| == |labels| + 2
    ensures var s, s' := states[|labels|], more[|named|];
      var t := s.tasks[id];
      && s'.rows == s.rows && s'.holder == s.holder - {LockKey(t.key)}
      && s'.tasks == s.tasks[id := t.(pc := Finished)]
      && s'.log == s.log + [Event.Failed(t.pc.session.incarnation)]
  {
    var s0 := states[|labels|];
    ExtendRun(states, labels, ExchangeError(id));
    more, named := states + [Next(s0, ExchangeError(id))], labels + [ExchangeError(id)];
    var s1 := Next(s0, ExchangeError(id));
    ExtendRun(more, named, Abort(id));
    more, named := more + [Next(s1, Abort(id))], named + [Abort(id)];
  }

  lemma StartOf(s: State)
    requires Init(s)
    ensures IsRun([s], [])
  {
  }

  /** If the degrade write after a failed exchange is lost, the next caller exchanges again. */
  lemma LostDegradeAllowsReuse() returns (states: seq<State>, labels: seq<Label>)
    ensures IsRun(states, labels) && !FailureFinal(states[|labels|])
  {
    hide Next, Enabled, IsRun, LockKey, Spent;
    var k := Key("n", "l");
    var s0 := State(0, map[k := Session(0, "t", None, None, false)], [k], map[], map[], []);
    StartOf(s0);
    states, labels := ReachesExchange([s0], [], 0, k);
    states, labels := FailsAndIsDropped(states, labels, 0);
    states, labels := ReachesExchange(states, labels, 1, k);
    var log := states[|labels|].log;
    assert log[1].Failed? && Uses(log[2], log[1].incarnation);
  }
}
