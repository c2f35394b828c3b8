/** Scheduler leadership over a session-level advisory lock. */
module Leadership {
  import opened Prelude

  type Session = nat
  type Replica = nat

  // ---- the lock, as the database keeps it ---------------------------------------------------

  /** A session may take the lock again; it is free once given back as often as taken. */
  datatype Lock = Free | Held(holder: Session, depth: nat)

  predicate Owns(l: Lock, s: Session) {
    l.Held? && l.holder == s
  }

  function TryLock(l: Lock, s: Session): Lock {
    if l.Free? then Held(s, 1) else if l.holder == s then Held(s, l.depth + 1) else l
  }

  function Unlock(l: Lock, s: Session): Lock {
    if !Owns(l, s) then l else if l.depth > 1 then Held(s, l.depth - 1) else Free
  }

  /** The end of a session gives back all it holds. */
  function Drop(l: Lock, s: Session): Lock {
    if Owns(l, s) then Free else l
  }

  // ---- one replica ----------------------------------------------------------------------------

  class Database {
    var live: set<Session>
    var lock: Lock

    constructor ()
      ensures live == {} && lock == Free
    {
      live, lock := {}, Free;
    }
  }

  /** How the outside world answers one call: whether the ping gets through, which session the
      pool hands out if any, whether the reply to the lock query arrives, and whether the
      query reached the database when its reply did not. */
  datatype Answers = Answers(pinged: bool, handed: Option<Session>, replied: bool, reached: bool)

  class PgLeader {
    var conn: Option<Session>

    constructor ()
      ensures conn.None?
    {
      conn := None;
    }

    /** A replica that is told it leads holds a live session that owns the lock. A session
        that is let go keeps the lock if it had it. */
    method IsLeader(db: Database, a: Answers) returns (leads: bool)
      requires conn.Some? && a.pinged ==> conn.value in db.live
      requires conn.Some? && conn.value in db.live ==> Owns(db.lock, conn.value)
      modifies this, db`lock
      ensures leads ==> conn.Some? && conn.value in db.live && Owns(db.lock, conn.value)
      ensures leads <==> conn.Some?
      ensures var stays := old(conn).Some? && a.pinged;
              var asked := !stays && a.handed.Some? && a.handed.value in db.live && (a.replied || a.reached);
              && (stays ==> conn == old(conn))
              && db.lock == (if asked then TryLock(old(db.lock), a.handed.value) else old(db.lock))
              && (!stays ==> (leads <==> asked && a.replied && Owns(db.lock, a.handed.value)))
              && (!stays && leads ==> conn == a.handed)
    {
      if conn.Some? {
        if a.pinged {
          return true;
        }
        conn := None;
      }
      if a.handed.None? {
        return false;
      }
      var s := a.handed.value;
      if s !in db.live {
        return false;
      }
      if a.replied || a.reached {
        db.lock := TryLock(db.lock, s);
      }
      if !a.replied || !Owns(db.lock, s) {
        return false;
      }
      conn := Some(s);
      return true;
    }

    /** Gives the lock back once, if the query gets through, and lets the session go. */
    method Close(db: Database, reached: bool)
      modifies this, db`lock
      ensures conn.None?
      ensures db.lock == if old(conn).Some? && reached && old(conn).value in db.live
                         then Unlock(old(db.lock), old(conn).value) else old(db.lock)
    {
      if conn.None? {
        return;
      }
      if reached && conn.value in db.live {
        db.lock := Unlock(db.lock, conn.value);
      }
      conn := None;
    }
  }

  // ---- any number of replicas ---------------------------------------------------------------

  /** Where a call to IsLeader that found no usable session stands. */
  datatype Phase = Contending | Using(s: Session)

  /** `owner` says whose pool opened a session; `conns` and `calls` are each replica's held
      session and unfinished call. A replica runs one call at a time. */
  datatype State = State(live: set<Session>, lock: Lock, owner: map<Session, Replica>,
                         conns: map<Replica, Session>, calls: map<Replica, Phase>)

  datatype Move =
    | Die(s: Session)
    | PingOk(r: Replica)
    | PingFailed(r: Replica)
    | Contend(r: Replica)
    | NoSession(r: Replica)
    | Take(r: Replica, s: Session)
    | Try(r: Replica, replied: bool, reached: bool)
    | Close(r: Replica, reached: bool)

  /** The pool hands out one of the replica's idle sessions, alive or not, or opens one. */
  ghost predicate HandsOut(s: State, r: Replica, x: Session, s': State) {
    if x in s.owner then s.owner[x] == r && s' == s.(calls := s.calls[r := Using(x)])
    else s' == s.(live := s.live + {x}, owner := s.owner[x := r], calls := s.calls[r := Using(x)])
  }

  ghost predicate Step(s: State, m: Move, s': State) {
    match m
    case Die(x) => s' == s.(live := s.live - {x}, lock := Drop(s.lock, x))
    case PingOk(r) => r !in s.calls && r in s.conns && s.conns[r] in s.live && s' == s
    case PingFailed(r) =>
      r !in s.calls && r in s.conns && s' == s.(conns := s.conns - {r}, calls := s.calls[r := Contending])
    case Contend(r) => r !in s.calls && r !in s.conns && s' == s.(calls := s.calls[r := Contending])
    case NoSession(r) => r in s.calls && s.calls[r].Contending? && s' == s.(calls := s.calls - {r})
    case Take(r, x) => r in s.calls && s.calls[r].Contending? && HandsOut(s, r, x, s')
    case Try(r, replied, reached) =>
      && r in s.calls && s.calls[r].Using?
      && var x := s.calls[r].s;
      var lock' := if x in s.live && (replied || reached) then TryLock(s.lock, x) else s.lock;
      s' == s.(lock := lock', calls := s.calls - {r},
               conns := if x in s.live && replied && Owns(lock', x) then s.conns[r := x] else s.conns)
    case Close(r, reached) =>
      && r !in s.calls && r in s.conns
      && s' == s.(conns := s.conns - {r},
                  lock := if reached && s.conns[r] in s.live then Unlock(s.lock, s.conns[r]) else s.lock)
  }

  /** The step answers "you lead" to replica `r`. */
  ghost predicate Grants(s: State, m: Move, s': State, r: Replica) {
    && Step(s, m, s')
    && (m == PingOk(r) || (m.Try? && m.r == r && r in s'.conns && r in s.calls))
  }

  ghost predicate LockOk(s: State) {
    && s.live <= s.owner.Keys
    && (s.lock.Held? ==> s.lock.holder in s.live && s.lock.depth >= 1)
  }

  /** A live session held in `conn` owns the lock. */
  ghost predicate ConnsOk(s: State) {
    forall r :: r in s.conns ==>
      && r !in s.calls && s.conns[r] in s.owner && s.owner[s.conns[r]] == r
      && (s.conns[r] in s.live ==> Owns(s.lock, s.conns[r]))
  }

  ghost predicate CallsOk(s: State) {
    forall r :: r in s.calls && s.calls[r].Using? ==> s.calls[r].s in s.owner && s.owner[s.calls[r].s] == r
  }

  ghost predicate Inv(s: State) {
    LockOk(s) && ConnsOk(s) && CallsOk(s)
  }

  const INIT: State := State({}, Free, map[], map[], map[])

  lemma StepKeepsLock(s: State, m: Move, s': State)
    requires Inv(s) && Step(s, m, s')
    ensures LockOk(s')
  {
  }

  lemma StepKeepsCalls(s: State, m: Move, s': State)
    requires Inv(s) && Step(s, m, s')
    ensures CallsOk(s')
  {
  }

  lemma StepKeepsConns(s: State, m: Move, s': State)
    requires Inv(s) && Step(s, m, s')
    ensures ConnsOk(s')
  {
    forall r | r in s'.conns
      ensures r !in s'.calls && s'.conns[r] in s'.owner && s'.owner[s'.conns[r]] == r
      ensures s'.conns[r] in s'.live ==> Owns(s'.lock, s'.conns[r])
    {
      if m.Try? && m.r != r {
        assert r in s.conns;
      } else if m.Close? {
        assert r in s.conns && s.conns[r] != s.conns[m.r];
      }
    }
  }

  /** Step `k` answers "you lead" to `r`. */
  ghost predicate GrantAt(moves: seq<Move>, states: seq<State>, k: int, r: Replica) {
    0 <= k < |moves| && k + 1 < |states| && Grants(states[k], moves[k], states[k + 1], r)
  }

  ghost predicate IsRun(moves: seq<Move>, states: seq<State>) {
    && |states| == |moves| + 1 && states[0] == INIT
    && forall n :: 0 <= n < |moves| ==> Step(states[n], moves[n], states[n + 1])
  }

  lemma {:induction false} RunKeepsInv(moves: seq<Move>, states: seq<State>, n: nat)
    requires IsRun(moves, states) && n < |states|
    ensures Inv(states[n])
  {
    if n > 0 {
      RunKeepsInv(moves, states, n - 1);
      StepKeepsLock(states[n - 1], moves[n - 1], states[n]);
      StepKeepsCalls(states[n - 1], moves[n - 1], states[n]);
      StepKeepsConns(states[n - 1], moves[n - 1], states[n]);
    }
  }

  /** In every reachable state at most one replica holds a live session. */
  lemma OneLiveLeader(moves: seq<Move>, states: seq<State>, n: nat, r: Replica, q: Replica)
    requires IsRun(moves, states) && n < |states|
    requires r in states[n].conns && states[n].conns[r] in states[n].live
    requires q in states[n].conns && states[n].conns[q] in states[n].live
    ensures r == q
  {
    RunKeepsInv(moves, states, n);
    assert Owns(states[n].lock, states[n].conns[r]) && Owns(states[n].lock, states[n].conns[q]);
  }

  // ---- leadership changes hands only through a death or a release -------------------------------

  ghost predicate LockedBy(s: State, r: Replica) {
    s.lock.Held? && s.lock.holder in s.owner && s.owner[s.lock.holder] == r
  }

  /** The step ends one of `r`'s sessions, or is `r` closing. */
  ghost predicate LetsGo(s: State, m: Move, r: Replica) {
    (m.Die? && m.s in s.owner && s.owner[m.s] == r) || (m.Close? && m.r == r)
  }

  lemma LockStays(s: State, m: Move, s': State, r: Replica)
    requires Inv(s) && Step(s, m, s') && LockedBy(s, r) && !LetsGo(s, m, r)
    ensures LockedBy(s', r)
  {
    if m.Close? {
      assert s.owner[s.conns[m.r]] == m.r;
    }
  }

  lemma GrantedIsLocked(s: State, m: Move, s': State, r: Replica)
    requires Inv(s) && Grants(s, m, s', r)
    ensures LockedBy(s', r)
  {
    StepKeepsConns(s, m, s');
    if m.Try? {
      assert s'.conns[r] == s.calls[r].s;
    }
  }

  /** Step `k` lets go of `r`'s leadership. */
  ghost predicate LetsGoAt(moves: seq<Move>, states: seq<State>, k: int, r: Replica) {
    0 <= k < |moves| && k < |states| && LetsGo(states[k], moves[k], r)
  }

  lemma LockStaysAt(moves: seq<Move>, states: seq<State>, k: nat, r: Replica)
    requires IsRun(moves, states) && k < |moves| && LockedBy(states[k], r) && !LetsGoAt(moves, states, k, r)
    ensures LockedBy(states[k + 1], r)
  {
    RunKeepsInv(moves, states, k);
    LockStays(states[k], moves[k], states[k + 1], r);
  }

  lemma {:induction false} LockStaysUntil(moves: seq<Move>, states: seq<State>, i: nat, j: nat, r: Replica)
    requires IsRun(moves, states) && i <= j < |states| && LockedBy(states[i], r)
    requires forall k :: i <= k < j ==> !LetsGoAt(moves, states, k, r)
    ensures LockedBy(states[j], r)
  {
    if i < j {
      LockStaysUntil(moves, states, i, j - 1, r);
      LockStaysAt(moves, states, j - 1, r);
    }
  }

  /** Two replicas are never both told that they lead unless, in between, the first one
      closed or one of its sessions died. */
  lemma NeverTwoLeaders(moves: seq<Move>, states: seq<State>, i: nat, j: nat, r: Replica, q: Replica)
    requires IsRun(moves, states) && i < j && r != q && GrantAt(moves, states, i, r) && GrantAt(moves, states, j, q)
    ensures exists k :: i < k < j && LetsGoAt(moves, states, k, r)
  {
    RunKeepsInv(moves, states, i);
    RunKeepsInv(moves, states, j);
    GrantedIsLocked(states[i], moves[i], states[i + 1], r);
    GrantedIsLocked(states[j], moves[j], states[j + 1], q);
    if forall k :: i + 1 <= k < j ==> !LetsGoAt(moves, states, k, r) {
      LockStaysUntil(moves, states, i + 1, j, r);
      LockStaysAt(moves, states, j, r);
    }
  }

  // ---- becoming the leader ------------------------------------------------------------------------

  /** A contender that has a session is told that it leads exactly when the session lives, the
      reply arrives, and the lock is free or the session's own. */
  lemma TryGrantsIff(s: State, r: Replica, replied: bool, reached: bool, s': State)
    requires Inv(s) && Step(s, Try(r, replied, reached), s')
    ensures var x := s.calls[r].s;
            Grants(s, Try(r, replied, reached), s', r) <==> x in s.live && replied && (s.lock.Free? || s.lock.holder == x)
  {
    assert r !in s.conns;
  }

  /** While the lock is free, any replica that asks can become the leader. */
  lemma FreeLockCanBeTaken(s: State, r: Replica, x: Session) returns (a: State, b: State, c: State)
    requires Inv(s) && s.lock.Free? && r !in s.calls && r !in s.conns && x !in s.owner
    ensures Step(s, Contend(r), a) && Step(a, Take(r, x), b) && Step(b, Try(r, true, true), c)
    ensures Grants(b, Try(r, true, true), c, r) && LockedBy(c, r)
  {
    a := s.(calls := s.calls[r := Contending]);
    b := a.(live := a.live + {x}, owner := a.owner[x := r], calls := a.calls[r := Using(x)]);
    c := b.(lock := Held(x, 1), calls := b.calls - {r}, conns := b.conns[r := x]);
  }

  // ---- a lock without a leader ------------------------------------------------------------------

  /** An idle session in some pool owns the lock. */
  ghost predicate Stranded(s: State, x: Session) {
    Owns(s.lock, x) && Idle(s, x)
  }

  /** `x` is neither held nor in use. */
  ghost predicate Idle(s: State, x: Session) {
    && (forall r :: r in s.conns ==> s.conns[r] != x)
    && forall r :: r in s.calls && s.calls[r].Using? ==> s.calls[r].s != x
  }

  /** The three ways to leave the lock with an idle session: a ping that fails although the
      session lives; a lock query that got through while its reply did not, or that did not
      get through on a session that had the lock already; and a `Close` that does not get
      through, or gives back only one of several locks. */
  ghost predicate Strands(s: State, m: Move, x: Session) {
    && x in s.live
    && match m
       case PingFailed(r) => r in s.conns && s.conns[r] == x
       case Try(r, replied, reached) =>
         r in s.calls && s.calls[r] == Using(x) && !replied && (Owns(s.lock, x) || (reached && s.lock.Free?))
       case Close(r, reached) => r in s.conns && s.conns[r] == x && (!reached || s.lock.Free? || s.lock.depth > 1)
       case _ => false
  }

  /** The two ways out: the session ends, or its own replica happens to be handed it again. */
  ghost predicate Frees(m: Move, x: Session) {
    m == Die(x) || (m.Take? && m.s == x)
  }

  lemma HeldByOne(s: State, r: Replica, q: Replica)
    requires Inv(s) && r in s.conns && r != q
    ensures q in s.conns ==> s.conns[q] != s.conns[r]
    ensures q in s.calls && s.calls[q].Using? ==> s.calls[q].s != s.conns[r]
  {
  }

  lemma UsedByOne(s: State, r: Replica, q: Replica)
    requires Inv(s) && r in s.calls && s.calls[r].Using? && r != q
    ensures q in s.conns ==> s.conns[q] != s.calls[r].s
    ensures q in s.calls && s.calls[q].Using? ==> s.calls[q].s != s.calls[r].s
  {
  }

  lemma DroppedIsIdle(s: State, m: Move, s': State, x: Session)
    requires Inv(s) && Step(s, m, s') && (m.PingFailed? || m.Close?)
    ensures Idle(s', x) <==> Idle(s, x) || x == s.conns[m.r]
  {
    forall q | q != m.r
      ensures q in s.conns ==> s.conns[q] != s.conns[m.r]
      ensures q in s.calls && s.calls[q].Using? ==> s.calls[q].s != s.conns[m.r]
    {
      HeldByOne(s, m.r, q);
    }
    assert forall q :: q in s'.conns <==> q in s.conns && q != m.r;
    assert forall q :: q in s.calls ==> q in s'.calls && s'.calls[q] == s.calls[q];
    if q :| q in s.conns && s.conns[q] == x && q != m.r {
      assert q in s'.conns && s'.conns[q] == x;
    }
  }

  lemma TriedIsIdle(s: State, m: Move, s': State, x: Session)
    requires Inv(s) && Step(s, m, s') && m.Try?
    ensures Idle(s', x) <==> Idle(s, x) || (x == s.calls[m.r].s && m.r !in s'.conns)
  {
    forall q | q != m.r
      ensures q in s.conns ==> s.conns[q] != s.calls[m.r].s
      ensures q in s.calls && s.calls[q].Using? ==> s.calls[q].s != s.calls[m.r].s
    {
      UsedByOne(s, m.r, q);
    }
    assert m.r !in s.conns;
    assert forall q :: q in s.conns ==> q in s'.conns && s'.conns[q] == s.conns[q];
    assert forall q :: q in s'.calls <==> q in s.calls && q != m.r;
    if q :| q in s.calls && s.calls[q].Using? && s.calls[q].s == x && q != m.r {
      assert q in s'.calls && s'.calls[q].s == x;
    }
  }

  lemma OtherIsIdle(s: State, m: Move, s': State, x: Session)
    requires Inv(s) && Step(s, m, s') && (m.Die? || m.PingOk? || m.Contend? || m.NoSession? || m.Take?)
    ensures Idle(s', x) <==> Idle(s, x) && !(m.Take? && m.s == x)
  {
    assert m.Take? ==> m.r in s'.calls && s'.calls[m.r] == Using(m.s);
    if m.Contend? || m.NoSession? || m.Take? {
      assert forall q :: q != m.r ==> (q in s'.calls <==> q in s.calls) && (q in s.calls ==> s'.calls[q] == s.calls[q]);
      if q :| q in s.calls && s.calls[q].Using? && s.calls[q].s == x {
        assert q != m.r && q in s'.calls && s'.calls[q].s == x;
      }
    }
  }

  /** In every state that can arise, exactly which steps leave the lock with an idle session. */
  lemma StrandedIff(s: State, m: Move, s': State, x: Session)
    requires Inv(s) && Step(s, m, s')
    ensures Stranded(s', x) <==> (Stranded(s, x) && !Frees(m, x)) || Strands(s, m, x)
  {
    if m.PingFailed? || m.Close? {
      DroppedIsIdle(s, m, s', x);
    } else if m.Try? {
      TriedIsIdle(s, m, s', x);
    } else {
      OtherIsIdle(s, m, s', x);
    }
  }

  /** In any run, a failed ping leaves the lock with an idle session exactly when the session
      it gave up on is alive. */
  lemma LostPingStrandsTheLock(moves: seq<Move>, states: seq<State>, n: nat, r: Replica)
    requires IsRun(moves, states) && n < |moves| && moves[n] == PingFailed(r)
    ensures r in states[n].conns
    ensures Stranded(states[n + 1], states[n].conns[r]) <==> states[n].conns[r] in states[n].live
  {
    RunKeepsInv(moves, states, n);
    StrandedIff(states[n], moves[n], states[n + 1], states[n].conns[r]);
  }

  lemma StrandedStep(s: State, m: Move, s': State, x: Session)
    requires Inv(s) && Step(s, m, s') && Stranded(s, x) && !Frees(m, x)
    ensures Stranded(s', x) && forall r :: !Grants(s, m, s', r)
  {
  }

  /** From then on no replica is ever told that it leads, unless that very session ends or
      its own replica happens to be handed it again. */
  lemma {:induction false} StrandedLockLeadsNobody(moves: seq<Move>, states: seq<State>, i: nat, j: nat, x: Session)
    requires IsRun(moves, states) && i <= j < |states| && Stranded(states[i], x)
    requires forall k :: i <= k < j ==> !Frees(moves[k], x)
    ensures Stranded(states[j], x)
    ensures forall k, r :: i <= k < j ==> !GrantAt(moves, states, k, r)
  {
    if i < j {
      StrandedLockLeadsNobody(moves, states, i, j - 1, x);
      RunKeepsInv(moves, states, j - 1);
      StrandedStep(states[j - 1], moves[j - 1], states[j], x);
    }
  }
}
