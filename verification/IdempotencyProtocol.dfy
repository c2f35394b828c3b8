/** The idempotency middleware as a concurrent protocol. Goroutines are program
    counters over shared state; each critical section is one atomic step, and any
    goroutine may move next. `unlock` keeps its window: the inner mutex is released
    before the reference count drops. */
module IdempotencyProtocol {
  import opened Prelude
  import opened Coordination

  type LockId = nat

  /** An entry of the lock table: its reference count and its inner mutex. */
  datatype Lock = Lock(refs: int, held: bool)

  datatype PC =
    | First                            // before the unlocked Get
    | Entering                         // before the critical section of lock
    | Waiting(l: LockId)               // counted; blocked on the inner mutex
    | Second(l: LockId)                // inside; before the second Get
    | Running(l: LockId)               // inside; the handler is executing
    | Storing(l: LockId, rec: Record)  // inside; before Put
    | Leaving(l: LockId)               // inside; before unlock's table lookup
    | Releasing(l: LockId, kl: LockId) // inside; unlock has found kl
    | Dropping(l: LockId, kl: LockId)  // kl's mutex released; before refs--
    | Finished
    | Crashed                          // nil lock dereferenced, or unlocked twice

  datatype Proc = Proc(key: string, pc: PC)

  datatype Event =
    | Started(r: nat, key: string)
    | Ended(r: nat, key: string, outcome: Outcome)
    | Stored(r: nat, key: string, entry: Entry, evicted: set<string>)
    | Lapsed(key: string, at: int)     // Get deleted an expired record
    | Replayed(r: nat, key: string, rec: Record, at: int)

  datatype Outcome = Answered(rec: Record) | Panicked

  datatype State = State(
    now: int,
    cache: Cache,
    table: map<string, LockId>,
    heap: seq<Lock>,                   // every lock object ever allocated
    procs: seq<Proc>,
    log: seq<Event>)

  datatype Step =
    | Arrive(key: string)
    | Tick(d: nat)
    | Move(r: nat, outcome: Outcome)   // the outcome matters to a running handler only

  function Init(ttl: int, max: nat): State {
    State(0, Cache(ttl, max, [], map[]), map[], [], [], [])
  }

  predicate Enabled(s: State, step: Step) {
    match step
    case Arrive(_) => true
    case Tick(_) => true
    case Move(r, _) =>
      && r < |s.procs|
      && match s.procs[r].pc {
        case Finished => false
        case Crashed => false
        case Waiting(l) => l < |s.heap| && !s.heap[l].held
        case _ => true
      }
  }

  function Goto(s: State, r: nat, pc: PC): State
    requires r < |s.procs|
  {
    s.(procs := s.procs[r := s.procs[r].(pc := pc)])
  }

  /** One `Get` by goroutine `r`: replay and go to `hit`, or go to `miss`. */
  function GetStep(s: State, r: nat, hit: PC, miss: PC): State
    requires r < |s.procs|
  {
    var key := s.procs[r].key;
    match Lookup(s.cache, key, s.now)
    case Some(rec) => Goto(s, r, hit).(log := s.log + [Replayed(r, key, rec, s.now)])
    case None =>
      Goto(s, r, miss).(
        cache := AfterGet(s.cache, key, s.now),
        log := s.log + if Expired(s.cache, key, s.now) then [Lapsed(key, s.now)] else [])
  }

  function EnterStep(s: State, r: nat): State
    requires r < |s.procs|
  {
    var key := s.procs[r].key;
    if key in s.table && s.table[key] < |s.heap| then
      var l := s.table[key];
      Goto(s, r, Waiting(l)).(heap := s.heap[l := s.heap[l].(refs := s.heap[l].refs + 1)])
    else
      var l := |s.heap|;
      Goto(s, r, Waiting(l)).(heap := s.heap + [Lock(1, false)], table := s.table[key := l])
  }

  function SetHeld(s: State, l: LockId, held: bool): State {
    if l < |s.heap| then s.(heap := s.heap[l := s.heap[l].(held := held)]) else s
  }

  function ReleaseStep(s: State, r: nat, l: LockId, kl: LockId): State
    requires r < |s.procs|
  {
    if kl < |s.heap| && s.heap[kl].held then
      Goto(SetHeld(s, kl, false), r, Dropping(l, kl))
    else
      Goto(s, r, Crashed)
  }

  function DropStep(s: State, r: nat, kl: LockId): State
    requires r < |s.procs|
  {
    if kl < |s.heap| then
      var refs := s.heap[kl].refs - 1;
      var t := Goto(s, r, Finished).(heap := s.heap[kl := s.heap[kl].(refs := refs)]);
      if refs == 0 then t.(table := s.table - {s.procs[r].key}) else t
    else
      Goto(s, r, Crashed)
  }

  function StoreStep(s: State, r: nat, l: LockId, rec: Record): State
    requires r < |s.procs|
  {
    var key := s.procs[r].key;
    Goto(s, r, Leaving(l)).(
      cache := AfterPut(s.cache, key, rec, s.now),
      log := s.log + [Stored(r, key, Entry(rec, s.now + s.cache.ttl), Evicted(s.cache, key))])
  }

  /** The second `Get` of the double check; a miss starts the handler. */
  function SecondStep(s: State, r: nat, l: LockId): State
    requires r < |s.procs|
  {
    var t := GetStep(s, r, Leaving(l), Running(l));
    if t.procs[r].pc.Running? then t.(log := t.log + [Started(r, s.procs[r].key)]) else t
  }

  function EndStep(s: State, r: nat, l: LockId, outcome: Outcome): State
    requires r < |s.procs|
  {
    var next := if outcome.Answered? && outcome.rec.status < 500
                then Storing(l, outcome.rec) else Leaving(l);
    Goto(s, r, next).(log := s.log + [Ended(r, s.procs[r].key, outcome)])
  }

  function Next(s: State, step: Step): State
    requires Enabled(s, step)
  {
    match step
    case Arrive(key) => s.(procs := s.procs + [Proc(key, First)])
    case Tick(d) => s.(now := s.now + d)
    case Move(r, outcome) =>
      match s.procs[r].pc {
        case First => GetStep(s, r, Finished, Entering)
        case Entering => EnterStep(s, r)
        case Waiting(l) => Goto(SetHeld(s, l, true), r, Second(l))
        case Second(l) => SecondStep(s, r, l)
        case Running(l) => EndStep(s, r, l, outcome)
        case Storing(l, rec) => StoreStep(s, r, l, rec)
        case Leaving(l) =>
          var key := s.procs[r].key;
          if key in s.table then Goto(s, r, Releasing(l, s.table[key])) else Goto(s, r, Crashed)
        case Releasing(l, kl) => ReleaseStep(s, r, l, kl)
        case Dropping(l, kl) => DropStep(s, r, kl)
        case Finished => s
        case Crashed => s
      }
  }

  /** `steps` can be taken one after the other from `s`. */
  predicate Runs(s: State, steps: seq<Step>)
    decreases |steps|
  {
    steps == [] || (Enabled(s, steps[0]) && Runs(Next(s, steps[0]), steps[1..]))
  }

  function After(s: State, steps: seq<Step>): State
    requires Runs(s, steps)
    decreases |steps|
  {
    if steps == [] then s else After(Next(s, steps[0]), steps[1..])
  }

  // ---- the lock table -------------------------------------------------------

  /** Between the increment and the decrement of the reference count. */
  predicate Counted(pc: PC) {
    pc.Waiting? || Inside(pc) || pc.Dropping?
  }

  /** Holding the inner mutex. */
  predicate Inside(pc: PC) {
    pc.Second? || pc.Running? || pc.Storing? || pc.Leaving? || pc.Releasing?
  }

  ghost function Users(procs: seq<Proc>, key: string): set<nat> {
    set r | 0 <= r < |procs| && procs[r].key == key && Counted(procs[r].pc)
  }

  ghost function Insiders(procs: seq<Proc>, key: string): set<nat> {
    set r | 0 <= r < |procs| && procs[r].key == key && Inside(procs[r].pc)
  }

  /** No goroutine has crashed, and unlock's lookup found the lock that lock took. */
  ghost predicate ProcOk(pc: PC) {
    && !pc.Crashed?
    && (pc.Releasing? || pc.Dropping? ==> pc.kl == pc.l)
  }

  /** A key has an entry iff some goroutine counts on it. The entry's count is the
      number of those goroutines, all of them use that very lock object, and its
      mutex is held iff one of them, and no more than one, is inside. */
  ghost predicate KeyOk(s: State, key: string) {
    var users, insiders := Users(s.procs, key), Insiders(s.procs, key);
    if key in s.table then
      && users != {}
      && s.table[key] < |s.heap|
      && s.heap[s.table[key]] == Lock(|users|, insiders != {})
      && |insiders| <= 1
      && forall r :: r in users ==> s.procs[r].pc.l == s.table[key]
    else
      users == {} == insiders
  }

  ghost predicate Injective(table: map<string, LockId>) {
    forall k, k' :: k in table && k' in table && table[k] == table[k'] ==> k == k'
  }

  /** A lock no entry points at is garbage: nobody counts on it or holds it. */
  ghost predicate Orphans(table: map<string, LockId>, heap: seq<Lock>) {
    forall l :: 0 <= l < |heap| && l !in table.Values ==> heap[l] == Lock(0, false)
  }

  ghost predicate LockInv(s: State) {
    && (forall r :: 0 <= r < |s.procs| ==> ProcOk(s.procs[r].pc))
    && (forall k :: KeyOk(s, k))
    && Injective(s.table)
    && Orphans(s.table, s.heap)
  }

  ghost function Toggle(users: set<nat>, r: nat, present: bool): set<nat> {
    if present then users + {r} else users - {r}
  }

  /** How one goroutine's move changes who counts on its key and who is inside. */
  lemma MoverSets(procs: seq<Proc>, r: nat, pc: PC)
    requires r < |procs|
    ensures var procs', key := procs[r := procs[r].(pc := pc)], procs[r].key;
            && Users(procs', key) == Toggle(Users(procs, key), r, Counted(pc))
            && Insiders(procs', key) == Toggle(Insiders(procs, key), r, Inside(pc))
  {
  }

  /** One goroutine's move leaves every other key as it was. */
  lemma OtherKeyOk(s: State, s': State, r: nat, pc: PC, k: string)
    requires r < |s.procs| && s'.procs == s.procs[r := s.procs[r].(pc := pc)]
    requires KeyOk(s, k) && k != s.procs[r].key
    requires k in s.table <==> k in s'.table
    requires k in s.table ==> s'.table[k] == s.table[k] < |s'.heap| && s'.heap[s.table[k]] == s.heap[s.table[k]]
    ensures KeyOk(s', k)
  {
    assert Users(s'.procs, k) == Users(s.procs, k);
    assert Insiders(s'.procs, k) == Insiders(s.procs, k);
  }

  /** A move that changes no lock but its own key's. */
  lemma MoveKeepsLockInv(s: State, s': State, r: nat, pc: PC)
    requires LockInv(s) && r < |s.procs| && s.procs[r].key in s.table
    requires s'.procs == s.procs[r := s.procs[r].(pc := pc)]
    requires s'.table == s.table && |s'.heap| == |s.heap|
    requires forall i :: 0 <= i < |s.heap| && i != s.table[s.procs[r].key] ==> s'.heap[i] == s.heap[i]
    requires ProcOk(pc) && KeyOk(s', s.procs[r].key)
    ensures LockInv(s')
  {
    var key := s.procs[r].key;
    forall k
      ensures KeyOk(s', k)
    {
      assert KeyOk(s, k);
      if k != key {
        OtherKeyOk(s, s', r, pc, k);
      }
    }
    assert s.table[key] in s.table.Values;
  }

  lemma LocalMoveKeepsLockInv(s: State, s': State, r: nat, pc: PC)
    requires LockInv(s) && r < |s.procs|
    requires s'.procs == s.procs[r := s.procs[r].(pc := pc)] && s'.table == s.table && s'.heap == s.heap
    requires Counted(s.procs[r].pc) == Counted(pc) && Inside(s.procs[r].pc) == Inside(pc)
    requires ProcOk(pc) && (Counted(pc) ==> pc.l == s.procs[r].pc.l)
    ensures LockInv(s')
  {
    forall k
      ensures KeyOk(s', k)
    {
      assert KeyOk(s, k);
      assert Users(s'.procs, k) == Users(s.procs, k);
      assert Insiders(s'.procs, k) == Insiders(s.procs, k);
    }
  }

  lemma ArriveKeepsLockInv(s: State, key: string)
    requires LockInv(s)
    ensures LockInv(Next(s, Arrive(key)))
  {
    var s' := Next(s, Arrive(key));
    forall k
      ensures KeyOk(s', k)
    {
      assert KeyOk(s, k);
      assert Users(s'.procs, k) == Users(s.procs, k);
      assert Insiders(s'.procs, k) == Insiders(s.procs, k);
    }
  }

  lemma EnteringSets(s: State, r: nat)
    requires r < |s.procs| && s.procs[r].pc == Entering && s.procs[r].key in s.table
    requires s.table[s.procs[r].key] < |s.heap|
    ensures var key, s' := s.procs[r].key, EnterStep(s, r);
            && r !in Users(s.procs, key) && Users(s'.procs, key) == Users(s.procs, key) + {r}
            && Insiders(s'.procs, key) == Insiders(s.procs, key)
            && s'.procs == s.procs[r := s.procs[r].(pc := Waiting(s.table[key]))]
  {
    var key := s.procs[r].key;
    MoverSets(s.procs, r, Waiting(s.table[key]));
    assert r !in Users(s.procs, key) && r !in Insiders(s.procs, key);
    assert Toggle(Insiders(s.procs, key), r, false) == Insiders(s.procs, key);
  }

  lemma EnteringUser(s: State, r: nat)
    requires r < |s.procs| && KeyOk(s, s.procs[r].key) && s.procs[r].pc == Entering
    requires s.procs[r].key in s.table
    ensures KeyOk(EnterStep(s, r), s.procs[r].key)
  {
    EnteringSets(s, r);
  }

  lemma EnterExistingKeepsLockInv(s: State, r: nat)
    requires LockInv(s) && r < |s.procs| && s.procs[r].pc == Entering
    requires s.procs[r].key in s.table
    ensures LockInv(EnterStep(s, r))
  {
    var key := s.procs[r].key;
    assert KeyOk(s, key);
    EnteringUser(s, r);
    MoveKeepsLockInv(s, EnterStep(s, r), r, Waiting(s.table[key]));
  }

  lemma EnterNewKeepsLockInv(s: State, r: nat)
    requires LockInv(s) && r < |s.procs| && s.procs[r].pc == Entering
    requires s.procs[r].key !in s.table
    ensures LockInv(EnterStep(s, r))
  {
    var key := s.procs[r].key;
    var s' := EnterStep(s, r);
    var l := |s.heap|;
    assert KeyOk(s, key);
    MoverSets(s.procs, r, Waiting(l));
    assert Users(s'.procs, key) == {r} && Insiders(s'.procs, key) == {};
    forall k
      ensures KeyOk(s', k)
    {
      assert KeyOk(s, k);
      if k != key {
        OtherKeyOk(s, s', r, Waiting(l), k);
      }
    }
    forall k | k in s.table
      ensures s.table[k] < l
    {
      assert KeyOk(s, k);
    }
    NewEntry(s.table, s.heap, key);
  }

  lemma NewEntry(table: map<string, LockId>, heap: seq<Lock>, key: string)
    requires Injective(table) && Orphans(table, heap) && key !in table
    requires forall k :: k in table ==> table[k] < |heap|
    ensures Injective(table[key := |heap|]) && Orphans(table[key := |heap|], heap + [Lock(1, false)])
  {
    var table' := table[key := |heap|];
    forall l | l in table.Values
      ensures l in table'.Values
    {
      var k :| k in table && table[k] == l;
      assert table'[k] == l;
    }
    assert table'[key] == |heap|;
  }

  lemma DeleteEntry(table: map<string, LockId>, heap: seq<Lock>, key: string)
    requires Injective(table) && Orphans(table, heap)
    requires key in table && table[key] < |heap|
    ensures Injective(table - {key}) && Orphans(table - {key}, heap[table[key] := Lock(0, false)])
  {
    var table' := table - {key};
    forall l | l in table.Values && l != table[key]
      ensures l in table'.Values
    {
      var k :| k in table && table[k] == l;
      assert table'[k] == l;
    }
  }

  /** Taking the free inner mutex: nobody with this key was inside. */
  lemma AcquireKeepsLockInv(s: State, r: nat, l: LockId)
    requires LockInv(s) && r < |s.procs| && s.procs[r].pc == Waiting(l)
    requires l < |s.heap| && !s.heap[l].held
    ensures LockInv(Goto(SetHeld(s, l, true), r, Second(l)))
  {
    var key := s.procs[r].key;
    assert KeyOk(s, key);
    assert r in Users(s.procs, key);
    MoverSets(s.procs, r, Second(l));
    assert Toggle(Users(s.procs, key), r, true) == Users(s.procs, key);
    assert Toggle(Insiders(s.procs, key), r, true) == {r};
    MoveKeepsLockInv(s, Goto(SetHeld(s, l, true), r, Second(l)), r, Second(l));
  }

  /** Releasing hits the very lock this goroutine took: it is held, and by nobody else. */
  lemma ReleaseKeepsLockInv(s: State, r: nat, l: LockId, kl: LockId)
    requires LockInv(s) && r < |s.procs| && s.procs[r].pc == Releasing(l, kl)
    ensures LockInv(ReleaseStep(s, r, l, kl))
  {
    var key := s.procs[r].key;
    assert KeyOk(s, key);
    assert r in Insiders(s.procs, key) && r in Users(s.procs, key);
    MoverSets(s.procs, r, Dropping(l, kl));
    assert Toggle(Users(s.procs, key), r, true) == Users(s.procs, key);
    assert |Insiders(s.procs, key) - {r}| == 0;
    MoveKeepsLockInv(s, ReleaseStep(s, r, l, kl), r, Dropping(l, kl));
  }

  lemma OneLess(users: set<nat>, r: nat)
    requires r in users
    ensures |users - {r}| == |users| - 1 && (|users| == 1 <==> users - {r} == {})
  {
    assert users == (users - {r}) + {r};
  }

  /** What dropping does to its own key: one user less. */
  lemma DropSets(s: State, r: nat, l: LockId, kl: LockId)
    requires r < |s.procs| && s.procs[r].pc == Dropping(l, kl) && kl == l && KeyOk(s, s.procs[r].key)
    ensures var key, s' := s.procs[r].key, DropStep(s, r, kl);
            && key in s.table && s.table[key] == kl < |s.heap|
            && s.heap[kl] == Lock(|Users(s.procs, key)|, Insiders(s.procs, key) != {})
            && s'.procs == s.procs[r := s.procs[r].(pc := Finished)]
            && s'.heap == s.heap[kl := s.heap[kl].(refs := |Users(s'.procs, key)|)]
            && s'.table == (if Users(s'.procs, key) == {} then s.table - {key} else s.table)
            && Users(s'.procs, key) == Users(s.procs, key) - {r} && Insiders(s'.procs, key) == Insiders(s.procs, key)
            && Insiders(s'.procs, key) <= Users(s'.procs, key)
  {
    var key := s.procs[r].key;
    var users := Users(s.procs, key);
    assert r in users && r !in Insiders(s.procs, key);
    MoverSets(s.procs, r, Finished);
    OneLess(users, r);
  }

  lemma DropLastKeepsLockInv(s: State, r: nat, l: LockId, kl: LockId)
    requires LockInv(s) && r < |s.procs| && s.procs[r].pc == Dropping(l, kl)
    requires Users(DropStep(s, r, kl).procs, s.procs[r].key) == {}
    ensures LockInv(DropStep(s, r, kl))
  {
    var key, s' := s.procs[r].key, DropStep(s, r, kl);
    assert KeyOk(s, key);
    DropSets(s, r, l, kl);
    DeleteEntry(s.table, s.heap, key);
    assert s'.heap == s.heap[kl := Lock(0, false)];
    forall k
      ensures KeyOk(s', k)
    {
      assert KeyOk(s, k);
      if k != key {
        OtherKeyOk(s, s', r, Finished, k);
      }
    }
  }

  /** Dropping a reference: the entry goes exactly when the last user leaves. */
  lemma DropKeepsLockInv(s: State, r: nat, l: LockId, kl: LockId)
    requires LockInv(s) && r < |s.procs| && s.procs[r].pc == Dropping(l, kl)
    ensures LockInv(DropStep(s, r, kl))
  {
    var key, s' := s.procs[r].key, DropStep(s, r, kl);
    assert KeyOk(s, key);
    DropSets(s, r, l, kl);
    if Users(s'.procs, key) == {} {
      DropLastKeepsLockInv(s, r, l, kl);
    } else {
      assert KeyOk(s, key);
      assert KeyOk(s', key);
      MoveKeepsLockInv(s, s', r, Finished);
    }
  }

  lemma StepKeepsLockInv(s: State, step: Step)
    requires LockInv(s) && Enabled(s, step)
    ensures LockInv(Next(s, step))
  {
    var s' := Next(s, step);
    match step
    case Arrive(key) => ArriveKeepsLockInv(s, key);
    case Tick(d) =>
      assert forall k :: KeyOk(s, k) ==> KeyOk(s', k);
    case Move(r, outcome) =>
      var key := s.procs[r].key;
      assert KeyOk(s, key);
      match s.procs[r].pc {
        case First => LocalMoveKeepsLockInv(s, s', r, s'.procs[r].pc);
        case Entering =>
          if key in s.table {
            EnterExistingKeepsLockInv(s, r);
          } else {
            EnterNewKeepsLockInv(s, r);
          }
        case Waiting(l) => AcquireKeepsLockInv(s, r, l);
        case Second(l) => LocalMoveKeepsLockInv(s, s', r, s'.procs[r].pc);
        case Running(l) => LocalMoveKeepsLockInv(s, s', r, s'.procs[r].pc);
        case Storing(l, rec) => LocalMoveKeepsLockInv(s, s', r, s'.procs[r].pc);
        case Leaving(l) =>
          assert r in Users(s.procs, key);
          LocalMoveKeepsLockInv(s, s', r, s'.procs[r].pc);
        case Releasing(l, kl) => ReleaseKeepsLockInv(s, r, l, kl);
        case Dropping(l, kl) => DropKeepsLockInv(s, r, l, kl);
      }
  }

  /** Mutual exclusion: two goroutines inside for one key are one goroutine. */
  lemma OneInside(s: State, q: nat, r: nat)
    requires LockInv(s)
    requires q < |s.procs| && r < |s.procs| && s.procs[q].key == s.procs[r].key
    requires Inside(s.procs[q].pc) && Inside(s.procs[r].pc)
    ensures q == r
  {
    var key := s.procs[q].key;
    assert KeyOk(s, key);
    var insiders := Insiders(s.procs, key);
    assert q in insiders && r in insiders;
    assert |insiders - {q}| == |insiders| - 1;
    assert r in insiders - {q} || r == q;
  }
}
