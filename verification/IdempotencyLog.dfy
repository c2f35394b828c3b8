/** What the event log of every run of the idempotency protocol says: when a handler
    may execute, what a replay returns, and what takes a stored response away. */
module IdempotencyLog {
  import opened Prelude
  import opened Coordination
  import opened IdempotencyProtocol

  /** The records a log of events leaves in the store. */
  ghost function MapOf(log: seq<Event>): map<string, Entry> {
    if log == [] then map[] else
      var m := MapOf(log[..|log| - 1]);
      match log[|log| - 1]
      case Stored(_, key, entry, evicted) => m[key := entry] - evicted
      case Lapsed(key, _) => m - {key}
      case _ => m
  }

  /** The event takes `key`'s record out of the store: eviction by the cap, or expiry. */
  ghost predicate Removes(e: Event, key: string) {
    (e.Stored? && key in e.evicted) || (e.Lapsed? && e.key == key)
  }

  ghost predicate Cacheable(o: Outcome) {
    o.Answered? && o.rec.status < 500
  }

  /** `m` is where the execution started at `i` returned. */
  ghost predicate EndedAt(log: seq<Event>, i: int, m: int) {
    && 0 <= i < m < |log| && log[i].Started?
    && log[m].Ended? && log[m].r == log[i].r && log[m].key == log[i].key
  }

  /** `n` is where the response returned at `m` was stored. */
  ghost predicate StoredAt(log: seq<Event>, m: int, n: int) {
    && 0 <= m < n < |log| && log[m].Ended? && log[m].outcome.Answered?
    && log[n].Stored? && log[n].r == log[m].r && log[n].key == log[m].key
    && log[n].entry.rec == log[m].outcome.rec
  }

  /** The execution started at `i` is over, and a cacheable response has been stored. */
  ghost predicate Completed(log: seq<Event>, i: int) {
    exists m :: EndedAt(log, i, m) && (Cacheable(log[m].outcome) ==> exists n :: StoredAt(log, m, n))
  }

  ghost predicate EventOk(prefix: seq<Event>, e: Event) {
    var m := MapOf(prefix);
    match e
    case Started(r, key) =>
      && key !in m
      && forall i :: 0 <= i < |prefix| && prefix[i].Started? && prefix[i].key == key ==> Completed(prefix, i)
    case Ended(_, _, _) => true
    case Stored(r, key, entry, _) =>
      entry.rec.status < 500 && Ended(r, key, Answered(entry.rec)) in prefix
    case Lapsed(key, at) => key in m && at > m[key].expires
    case Replayed(_, key, rec, at) => key in m && m[key].rec == rec && at <= m[key].expires
  }

  ghost predicate LogOk(log: seq<Event>) {
    forall j :: 0 <= j < |log| ==> EventOk(log[..j], log[j])
  }

  /** What the log says of the execution started at `i`, given where its goroutine now is. */
  ghost predicate Accounted(log: seq<Event>, i: nat, procs: seq<Proc>)
    requires i < |log| && log[i].Started?
  {
    var r := log[i].r;
    && r < |procs| && procs[r].key == log[i].key
    && (|| procs[r].pc.Running?
        || (procs[r].pc.Storing?
            && exists m :: EndedAt(log, i, m) && log[m].outcome == Answered(procs[r].pc.rec))
        || Completed(log, i))
  }

  ghost predicate StoringOk(log: seq<Event>, r: nat, p: Proc) {
    p.pc.Storing? ==> p.pc.rec.status < 500 && Ended(r, p.key, Answered(p.pc.rec)) in log
  }

  /** The log explains the store. */
  ghost predicate StoreInv(s: State) {
    && WellFormed(s.cache)
    && MapOf(s.log) == s.cache.m
    && LogOk(s.log)
  }

  /** The log explains where every execution is. */
  ghost predicate RunInv(log: seq<Event>, procs: seq<Proc>) {
    && (forall r :: 0 <= r < |procs| ==> StoringOk(log, r, procs[r]))
    && (forall i :: 0 <= i < |log| && log[i].Started? ==> Accounted(log, i, procs))
  }

  lemma AppendOk(log: seq<Event>, e: Event)
    requires LogOk(log) && EventOk(log, e)
    ensures LogOk(log + [e])
    ensures (log + [e])[..|log|] == log
  {
    var log' := log + [e];
    forall j | 0 <= j < |log'|
      ensures EventOk(log'[..j], log'[j])
    {
      assert log'[..j] == log[..j];
      assert log[..|log|] == log;
    }
  }

  lemma CompletedMonotone(log: seq<Event>, e: Event, i: int)
    requires Completed(log, i)
    ensures Completed(log + [e], i)
  {
    var log' := log + [e];
    var m :| EndedAt(log, i, m) && (Cacheable(log[m].outcome) ==> exists n :: StoredAt(log, m, n));
    assert EndedAt(log', i, m);
    if Cacheable(log[m].outcome) {
      var n :| StoredAt(log, m, n);
      assert StoredAt(log', m, n);
    }
  }

  /** An execution keeps its account when its goroutine stays put, or is past storing. */
  lemma AccountedMonotone(log: seq<Event>, e: Event, i: nat, procs: seq<Proc>, procs': seq<Proc>)
    requires i < |log| && log[i].Started? && Accounted(log, i, procs)
    requires log[i].r < |procs'| && procs'[log[i].r].key == procs[log[i].r].key
    requires Completed(log, i) || procs'[log[i].r].pc == procs[log[i].r].pc
    ensures Accounted(log + [e], i, procs')
  {
    if Completed(log, i) {
      CompletedMonotone(log, e, i);
    } else if procs[log[i].r].pc.Storing? {
      var m :| EndedAt(log, i, m) && log[m].outcome == Answered(procs[log[i].r].pc.rec);
      assert EndedAt(log + [e], i, m);
    }
  }

  /** A goroutine that is not running or storing moves, or one arrives; nothing is logged. */
  lemma QuietKeepsRunInv(log: seq<Event>, procs: seq<Proc>, procs': seq<Proc>)
    requires RunInv(log, procs) && |procs| <= |procs'|
    requires forall r :: 0 <= r < |procs| ==>
      && procs'[r].key == procs[r].key
      && (procs[r].pc.Running? || procs[r].pc.Storing? ==> procs'[r] == procs[r])
    requires forall r :: 0 <= r < |procs'| && procs'[r].pc.Storing? ==> r < |procs| && procs'[r] == procs[r]
    ensures RunInv(log, procs')
  {
    forall r | 0 <= r < |procs'|
      ensures StoringOk(log, r, procs'[r])
    {
      if procs'[r].pc.Storing? {
        assert StoringOk(log, r, procs[r]);
      }
    }
    forall i | 0 <= i < |log| && log[i].Started?
      ensures Accounted(log, i, procs')
    {
      assert Accounted(log, i, procs);
    }
  }

  lemma LogKeepsRunInv(log: seq<Event>, procs: seq<Proc>, e: Event)
    requires RunInv(log, procs)
    requires e.Started? ==> Accounted(log + [e], |log|, procs)
    ensures RunInv(log + [e], procs)
  {
    var log' := log + [e];
    forall r | 0 <= r < |procs|
      ensures StoringOk(log', r, procs[r])
    {
      assert StoringOk(log, r, procs[r]);
    }
    forall i | 0 <= i < |log'| && log'[i].Started?
      ensures Accounted(log', i, procs)
    {
      if i < |log| {
        assert Accounted(log, i, procs);
        AccountedMonotone(log, e, i, procs, procs);
      }
    }
  }

  /** A lookup logs at most one thing, and not the start of an execution. */
  lemma GetLogs(s: State, r: nat, hit: PC, miss: PC) returns (es: seq<Event>)
    requires r < |s.procs|
    ensures var t := GetStep(s, r, hit, miss);
            && t.log == s.log + es && |es| <= 1
            && (es != [] ==> es[0] in {Lapsed(s.procs[r].key, s.now)} || (es[0].Replayed? && t.cache == s.cache))
            && (t.procs == s.procs[r := s.procs[r].(pc := hit)] || t.procs == s.procs[r := s.procs[r].(pc := miss)])
  {
    var key := s.procs[r].key;
    match Lookup(s.cache, key, s.now)
    case Some(rec) => es := [Replayed(r, key, rec, s.now)];
    case None => es := if Expired(s.cache, key, s.now) then [Lapsed(key, s.now)] else [];
  }

  lemma GetKeepsStoreInv(s: State, r: nat, hit: PC, miss: PC)
    requires StoreInv(s) && r < |s.procs|
    ensures StoreInv(GetStep(s, r, hit, miss))
    ensures Lookup(s.cache, s.procs[r].key, s.now) == None ==>
              s.procs[r].key !in GetStep(s, r, hit, miss).cache.m
  {
    var key := s.procs[r].key;
    match Lookup(s.cache, key, s.now)
    case Some(rec) => AppendOk(s.log, Replayed(r, key, rec, s.now));
    case None =>
      if Expired(s.cache, key, s.now) {
        AppendOk(s.log, Lapsed(key, s.now));
      } else {
        assert s.log + [] == s.log;
      }
  }

  lemma GetKeepsRunInv(s: State, r: nat, hit: PC, miss: PC)
    requires RunInv(s.log, s.procs) && r < |s.procs|
    requires !s.procs[r].pc.Running? && !s.procs[r].pc.Storing? && !hit.Storing? && !miss.Storing?
    ensures var t := GetStep(s, r, hit, miss); RunInv(t.log, t.procs)
  {
    var es := GetLogs(s, r, hit, miss);
    var procs := GetStep(s, r, hit, miss).procs;
    QuietKeepsRunInv(s.log, s.procs, procs);
    LogAllKeepsRunInv(s.log, procs, es);
  }

  lemma LogAllKeepsRunInv(log: seq<Event>, procs: seq<Proc>, es: seq<Event>)
    requires RunInv(log, procs) && |es| <= 1 && (es != [] ==> !es[0].Started?)
    ensures RunInv(log + es, procs)
  {
    if es == [] {
      assert log + es == log;
    } else {
      assert es == [es[0]];
      LogKeepsRunInv(log, procs, es[0]);
    }
  }

  /** Whoever is inside finds every earlier execution for its key over. */
  lemma EarlierRunsCompleted(s: State, r: nat, i: nat)
    requires LockInv(s) && RunInv(s.log, s.procs) && r < |s.procs| && s.procs[r].pc.Second?
    requires i < |s.log| && s.log[i].Started? && s.log[i].key == s.procs[r].key
    ensures Completed(s.log, i)
  {
    assert Accounted(s.log, i, s.procs);
    if Inside(s.procs[s.log[i].r].pc) {
      OneInside(s, r, s.log[i].r);
    }
  }

  /** The handler starts only when the record is gone and earlier executions are over. */
  lemma SecondKeepsInv(s: State, r: nat, l: LockId)
    requires StoreInv(s) && RunInv(s.log, s.procs) && LockInv(s)
    requires r < |s.procs| && s.procs[r].pc == Second(l)
    ensures var t := SecondStep(s, r, l); StoreInv(t) && RunInv(t.log, t.procs)
  {
    var key := s.procs[r].key;
    GetKeepsStoreInv(s, r, Leaving(l), Running(l));
    GetKeepsRunInv(s, r, Leaving(l), Running(l));
    var t := GetStep(s, r, Leaving(l), Running(l));
    if t.procs[r].pc.Running? {
      forall i | 0 <= i < |t.log| && t.log[i].Started? && t.log[i].key == key
        ensures Completed(t.log, i)
      {
        EarlierRunsCompleted(s, r, i);
        if Expired(s.cache, key, s.now) {
          CompletedMonotone(s.log, Lapsed(key, s.now), i);
        } else {
          assert t.log == s.log;
        }
      }
      AppendOk(t.log, Started(r, key));
      LogKeepsRunInv(t.log, t.procs, Started(r, key));
    }
  }

  lemma EndKeepsInv(s: State, r: nat, l: LockId, outcome: Outcome)
    requires StoreInv(s) && RunInv(s.log, s.procs)
    requires r < |s.procs| && s.procs[r].pc == Running(l)
    ensures var t := EndStep(s, r, l, outcome); StoreInv(t) && RunInv(t.log, t.procs)
  {
    var t := EndStep(s, r, l, outcome);
    var e := Ended(r, s.procs[r].key, outcome);
    AppendOk(s.log, e);
    forall q | 0 <= q < |t.procs|
      ensures StoringOk(t.log, q, t.procs[q])
    {
      assert StoringOk(s.log, q, s.procs[q]);
    }
    forall i | 0 <= i < |t.log| && t.log[i].Started?
      ensures Accounted(t.log, i, t.procs)
    {
      assert Accounted(s.log, i, s.procs);
      if s.log[i].r == r {
        assert EndedAt(t.log, i, |s.log|);
      } else {
        AccountedMonotone(s.log, e, i, s.procs, t.procs);
      }
    }
  }

  lemma MapOfStored(log: seq<Event>, e: Event)
    requires e.Stored?
    ensures MapOf(log + [e]) == MapOf(log)[e.key := e.entry] - e.evicted
  {
    assert (log + [e])[..|log|] == log;
  }

  /** What storing a response does to the cache and the log. */
  lemma StoreDoes(s: State, r: nat, l: LockId, rec: Record)
    requires r < |s.procs| && s.procs[r].pc == Storing(l, rec) && WellFormed(s.cache)
    ensures var t, key, entry := StoreStep(s, r, l, rec), s.procs[r].key, Entry(rec, s.now + s.cache.ttl);
            && WellFormed(t.cache) && t.log == s.log + [Stored(r, key, entry, Evicted(s.cache, key))]
            && t.cache.m == s.cache.m[key := entry] - Evicted(s.cache, key)
            && t.procs == s.procs[r := s.procs[r].(pc := Leaving(l))]
  {
    PutKeepsWellFormed(s.cache, s.procs[r].key, rec, s.now);
  }

  lemma PutKeepsStoreInv(s: State, r: nat, l: LockId, rec: Record)
    requires StoreInv(s) && r < |s.procs| && s.procs[r].pc == Storing(l, rec)
    requires StoringOk(s.log, r, s.procs[r])
    ensures StoreInv(StoreStep(s, r, l, rec))
  {
    var key := s.procs[r].key;
    var e := Stored(r, key, Entry(rec, s.now + s.cache.ttl), Evicted(s.cache, key));
    StoreDoes(s, r, l, rec);
    AppendOk(s.log, e);
    MapOfStored(s.log, e);
  }

  lemma PutKeepsRunInv(log: seq<Event>, procs: seq<Proc>, r: nat, e: Event, pc: PC)
    requires RunInv(log, procs) && r < |procs| && procs[r].pc.Storing? && !pc.Storing?
    requires e.Stored? && e.r == r && e.key == procs[r].key && e.entry.rec == procs[r].pc.rec
    ensures RunInv(log + [e], procs[r := procs[r].(pc := pc)])
  {
    var log', procs' := log + [e], procs[r := procs[r].(pc := pc)];
    forall q | 0 <= q < |procs'|
      ensures StoringOk(log', q, procs'[q])
    {
      assert StoringOk(log, q, procs[q]);
    }
    forall i | 0 <= i < |log'| && log'[i].Started?
      ensures Accounted(log', i, procs')
    {
      assert Accounted(log, i, procs);
      if log[i].r == r && !Completed(log, i) {
        var m :| EndedAt(log, i, m) && log[m].outcome == Answered(procs[r].pc.rec);
        assert EndedAt(log', i, m) && StoredAt(log', m, |log|);
      } else {
        AccountedMonotone(log, e, i, procs, procs');
      }
    }
  }

  lemma StoreKeepsRunInv(s: State, r: nat, l: LockId, rec: Record)
    requires RunInv(s.log, s.procs) && r < |s.procs| && s.procs[r].pc == Storing(l, rec)
    ensures var t := StoreStep(s, r, l, rec); RunInv(t.log, t.procs)
  {
    var e := Stored(r, s.procs[r].key, Entry(rec, s.now + s.cache.ttl), Evicted(s.cache, s.procs[r].key));
    PutKeepsRunInv(s.log, s.procs, r, e, Leaving(l));
  }

  lemma StepKeepsStoreInv(s: State, step: Step)
    requires LockInv(s) && StoreInv(s) && RunInv(s.log, s.procs) && Enabled(s, step)
    requires step.Move? ==> var pc := s.procs[step.r].pc; !pc.Second? && !pc.Running?
    ensures StoreInv(Next(s, step))
  {
    match step
    case Arrive(key) =>
    case Tick(d) =>
    case Move(r, outcome) =>
      match s.procs[r].pc {
        case First => GetKeepsStoreInv(s, r, Finished, Entering);
        case Storing(l, rec) =>
          assert StoringOk(s.log, r, s.procs[r]);
          PutKeepsStoreInv(s, r, l, rec);
        case _ =>
      }
  }

  /** The moves of the lock table and of a goroutine that is done log nothing. */
  lemma QuietMove(s: State, r: nat, outcome: Outcome)
    requires Enabled(s, Move(r, outcome))
    requires var pc := s.procs[r].pc; !pc.First? && !pc.Second? && !pc.Running? && !pc.Storing?
    ensures var t := Next(s, Move(r, outcome));
            && t.log == s.log && |t.procs| == |s.procs| && t.procs == s.procs[r := t.procs[r]]
            && t.procs[r].key == s.procs[r].key && !t.procs[r].pc.Storing?
  {
  }

  lemma StepKeepsRunInv(s: State, step: Step)
    requires RunInv(s.log, s.procs) && Enabled(s, step)
    requires step.Move? ==> var pc := s.procs[step.r].pc; !pc.Second? && !pc.Running?
    ensures var t := Next(s, step); RunInv(t.log, t.procs)
  {
    var t := Next(s, step);
    match step
    case Arrive(key) => QuietKeepsRunInv(s.log, s.procs, t.procs);
    case Tick(d) =>
    case Move(r, outcome) => MoveKeepsRunInv(s, r, outcome);
  }

  lemma MoveKeepsRunInv(s: State, r: nat, outcome: Outcome)
    requires RunInv(s.log, s.procs) && Enabled(s, Move(r, outcome))
    requires !s.procs[r].pc.Second? && !s.procs[r].pc.Running?
    ensures var t := Next(s, Move(r, outcome)); RunInv(t.log, t.procs)
  {
    var pc, t := s.procs[r].pc, Next(s, Move(r, outcome));
    if pc.First? {
      GetKeepsRunInv(s, r, Finished, Entering);
    } else if pc.Storing? {
      StoreKeepsRunInv(s, r, pc.l, pc.rec);
    } else {
      QuietMove(s, r, outcome);
      QuietKeepsRunInv(s.log, s.procs, t.procs);
    }
  }

  lemma StepKeepsLogInv(s: State, step: Step)
    requires LockInv(s) && StoreInv(s) && RunInv(s.log, s.procs) && Enabled(s, step)
    ensures var t := Next(s, step); StoreInv(t) && RunInv(t.log, t.procs)
  {
    if step.Move? && s.procs[step.r].pc.Second? {
      SecondKeepsInv(s, step.r, s.procs[step.r].pc.l);
    } else if step.Move? && s.procs[step.r].pc.Running? {
      EndKeepsInv(s, step.r, s.procs[step.r].pc.l, step.outcome);
    } else {
      StepKeepsStoreInv(s, step);
      StepKeepsRunInv(s, step);
    }
  }

  // ---- every run --------------------------------------------------------------

  ghost predicate Inv(s: State) {
    LockInv(s) && StoreInv(s) && RunInv(s.log, s.procs)
  }

  lemma {:induction false} RunKeepsInv(s: State, steps: seq<Step>)
    requires Inv(s) && Runs(s, steps)
    ensures Inv(After(s, steps))
    ensures After(s, steps).cache.max == s.cache.max
    decreases |steps|
  {
    if steps != [] {
      StepKeepsLockInv(s, steps[0]);
      StepKeepsLogInv(s, steps[0]);
      RunKeepsInv(Next(s, steps[0]), steps[1..]);
    }
  }

  lemma Reachable(ttl: int, max: nat, steps: seq<Step>)
    requires Runs(Init(ttl, max), steps)
    ensures Inv(After(Init(ttl, max), steps))
    ensures After(Init(ttl, max), steps).cache.max == max
  {
    var s := Init(ttl, max);
    assert forall k :: Users(s.procs, k) == {} == Insiders(s.procs, k);
    RunKeepsInv(s, steps);
  }

  /** The lock table, in every reachable state. For each key: an entry exists iff
      somebody counts on it, its count is the number of those goroutines, they all
      share its lock object, and no more than one is inside. No goroutine ever
      crashes on a missing or unheld lock, and unlock finds the lock that lock took. */
  lemma LockTableIsSafe(ttl: int, max: nat, steps: seq<Step>, key: string)
    requires Runs(Init(ttl, max), steps)
    ensures var s := After(Init(ttl, max), steps);
            var users := Users(s.procs, key);
            && (key in s.table <==> users != {})
            && (key in s.table ==> s.table[key] < |s.heap| && s.heap[s.table[key]].refs == |users|)
            && (forall q, r :: q in users && r in users ==> s.procs[q].pc.l == s.procs[r].pc.l)
            && (forall q, r :: q in Insiders(s.procs, key) && r in Insiders(s.procs, key) ==> q == r)
            && (forall r :: 0 <= r < |s.procs| ==> ProcOk(s.procs[r].pc))
  {
    Reachable(ttl, max, steps);
    var s := After(Init(ttl, max), steps);
    assert KeyOk(s, key);
    forall q, r | q in Insiders(s.procs, key) && r in Insiders(s.procs, key)
      ensures q == r
    {
      OneInside(s, q, r);
    }
  }

  /** Once every request is finished the lock table is empty. */
  lemma QuiescentTableIsEmpty(ttl: int, max: nat, steps: seq<Step>)
    requires Runs(Init(ttl, max), steps)
    requires forall r :: 0 <= r < |After(Init(ttl, max), steps).procs| ==>
               After(Init(ttl, max), steps).procs[r].pc == Finished
    ensures After(Init(ttl, max), steps).table == map[]
  {
    Reachable(ttl, max, steps);
    var s := After(Init(ttl, max), steps);
    forall k
      ensures k !in s.table
    {
      assert KeyOk(s, k);
    }
  }

  function Remaining(pc: PC): nat {
    match pc
    case First => 9
    case Entering => 8
    case Waiting(_) => 7
    case Second(_) => 6
    case Running(_) => 5
    case Storing(_, _) => 4
    case Leaving(_) => 3
    case Releasing(_, _) => 2
    case Dropping(_, _) => 1
    case Finished => 0
    case Crashed => 0
  }

  /** A move brings the mover closer to its end and leaves every other goroutine put. */
  lemma MovesAdvance(s: State, q: nat, outcome: Outcome)
    requires Enabled(s, Move(q, outcome))
    ensures var t := Next(s, Move(q, outcome));
            && |t.procs| == |s.procs|
            && Remaining(t.procs[q].pc) < Remaining(s.procs[q].pc)
            && forall p :: 0 <= p < |s.procs| && p != q ==> t.procs[p] == s.procs[p]
  {
    match s.procs[q].pc
    case First =>
    case Entering =>
    case Waiting(_) =>
    case Second(_) =>
    case Running(_) =>
    case Storing(_, _) =>
    case Leaving(_) =>
    case Releasing(_, _) =>
    case Dropping(_, _) =>
    case Finished =>
  }

  /** No deadlock: while a request is unfinished, some request with its key can move. */
  lemma NoDeadlock(ttl: int, max: nat, steps: seq<Step>, r: nat, outcome: Outcome)
    requires Runs(Init(ttl, max), steps)
    requires var s := After(Init(ttl, max), steps); r < |s.procs| && s.procs[r].pc != Finished
    ensures var s := After(Init(ttl, max), steps);
            exists q :: 0 <= q < |s.procs| && s.procs[q].key == s.procs[r].key && Enabled(s, Move(q, outcome))
  {
    Reachable(ttl, max, steps);
    var s := After(Init(ttl, max), steps);
    var key := s.procs[r].key;
    assert KeyOk(s, key) && ProcOk(s.procs[r].pc);
    if s.procs[r].pc.Waiting? && !Enabled(s, Move(r, outcome)) {
      assert r in Users(s.procs, key);
      var q :| q in Insiders(s.procs, key);
      assert Enabled(s, Move(q, outcome));
    } else {
      assert Enabled(s, Move(r, outcome));
    }
  }

  /** The store never holds more than `max` records. */
  lemma StoreIsBounded(ttl: int, max: nat, steps: seq<Step>)
    requires Runs(Init(ttl, max), steps)
    ensures |After(Init(ttl, max), steps).cache.m| <= max
  {
    Reachable(ttl, max, steps);
    CapIsHard(After(Init(ttl, max), steps).cache);
  }

  /** If a record was put at `i` and the store lacks it at `j`, an event in between removed it. */
  lemma {:induction false} AbsentMeansRemoved(log: seq<Event>, i: nat, j: nat)
    requires i < j <= |log| && log[i].Stored? && log[i].key !in MapOf(log[..j])
    ensures exists m :: i <= m < j && Removes(log[m], log[i].key)
  {
    assert log[..j][..j - 1] == log[..j - 1];
    if !Removes(log[j - 1], log[i].key) {
      AbsentMeansRemoved(log, i, j - 1);
    }
  }

  /** A record in the store was put there by some event, and nothing touched the key since. */
  lemma {:induction false} PresentMeansStored(log: seq<Event>, j: nat, key: string) returns (i: nat)
    requires j <= |log| && key in MapOf(log[..j])
    ensures i < j && log[i].Stored? && log[i].key == key && log[i].entry == MapOf(log[..j])[key]
    ensures !Removes(log[i], key)
    ensures forall m :: i < m < j ==> !Removes(log[m], key) && !(log[m].Stored? && log[m].key == key)
  {
    assert log[..j][..j - 1] == log[..j - 1];
    var e := log[j - 1];
    if e.Stored? && e.key == key {
      i := j - 1;
    } else {
      i := PresentMeansStored(log, j - 1, key);
    }
  }

  /** At most once. When a handler starts for a key at `j`, every execution for that key
      that started earlier, at `i`, has returned; and if it returned a cacheable response,
      that response was stored and has since been taken out, by expiry or by the cap. */
  lemma AtMostOnce(ttl: int, max: nat, steps: seq<Step>, i: nat, j: nat)
    requires Runs(Init(ttl, max), steps)
    requires var log := After(Init(ttl, max), steps).log;
             i < j < |log| && log[i].Started? && log[j].Started? && log[i].key == log[j].key
    ensures var log := After(Init(ttl, max), steps).log;
            exists m :: m < j && EndedAt(log, i, m) &&
              (Cacheable(log[m].outcome) ==>
                exists n, x :: StoredAt(log, m, n) && n <= x < j && Removes(log[x], log[i].key))
  {
    Reachable(ttl, max, steps);
    var log := After(Init(ttl, max), steps).log;
    var prefix := log[..j];
    assert EventOk(prefix, log[j]) && prefix[i] == log[i];
    var m :| EndedAt(prefix, i, m) && (Cacheable(prefix[m].outcome) ==> exists n :: StoredAt(prefix, m, n));
    assert EndedAt(log, i, m);
    if Cacheable(log[m].outcome) {
      var n :| StoredAt(prefix, m, n);
      assert StoredAt(log, m, n);
      AbsentMeansRemoved(log, n, j);
      var x :| n <= x < j && Removes(log[x], log[i].key);
    }
  }

  /** A record that is taken out by expiry was past its deadline when that happened. */
  lemma LapseIsExpiry(ttl: int, max: nat, steps: seq<Step>, j: nat)
    requires Runs(Init(ttl, max), steps)
    requires var log := After(Init(ttl, max), steps).log; j < |log| && log[j].Lapsed?
    ensures var log := After(Init(ttl, max), steps).log;
            exists i :: 0 <= i < j && log[i].Stored? && log[i].key == log[j].key
              && log[j].at > log[i].entry.expires
              && forall m :: i < m < j ==> !(log[m].Stored? && log[m].key == log[j].key)
  {
    Reachable(ttl, max, steps);
    var log := After(Init(ttl, max), steps).log;
    assert EventOk(log[..j], log[j]);
    var i := PresentMeansStored(log, j, log[j].key);
  }

  /** A replay returns, unchanged, what some execution for the key answered: the most
      recent response stored for it, unexpired, with status below 500. */
  lemma ReplayIsLatestResponse(ttl: int, max: nat, steps: seq<Step>, j: nat)
    requires Runs(Init(ttl, max), steps)
    requires var log := After(Init(ttl, max), steps).log; j < |log| && log[j].Replayed?
    ensures var log := After(Init(ttl, max), steps).log;
            exists i :: 0 <= i < j && log[i].Stored? && log[i].key == log[j].key
              && log[i].entry.rec == log[j].rec && log[j].at <= log[i].entry.expires
              && log[j].rec.status < 500
              && Ended(log[i].r, log[j].key, Answered(log[j].rec)) in log[..i]
              && forall m :: i < m < j ==>
                   !Removes(log[m], log[j].key) && !(log[m].Stored? && log[m].key == log[j].key)
  {
    Reachable(ttl, max, steps);
    var log := After(Init(ttl, max), steps).log;
    assert EventOk(log[..j], log[j]);
    var i := PresentMeansStored(log, j, log[j].key);
    assert EventOk(log[..i], log[i]);
  }
}
