/** Concurrent lifecycle calls saving the key set: two locks, one step per critical section.
    A call changes the keys under the inner lock, then takes the persist lock, exports the
    keys (again under the inner lock), hands them to the sink and lets go. */
module PersistOrder {
  import opened Prelude
  import opened LocalKeys
  import opened KeyLifecycle

  /** Where a call is; `v` numbers the mutation it made. A call not listed is not running. */
  datatype PC =
    | Pending(v: nat)
    | Holding(v: nat)
    | Taken(v: nat, taken: nat, snapshot: seq<Persisted>)
    | Sunk(v: nat)

  /** What the sink was given: the snapshot, its number, and whether saving went through. */
  datatype Attempt = Attempt(version: nat, saved: seq<Persisted>, ok: bool)

  /** `hist[v]` is the key set after `v` mutations; the last is what is in memory. */
  datatype State = State(hist: seq<Keys>, calls: map<nat, PC>, lock: Option<nat>, attempts: seq<Attempt>, returned: set<nat>)

  function Version(s: State): int {
    |s.hist| - 1
  }

  function Memory(s: State): Keys
    requires s.hist != []
  {
    s.hist[|s.hist| - 1]
  }

  /** The number of the last snapshot handed over; 0 when there was none. */
  function Last(attempts: seq<Attempt>): nat {
    if attempts == [] then 0 else attempts[|attempts| - 1].version
  }

  predicate Succeeds(ks: Keys, op: Op) {
    match op
    case Announce(alg, _, _, _) => Supported(AlgOrDefault(alg))
    case PromoteKey(kid, _) => FindKID(ks, kid).Some?
    case RetireKey(kid, _) => FindKID(ks, kid).Some?
    case _ => false
  }

  // ---- the steps ------------------------------------------------------------------------------

  datatype Move = Mutate(op: Op) | Acquire | Export | Save(ok: bool) | Release

  ghost predicate Step(s: State, t: nat, m: Move, s': State)
    requires s.hist != []
  {
    match m
    case Mutate(op) =>
      && t !in s.calls && Succeeds(Memory(s), op) && Fresh(Memory(s), op)
      && s' == s.(hist := s.hist + [Apply(Memory(s), op)], calls := s.calls[t := Pending(|s.hist|)])
    case Acquire =>
      && t in s.calls && s.calls[t].Pending? && s.lock.None?
      && s' == s.(calls := s.calls[t := Holding(s.calls[t].v)], lock := Some(t))
    case Export =>
      && t in s.calls && s.calls[t].Holding?
      && s' == s.(calls := s.calls[t := Taken(s.calls[t].v, Version(s), Exported(Memory(s)))])
    case Save(ok) =>
      && t in s.calls && s.calls[t].Taken?
      && s' == s.(calls := s.calls[t := Sunk(s.calls[t].v)],
                  attempts := s.attempts + [Attempt(s.calls[t].taken, s.calls[t].snapshot, ok)])
    case Release =>
      && t in s.calls && s.calls[t].Sunk?
      && s' == s.(calls := s.calls - {t}, lock := None, returned := s.returned + {s.calls[t].v})
  }

  // ---- the invariant --------------------------------------------------------------------------

  ghost predicate KeysOk(hist: seq<Keys>) {
    hist != [] && forall v :: 0 <= v < |hist| ==> UniqueKIDs(hist[v]) && WellFormed(hist[v])
  }

  /** The persist lock is held by the one call between taking and releasing it. */
  ghost predicate LockOk(s: State) {
    forall t :: t in s.calls && !s.calls[t].Pending? <==> s.lock == Some(t)
  }

  ghost predicate AttemptsOk(hist: seq<Keys>, attempts: seq<Attempt>) {
    && (forall i :: 0 <= i < |attempts| ==>
          attempts[i].version < |hist| && attempts[i].saved == Exported(hist[attempts[i].version]))
    && forall i, j :: 0 <= i < j < |attempts| ==> attempts[i].version <= attempts[j].version
  }

  /** A call's snapshot includes its own mutation and is no older than any saved one. */
  ghost predicate CallOk(hist: seq<Keys>, last: nat, pc: PC) {
    && 1 <= pc.v < |hist|
    && (pc.Taken? ==> pc.v <= pc.taken < |hist| && last <= pc.taken && pc.snapshot == Exported(hist[pc.taken]))
    && (pc.Sunk? ==> pc.v <= last)
  }

  ghost predicate CallsOk(s: State) {
    forall t :: t in s.calls ==> CallOk(s.hist, Last(s.attempts), s.calls[t])
  }

  ghost predicate Owes(s: State, t: nat, v: nat) {
    t in s.calls && !s.calls[t].Sunk? && s.calls[t].v == v
  }

  ghost predicate Owed(s: State, v: nat) {
    exists t :: Owes(s, t, v)
  }

  /** Every mutation newer than the last snapshot is owed by the call that made it. */
  ghost predicate CoverOk(s: State) {
    forall v :: Last(s.attempts) < v < |s.hist| ==> Owed(s, v)
  }

  ghost predicate ReturnedOk(s: State) {
    forall v :: v in s.returned ==> v <= Last(s.attempts)
  }

  ghost predicate Inv(s: State) {
    KeysOk(s.hist) && LockOk(s) && AttemptsOk(s.hist, s.attempts) && CallsOk(s) && CoverOk(s) && ReturnedOk(s)
      && Last(s.attempts) < |s.hist|
  }

  /** The hook has just been set on a key set with keys `ks`. */
  ghost predicate Init(s: State, ks: Keys) {
    s == State([ks], map[], None, [], {})
  }

  lemma InitHolds(s: State, ks: Keys)
    requires Init(s, ks) && UniqueKIDs(ks) && WellFormed(ks)
    ensures Inv(s)
  {
  }

  lemma MutationKeepsKeys(ks: Keys, op: Op)
    requires UniqueKIDs(ks) && WellFormed(ks) && Fresh(ks, op)
    ensures UniqueKIDs(Apply(ks, op)) && WellFormed(Apply(ks, op))
  {
    ApplyKeepsUnique(ks, op);
    assert [op][..0] == [];
    assert Run(ks, [op][..0]) == ks;
    RunKeepsForm(ks, [op]);
  }

  lemma StepKeepsKeys(s: State, t: nat, m: Move, s': State)
    requires Inv(s) && Step(s, t, m, s')
    ensures KeysOk(s'.hist)
  {
    if m.Mutate? {
      MutationKeepsKeys(Memory(s), m.op);
    }
  }

  lemma StepKeepsLock(s: State, t: nat, m: Move, s': State)
    requires Inv(s) && Step(s, t, m, s')
    ensures LockOk(s')
  {
    match m
    case Mutate(_) => assert s.lock != Some(t);
    case Acquire =>
    case Export =>
    case Save(_) =>
    case Release =>
      forall u | u in s'.calls
        ensures s'.calls[u].Pending?
      {
        assert s.lock == Some(t);
      }
  }

  lemma StepKeepsAttempts(s: State, t: nat, m: Move, s': State)
    requires Inv(s) && Step(s, t, m, s')
    ensures AttemptsOk(s'.hist, s'.attempts) && Last(s.attempts) <= Last(s'.attempts) < |s'.hist|
  {
    if m.Save? {
      assert CallOk(s.hist, Last(s.attempts), s.calls[t]);
      forall i | 0 <= i < |s.attempts|
        ensures s.attempts[i].version <= Last(s.attempts)
      {
        assert i < |s.attempts| - 1 ==> s.attempts[i].version <= s.attempts[|s.attempts| - 1].version;
      }
    }
  }

  lemma StepKeepsCalls(s: State, t: nat, m: Move, s': State)
    requires Inv(s) && Step(s, t, m, s')
    ensures CallsOk(s')
  {
    forall u | u in s'.calls
      ensures CallOk(s'.hist, Last(s'.attempts), s'.calls[u])
    {
      if u in s.calls {
        assert CallOk(s.hist, Last(s.attempts), s.calls[u]);
        if m.Save? && u != t {
          // Only the holder of the lock has a snapshot in hand.
          assert s.lock == Some(t);
          assert CallOk(s.hist, Last(s.attempts), s.calls[t]);
        }
      }
    }
  }

  lemma StepKeepsCover(s: State, t: nat, m: Move, s': State)
    requires Inv(s) && Step(s, t, m, s')
    ensures CoverOk(s')
  {
    forall v: nat | Last(s'.attempts) < v < |s'.hist|
      ensures Owed(s', v)
    {
      if m.Mutate? && v == |s.hist| {
        assert Owes(s', t, v);
      } else {
        if m.Save? {
          assert CallOk(s.hist, Last(s.attempts), s.calls[t]);
        }
        assert Owed(s, v);
        var u :| Owes(s, u, v);
        assert Owes(s', u, v);
      }
    }
  }

  lemma StepKeepsReturned(s: State, t: nat, m: Move, s': State)
    requires Inv(s) && Step(s, t, m, s')
    ensures ReturnedOk(s')
  {
    if m.Release? {
      assert CallOk(s.hist, Last(s.attempts), s.calls[t]);
    } else if m.Save? {
      StepKeepsAttempts(s, t, m, s');
    }
  }

  lemma StepKeepsInv(s: State, t: nat, m: Move, s': State)
    requires Inv(s) && Step(s, t, m, s')
    ensures Inv(s')
  {
    StepKeepsKeys(s, t, m, s');
    StepKeepsLock(s, t, m, s');
    StepKeepsAttempts(s, t, m, s');
    StepKeepsCalls(s, t, m, s');
    StepKeepsCover(s, t, m, s');
    StepKeepsReturned(s, t, m, s');
  }

  // ---- runs -------------------------------------------------------------------------------------

  datatype Event = Event(call: nat, move: Move)

  ghost predicate IsRun(ks: Keys, events: seq<Event>, states: seq<State>) {
    && |states| == |events| + 1 && Init(states[0], ks)
    && (forall n :: 0 <= n < |states| ==> states[n].hist != [])
    && forall n :: 0 <= n < |events| ==> Step(states[n], events[n].call, events[n].move, states[n + 1])
  }

  lemma {:induction false} RunKeepsInv(ks: Keys, events: seq<Event>, states: seq<State>, n: nat)
    requires IsRun(ks, events, states) && UniqueKIDs(ks) && WellFormed(ks) && n < |states|
    ensures Inv(states[n])
  {
    if n == 0 {
      InitHolds(states[0], ks);
    } else {
      RunKeepsInv(ks, events, states, n - 1);
      StepKeepsInv(states[n - 1], events[n - 1].call, events[n - 1].move, states[n]);
    }
  }

  /** In every interleaving the sink sees snapshots in mutation order, whether or not saving
      goes through, and each is the key set as of its number. */
  lemma SavesNeverGoBack(ks: Keys, events: seq<Event>, states: seq<State>)
    requires IsRun(ks, events, states) && UniqueKIDs(ks) && WellFormed(ks)
    ensures var s := states[|events|];
            && (forall i, j :: 0 <= i < j < |s.attempts| ==> s.attempts[i].version <= s.attempts[j].version)
            && forall i :: 0 <= i < |s.attempts| ==>
                 s.attempts[i].version < |s.hist| && s.attempts[i].saved == Exported(s.hist[s.attempts[i].version])
  {
    RunKeepsInv(ks, events, states, |events|);
  }

  /** A call that has returned has had its mutation saved, by itself or by a later one. */
  lemma ReturnedIsSaved(ks: Keys, events: seq<Event>, states: seq<State>, v: nat)
    requires IsRun(ks, events, states) && UniqueKIDs(ks) && WellFormed(ks) && v in states[|events|].returned && v > 0
    ensures exists i :: 0 <= i < |states[|events|].attempts| && states[|events|].attempts[i].version >= v
  {
    RunKeepsInv(ks, events, states, |events|);
    var attempts := states[|events|].attempts;
    assert attempts[|attempts| - 1].version >= v;
  }

  /** No call is between its mutation and the end of its save. */
  ghost predicate NothingPending(s: State) {
    forall t :: t in s.calls ==> s.calls[t].Sunk?
  }

  /** Whenever nothing is pending, what was last handed to the sink is what is in memory;
      loading it into an empty set gives back the very same keys. (A restart loads into a set
      that already holds a fresh key: see KeyLifecycle.) */
  lemma QuiescentIsSaved(ks: Keys, events: seq<Event>, states: seq<State>)
    requires IsRun(ks, events, states) && UniqueKIDs(ks) && WellFormed(ks)
    requires NothingPending(states[|events|]) && Version(states[|events|]) > 0
    ensures var s := states[|events|];
            && s.attempts != []
            && s.attempts[|s.attempts| - 1].saved == Exported(Memory(s))
            && Imported([], s.attempts[|s.attempts| - 1].saved) == Load(Memory(s), false)
  {
    RunKeepsInv(ks, events, states, |events|);
    var s := states[|events|];
    assert !Owed(s, Version(s));
    ExportRestores(Memory(s));
  }

  /** Somebody can always move: pending calls cannot block each other. */
  lemma NoDeadlock(s: State)
    requires Inv(s) && s.calls.Keys != {}
    ensures exists t, m, s' :: t in s.calls && Step(s, t, m, s')
  {
    if s.lock.None? {
      var t :| t in s.calls;
      assert s.calls[t].Pending?;
      assert Step(s, t, Acquire, s.(calls := s.calls[t := Holding(s.calls[t].v)], lock := Some(t)));
    } else {
      var t := s.lock.value;
      match s.calls[t]
      case Holding(v) =>
        assert Step(s, t, Export, s.(calls := s.calls[t := Taken(v, Version(s), Exported(Memory(s)))]));
      case Taken(v, taken, snapshot) =>
        assert Step(s, t, Save(true), s.(calls := s.calls[t := Sunk(v)],
                                         attempts := s.attempts + [Attempt(taken, snapshot, true)]));
      case Sunk(v) =>
        assert Step(s, t, Release, s.(calls := s.calls - {t}, lock := None, returned := s.returned + {v}));
      case Pending(_) => assert false;
    }
  }
}
