/** The refcounted per-key lock table, as the objects the daemon shares. Each method
    is one critical section under the table's mutex; blocking on an entry's own mutex
    is a step of the protocol, not of this class. */
module KeyMutex {
  import opened Prelude
  import opened Coordination
  import P = IdempotencyProtocol

  class KeyLock {
    var refs: int

    constructor ()
      ensures refs == 0
    {
      refs := 0;
    }
  }

  class Table {
    var locks: map<string, KeyLock>

    /** Every entry is referenced, and no two keys share a lock object. */
    ghost predicate Valid()
      reads this, locks.Values
    {
      && (forall k :: k in locks ==> locks[k].refs > 0)
      && (forall j, k :: j in locks && k in locks && locks[j] == locks[k] ==> j == k)
    }

    ghost function Counts(): map<string, int>
      reads this, locks.Values
    {
      map k | k in locks :: locks[k].refs
    }

    constructor ()
      ensures Valid() && Counts() == map[]
    {
      locks := map[];
    }

    /** The critical section of `lock`. */
    method Reference(key: string) returns (kl: KeyLock)
      requires Valid()
      modifies this, locks.Values
      ensures Valid() && key in locks && kl == locks[key]
      ensures if key in old(locks) then locks == old(locks) else fresh(kl) && locks == old(locks)[key := kl]
      ensures Counts() == Entered(old(Counts()), key)
    {
      if key in locks {
        kl := locks[key];
      } else {
        kl := new KeyLock();
        locks := locks[key := kl];
      }
      kl.refs := kl.refs + 1;
      assert forall k :: k in old(locks) && k != key ==> locks[k] == old(locks[k]);
    }

    /** The lookup `unlock` makes first. */
    method Find(key: string) returns (kl: KeyLock?)
      ensures kl == if key in locks then locks[key] else null
    {
      kl := if key in locks then locks[key] else null;
    }

    /** The last critical section of `unlock`. */
    method Dereference(key: string, kl: KeyLock)
      requires Valid() && key in locks && kl == locks[key]
      modifies this, kl
      ensures Valid()
      ensures locks == old(locks) || locks == old(locks) - {key}
      ensures Counts() == Dropped(old(Counts()), key)
    {
      kl.refs := kl.refs - 1;
      if kl.refs == 0 {
        locks := locks - {key};
      }
      assert forall k :: k in old(locks) && k != key ==> locks[k] == old(locks[k]) != kl;
    }
  }

  function Entered(counts: map<string, int>, key: string): map<string, int> {
    counts[key := 1 + if key in counts then counts[key] else 0]
  }

  function Dropped(counts: map<string, int>, key: string): map<string, int> {
    if key in counts && counts[key] == 1 then counts - {key}
    else if key in counts then counts[key := counts[key] - 1]
    else counts
  }

  /** The reference counts of a protocol state, key by key. */
  ghost function CountsOf(s: P.State): map<string, int> {
    map k | k in s.table :: |P.Users(s.procs, k)|
  }

  lemma OthersKeepUsers(s: P.State, t: P.State, r: nat, pc: P.PC, k: string)
    requires r < |s.procs| && t.procs == s.procs[r := s.procs[r].(pc := pc)] && k != s.procs[r].key
    ensures P.Users(t.procs, k) == P.Users(s.procs, k)
  {
  }

  /** A step that moves one goroutine changes the counts at its key only. */
  lemma CountsMove(s: P.State, t: P.State, r: nat, pc: P.PC)
    requires r < |s.procs| && t.procs == s.procs[r := s.procs[r].(pc := pc)]
    requires forall k :: k != s.procs[r].key ==> (k in t.table <==> k in s.table)
    ensures forall k :: k in s.table && k != s.procs[r].key ==> CountsOf(t)[k] == CountsOf(s)[k]
  {
    forall k | k in s.table && k != s.procs[r].key
      ensures CountsOf(t)[k] == CountsOf(s)[k]
    {
      OthersKeepUsers(s, t, r, pc, k);
    }
  }

  lemma EnterSets(s: P.State, r: nat)
    requires r < |s.procs| && s.procs[r].pc == P.Entering
    ensures var t, key := P.EnterStep(s, r), s.procs[r].key;
            && t.table.Keys == s.table.Keys + {key}
            && t.procs == s.procs[r := s.procs[r].(pc := t.procs[r].pc)]
            && P.Users(t.procs, key) == P.Users(s.procs, key) + {r} && r !in P.Users(s.procs, key)
  {
    P.MoverSets(s.procs, r, P.EnterStep(s, r).procs[r].pc);
  }

  lemma CountsEntered(s: P.State, t: P.State, r: nat, key: string)
    requires r < |s.procs| == |t.procs| && t.procs == s.procs[r := s.procs[r].(pc := t.procs[r].pc)]
    requires key == s.procs[r].key
    requires t.table.Keys == s.table.Keys + {key} && (key !in s.table ==> P.Users(s.procs, key) == {})
    requires P.Users(t.procs, key) == P.Users(s.procs, key) + {r} && r !in P.Users(s.procs, key)
    ensures CountsOf(t) == Entered(CountsOf(s), key)
  {
    assert |P.Users(t.procs, key)| == |P.Users(s.procs, key)| + 1;
    CountsMove(s, t, r, t.procs[r].pc);
  }

  lemma EnterKeepsLockInv(s: P.State, r: nat)
    requires P.LockInv(s) && r < |s.procs| && s.procs[r].pc == P.Entering
    ensures P.LockInv(P.EnterStep(s, r))
  {
    if s.procs[r].key in s.table {
      P.EnterExistingKeepsLockInv(s, r);
    } else {
      P.EnterNewKeepsLockInv(s, r);
    }
  }

  /** The protocol's steps change the table's counts exactly as the methods do. */
  lemma EnterIsReference(s: P.State, r: nat)
    requires P.LockInv(s) && r < |s.procs| && s.procs[r].pc == P.Entering
    ensures P.LockInv(P.EnterStep(s, r))
    ensures CountsOf(P.EnterStep(s, r)) == Entered(CountsOf(s), s.procs[r].key)
  {
    var t := P.EnterStep(s, r);
    EnterKeepsLockInv(s, r);
    EnterSets(s, r);
    assert P.KeyOk(s, s.procs[r].key);
    CountsEntered(s, t, r, s.procs[r].key);
  }

  lemma CountsDropped(s: P.State, t: P.State, r: nat, key: string)
    requires r < |s.procs| && t.procs == s.procs[r := s.procs[r].(pc := P.Finished)] && key == s.procs[r].key
    requires key in s.table && r in P.Users(s.procs, key) && P.Users(t.procs, key) == P.Users(s.procs, key) - {r}
    requires t.table == if P.Users(t.procs, key) == {} then s.table - {key} else s.table
    ensures CountsOf(t) == Dropped(CountsOf(s), key)
  {
    P.OneLess(P.Users(s.procs, key), r);
    CountsMove(s, t, r, P.Finished);
  }

  lemma DropCounts(s: P.State, r: nat, l: P.LockId)
    requires r < |s.procs| && s.procs[r].pc == P.Dropping(l, l) && P.KeyOk(s, s.procs[r].key)
    ensures CountsOf(P.DropStep(s, r, l)) == Dropped(CountsOf(s), s.procs[r].key)
  {
    P.DropSets(s, r, l, l);
    CountsDropped(s, P.DropStep(s, r, l), r, s.procs[r].key);
  }

  lemma DropIsDereference(s: P.State, r: nat)
    requires P.LockInv(s) && r < |s.procs| && s.procs[r].pc.Dropping?
    ensures P.LockInv(P.DropStep(s, r, s.procs[r].pc.kl))
    ensures CountsOf(P.DropStep(s, r, s.procs[r].pc.kl)) == Dropped(CountsOf(s), s.procs[r].key)
  {
    P.DropKeepsLockInv(s, r, s.procs[r].pc.l, s.procs[r].pc.kl);
    assert P.KeyOk(s, s.procs[r].key);
    DropCounts(s, r, s.procs[r].pc.l);
  }
}
