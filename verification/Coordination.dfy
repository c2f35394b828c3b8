/** The in-memory idempotency store: a TTL-bounded record cache with a FIFO cap.
    The class mutates its fields as the daemon does; `Cache` is its value, and the
    functions on `Cache` say what each call returns and leaves behind. */
module Coordination {
  import opened Prelude

  datatype Record = Record(status: int, body: Bytes, contentType: string)

  datatype Entry = Entry(rec: Record, expires: int)

  datatype Cache = Cache(ttl: int, max: nat, order: seq<string>, m: map<string, Entry>)

  const MAX_ENTRIES: nat := 4096

  predicate Expired(c: Cache, key: string, now: int) {
    key in c.m && now > c.m[key].expires
  }

  /** The record `Get` returns at time `now`. */
  function Lookup(c: Cache, key: string, now: int): Option<Record> {
    if key in c.m && now <= c.m[key].expires then Some(c.m[key].rec) else None
  }

  /** `Get` deletes an expired record from the map, and leaves `order` alone. */
  function AfterGet(c: Cache, key: string, now: int): Cache {
    if Expired(c, key, now) then c.(m := c.m - {key}) else c
  }

  function Queue(c: Cache, key: string): seq<string> {
    if key in c.m then c.order else c.order + [key]
  }

  /** The number of queue heads `Put` pops to get back under the cap. */
  function Excess(c: Cache, key: string): (n: nat)
    ensures n <= |Queue(c, key)|
  {
    if |Queue(c, key)| > c.max then |Queue(c, key)| - c.max else 0
  }

  /** The keys `Put` deletes. */
  function Evicted(c: Cache, key: string): set<string> {
    Elems(Queue(c, key)[..Excess(c, key)])
  }

  function AfterPut(c: Cache, key: string, rec: Record, now: int): Cache {
    c.(order := Queue(c, key)[Excess(c, key)..],
       m := c.m[key := Entry(rec, now + c.ttl)] - Evicted(c, key))
  }

  lemma PopOneMore(m: map<string, Entry>, q: seq<string>, n: nat)
    requires n < |q|
    ensures q[n..][0] == q[n] && q[n..][1..] == q[n + 1..]
    ensures m - Elems(q[..n]) - {q[n]} == m - Elems(q[..n + 1])
  {
    assert q[..n + 1] == q[..n] + [q[n]];
    ElemsSnoc(q[..n], q[n]);
  }

  class MemoryIdempotency {
    const ttl: int
    const max: nat
    var order: seq<string>
    var m: map<string, Entry>

    ghost function View(): Cache
      reads this
    {
      Cache(ttl, max, order, m)
    }

    constructor (ttl: int)
      ensures View() == Cache(ttl, MAX_ENTRIES, [], map[]) && this.max == 4096
    {
      this.ttl := ttl;
      this.max := MAX_ENTRIES;
      order := [];
      m := map[];
    }

    method Get(key: string, now: int) returns (rec: Option<Record>)
      modifies this`m
      ensures rec == Lookup(old(View()), key, now)
      ensures View() == AfterGet(old(View()), key, now)
    {
      if key !in m {
        return None;
      }
      var e := m[key];
      if now > e.expires {
        m := m - {key};
        return None;
      }
      return Some(e.rec);
    }

    method Put(key: string, rec: Record, now: int)
      modifies this
      ensures View() == AfterPut(old(View()), key, rec, now)
    {
      ghost var q := Queue(View(), key);
      ghost var n := Excess(View(), key);
      if key !in m {
        order := order + [key];
      }
      m := m[key := Entry(rec, now + ttl)];
      ghost var m0 := m;
      ghost var popped := 0;
      while |order| > max
        invariant popped <= |q| && order == q[popped..]
        invariant popped <= n
        invariant m == m0 - Elems(q[..popped])
      {
        var oldest := order[0];
        PopOneMore(m0, q, popped);
        order := order[1..];
        m := m - {oldest};
        popped := popped + 1;
      }
      assert popped == n;
    }
  }

  /** Every reachable store: each live record is queued, and the queue is within the cap. */
  ghost predicate WellFormed(c: Cache) {
    && |c.order| <= c.max
    && forall k :: k in c.m ==> k in c.order
  }

  /** The hard cap: no more than `max` live records. */
  lemma CapIsHard(c: Cache)
    requires WellFormed(c)
    ensures |c.m| <= c.max
  {
    ElemsAtMost(c.order);
    assert c.m.Keys <= Elems(c.order);
    SubsetSize(c.m.Keys, Elems(c.order));
  }

  lemma {:induction false} SubsetSize<T>(a: set<T>, b: set<T>)
    requires a <= b
    ensures |a| <= |b|
  {
    assert b == a + (b - a);
  }

  lemma PutKeepsWellFormed(c: Cache, key: string, rec: Record, now: int)
    requires WellFormed(c)
    ensures WellFormed(AfterPut(c, key, rec, now))
  {
    var q, n := Queue(c, key), Excess(c, key);
    var c' := AfterPut(c, key, rec, now);
    forall k | k in c'.m
      ensures k in c'.order
    {
      assert k in q;
      var i :| 0 <= i < |q| && q[i] == k;
      assert i >= n;
      assert q[n..][i - n] == k;
    }
  }

  /** What a later `Get` finds after `Put`, exactly: the stored record, unless the
      queue was full and the popped head was a stale entry for this very key (a key
      whose record expired and was deleted by `Get`, which leaves it queued), or
      unless the deadline has passed. */
  lemma GetAfterPut(c: Cache, key: string, rec: Record, now: int, later: int)
    requires WellFormed(c)
    ensures Lookup(AfterPut(c, key, rec, now), key, later) == Some(rec)
            <==> !SelfEvicting(c, key) && later <= now + c.ttl
  {
    var q, n := Queue(c, key), Excess(c, key);
    assert n <= 1;
    if n == 1 {
      assert q[..n] == [q[0]];
    }
    assert key in Evicted(c, key) <==> SelfEvicting(c, key);
  }

  predicate SelfEvicting(c: Cache, key: string) {
    && key !in c.m
    && |c.order| >= c.max
    && (c.order + [key])[0] == key
  }

  /** Without stale queue entries the queue lists the live keys, oldest first. */
  ghost predicate Tight(c: Cache) {
    && WellFormed(c)
    && Distinct(c.order)
    && forall k :: k in c.order ==> k in c.m
  }

  /** What `Put` leaves when the store is not degenerate. */
  lemma PoppedHead(c: Cache, key: string, rec: Record, now: int)
    requires WellFormed(c) && c.max > 0
    ensures var full, c' := key !in c.m && |c.order| == c.max, AfterPut(c, key, rec, now);
            && c'.max == c.max
            && c'.order == (if full then c.order[1..] + [key] else if key in c.m then c.order else c.order + [key])
            && c'.m.Keys == (if full then c.m.Keys + {key} - {c.order[0]} else c.m.Keys + {key})
  {
    var q, n := Queue(c, key), Excess(c, key);
    assert n <= 1;
    if n == 1 {
      assert q[..n] == [c.order[0]];
    } else {
      assert q[..n] == [];
    }
  }

  lemma TightIff(c: Cache)
    ensures Tight(c) <==> |c.order| <= c.max && Distinct(c.order) && Elems(c.order) == c.m.Keys
  {
    assert forall k :: k in c.order <==> k in Elems(c.order);
  }

  lemma RotatedElems(order: seq<string>, key: string)
    requires order != [] && Distinct(order) && key !in order
    ensures Distinct(order[1..] + [key]) && Elems(order[1..] + [key]) == Elems(order) - {order[0]} + {key}
  {
    var out := order[1..] + [key];
    forall k
      ensures k in out <==> k in Elems(order) - {order[0]} + {key}
    {
      assert order == [order[0]] + order[1..];
    }
  }

  lemma StaysTight(c: Cache, key: string, c': Cache)
    requires Tight(c) && c.max > 0 && c'.max == c.max
    requires var full := key !in c.m && |c.order| == c.max;
             && c'.order == (if full then c.order[1..] + [key] else if key in c.m then c.order else c.order + [key])
             && c'.m.Keys == (if full then c.m.Keys + {key} - {c.order[0]} else c.m.Keys + {key})
    ensures Tight(c')
  {
    TightIff(c);
    TightIff(c');
    if key !in c.m && |c.order| == c.max {
      RotatedElems(c.order, key);
      assert key != c.order[0];
    } else if key !in c.m {
      assert Elems(c.order + [key]) == Elems(c.order) + {key};
    }
  }

  // ---- what a Put takes away ------------------------------------------------------------------

  /** The keys with a live record once the new one is stored, before anything is popped. */
  function Storing(c: Cache, key: string): set<string> {
    c.m.Keys + {key}
  }

  /** `Put` finds the queue full and has to pop. */
  predicate Pops(c: Cache, key: string) {
    key !in c.m && |c.order| == c.max
  }

  /** `Put` deletes the record of `k`, exactly when it pops and `k` is what the head of the
      queue names. */
  lemma EvictedIff(c: Cache, key: string, rec: Record, now: int, k: string)
    requires WellFormed(c) && c.max > 0 && k in Storing(c, key)
    ensures k !in AfterPut(c, key, rec, now).m <==> Pops(c, key) && k == c.order[0]
  {
    PoppedHead(c, key, rec, now);
  }

  /** Where the record of `k` stands in the queue: its last entry, the one its store added. */
  function OwnEntry(q: seq<string>, k: string): (i: int)
    ensures i == -1 <==> k !in q
    ensures k in q ==> 0 <= i < |q| && q[i] == k && k !in q[i + 1..]
  {
    if q == [] then -1
    else if q[|q| - 1] == k then |q| - 1
    else
      var i := OwnEntry(q[..|q| - 1], k);
      assert q == q[..|q| - 1] + [q[|q| - 1]];
      assert i >= 0 ==> q[i + 1..] == q[..|q| - 1][i + 1..] + [q[|q| - 1]];
      i
  }

  /** `Put` deletes a record through an entry that is not its own, that is, one queued for
      an earlier record of that key, exactly when it pops a head that names a live record
      (or the one being stored) and occurs again further back. */
  lemma LosesYoungerIff(c: Cache, key: string, rec: Record, now: int)
    requires WellFormed(c) && c.max > 0
    ensures (exists k :: k in Storing(c, key) && k !in AfterPut(c, key, rec, now).m && OwnEntry(Queue(c, key), k) > 0)
            <==> Pops(c, key) && c.order[0] in Storing(c, key) && c.order[0] in (c.order + [key])[1..]
  {
    var q := Queue(c, key);
    forall k | k in Storing(c, key)
      ensures k !in AfterPut(c, key, rec, now).m <==> Pops(c, key) && k == c.order[0]
    {
      EvictedIff(c, key, rec, now, k);
    }
    if Pops(c, key) {
      assert q == c.order + [key] && q[0] == c.order[0];
      HeadAgain(q);
    }
  }

  lemma HeadAgain(q: seq<string>)
    requires q != []
    ensures OwnEntry(q, q[0]) > 0 <==> q[0] in q[1..]
  {
    assert q == [q[0]] + q[1..];
  }

  /** What the cap is for: nothing goes while there is room, and else the oldest record. */
  ghost predicate PutIsFifo(c: Cache, key: string, after: set<string>) {
    if |Storing(c, key)| <= c.max then after == Storing(c, key)
    else exists k :: IsOldest(c, k) && after == Storing(c, key) - {k}
  }

  /** No live record stands before the record of `k`. */
  ghost predicate IsOldest(c: Cache, k: string) {
    k in c.m && forall j :: j in c.m ==> OwnEntry(c.order, k) <= OwnEntry(c.order, j)
  }

  /** A store with as many live records as the cap has no stale entry. */
  lemma FullIsTight(c: Cache)
    requires WellFormed(c) && |c.m| == c.max
    ensures Tight(c) && |c.order| == c.max
  {
    ElemsAtMost(c.order);
    assert c.m.Keys <= Elems(c.order);
    SubsetSize(c.m.Keys, Elems(c.order));
    SameSizeIsEqual(c.m.Keys, Elems(c.order));
    FullSetIsDistinct(c.order);
    TightIff(c);
  }

  lemma SameSizeIsEqual<T>(a: set<T>, b: set<T>)
    requires a <= b && |a| == |b|
    ensures a == b
  {
    assert b == a + (b - a);
  }

  lemma TightHeadIsOldest(c: Cache)
    requires Tight(c) && c.order != []
    ensures IsOldest(c, c.order[0])
  {
    var h := c.order[0];
    var i := OwnEntry(c.order, h);
    assert c.order[i] == h;
    forall j | j in c.m
      ensures OwnEntry(c.order, j) >= 0
    {
      assert j in c.order;
    }
  }

  lemma StoringSize(c: Cache, key: string)
    ensures |Storing(c, key)| == |c.m| + if key in c.m then 0 else 1
  {
    if key in c.m {
      assert Storing(c, key) == c.m.Keys;
    }
  }

  /** While there is room for the record, a pop that finds a live head is what breaks the order. */
  lemma RoomyPutIsFifoIff(c: Cache, key: string, after: set<string>)
    requires |Storing(c, key)| <= c.max
    requires after == if Pops(c, key) && c.max > 0 then Storing(c, key) - {c.order[0]} else Storing(c, key)
    ensures PutIsFifo(c, key, after) <==> !(Pops(c, key) && c.max > 0 && c.order[0] in Storing(c, key))
  {
  }

  /** The cap works as meant, exactly unless a Put pops while live records are fewer than
      the cap and the head of the queue names one of them, or the key being stored. Stale
      entries fill the queue: those of expired records that Get deleted. */
  lemma PutIsFifoIff(c: Cache, key: string, rec: Record, now: int)
    requires WellFormed(c) && c.max > 0
    ensures PutIsFifo(c, key, AfterPut(c, key, rec, now).m.Keys)
            <==> !(Pops(c, key) && |c.m| < c.max && c.order[0] in Storing(c, key))
  {
    var after := AfterPut(c, key, rec, now).m.Keys;
    assert after == if Pops(c, key) then Storing(c, key) - {c.order[0]} else Storing(c, key) by {
      PoppedHead(c, key, rec, now);
    }
    CapIsHard(c);
    StoringSize(c, key);
    if |Storing(c, key)| <= c.max {
      RoomyPutIsFifoIff(c, key, after);
    } else {
      FullIsTight(c);
      TightHeadIsOldest(c);
    }
  }

  /** Without stale entries the cap works as meant, and the store stays that way. */
  lemma TightPutIsFifo(c: Cache, key: string, rec: Record, now: int)
    requires Tight(c) && c.max > 0
    ensures Tight(AfterPut(c, key, rec, now))
    ensures PutIsFifo(c, key, AfterPut(c, key, rec, now).m.Keys)
    ensures Lookup(AfterPut(c, key, rec, now), key, now) == Some(rec) <==> 0 <= c.ttl
  {
    PoppedHead(c, key, rec, now);
    StaysTight(c, key, AfterPut(c, key, rec, now));
    GetAfterPut(c, key, rec, now, now);
    TightIff(c);
    DistinctSize(c.order);
    PutIsFifoIff(c, key, rec, now);
    assert c.order != [] ==> c.order[0] in c.m;
  }

  lemma {:induction false} DistinctSize(s: seq<string>)
    requires Distinct(s)
    ensures |Elems(s)| == |s|
  {
    if s != [] {
      DistinctSize(s[1..]);
      assert Elems(s) == {s[0]} + Elems(s[1..]);
      assert forall i :: 0 <= i < |s[1..]| ==> s[1..][i] == s[i + 1];
    }
  }

  // ---- runs of a new store in which a fresh record is lost ----------------------------------

  const K: string := "k"

  /** Pairwise different keys, all different from `K`. */
  function Filler(i: nat): (k: string)
    ensures |k| == i + 2
  {
    seq(i + 2, _ => 'x')
  }

  function Fillers(n: nat): (s: seq<string>)
    ensures |s| == n
    ensures forall i :: 0 <= i < n ==> s[i] == Filler(i)
  {
    seq(n, i requires 0 <= i < n => Filler(i))
  }

  /** `n` more keys are stored at time `now`. */
  function Filled(c: Cache, n: nat, rec: Record, now: int): Cache {
    if n == 0 then c else AfterPut(Filled(c, n - 1, rec, now), Filler(n - 1), rec, now)
  }

  /** `K` is stored at time 0 in a new store, and looked up after it expired. */
  function AfterLapse(ttl: int, max: nat, rec: Record): Cache {
    AfterGet(AfterPut(Cache(ttl, max, [], map[]), K, rec, 0), K, ttl + 1)
  }

  lemma LapseLeavesStaleEntry(ttl: int, max: nat, rec: Record)
    requires max > 0
    ensures AfterLapse(ttl, max, rec) == Cache(ttl, max, [K], map[])
  {
    var c := Cache(ttl, max, [], map[]);
    assert Queue(c, K) == [K] && [K][..0] == [] && [K][0..] == [K];
    assert AfterPut(c, K, rec, 0) == Cache(ttl, max, [K], map[K := Entry(rec, ttl)]);
    assert map[K := Entry(rec, ttl)] - {K} == map[];
  }

  /** A new key while there is room: queued, stored, nothing popped. */
  lemma RoomyPut(c: Cache, key: string, rec: Record, now: int)
    requires |c.order| < c.max && key !in c.m
    ensures AfterPut(c, key, rec, now) == Cache(c.ttl, c.max, c.order + [key], c.m[key := Entry(rec, now + c.ttl)])
  {
    assert Queue(c, key)[..0] == [] && Queue(c, key)[0..] == Queue(c, key);
  }

  lemma FillersGrow(n: nat)
    ensures Fillers(n + 1) == Fillers(n) + [Filler(n)] && Filler(n) !in Fillers(n)
    ensures Elems(Fillers(n + 1)) == Elems(Fillers(n)) + {Filler(n)}
  {
    assert forall i :: 0 <= i < n ==> |Fillers(n)[i]| != |Filler(n)|;
    assert Fillers(n + 1) == Fillers(n) + [Filler(n)];
  }

  /** `f` is `c` with the first `n` fillers queued and stored. */
  ghost predicate IsFilled(c: Cache, n: nat, f: Cache) {
    && f.ttl == c.ttl && f.max == c.max && f.order == c.order + Fillers(n)
    && f.m.Keys == c.m.Keys + Elems(Fillers(n))
    && forall k :: k in c.m ==> f.m[k] == c.m[k]
  }

  lemma FilledStep(c: Cache, n: nat, f: Cache, f': Cache, e: Entry)
    requires IsFilled(c, n, f) && Filler(n) !in c.m
    requires f' == Cache(f.ttl, f.max, f.order + [Filler(n)], f.m[Filler(n) := e])
    ensures IsFilled(c, n + 1, f')
  {
    FillersGrow(n);
  }

  lemma FilledOneMore(c: Cache, n: nat, f: Cache, rec: Record, now: int)
    requires IsFilled(c, n, f) && |c.order| + n < c.max && Filler(n) !in c.m
    ensures IsFilled(c, n + 1, AfterPut(f, Filler(n), rec, now))
  {
    FillersGrow(n);
    RoomyPut(f, Filler(n), rec, now);
    FilledStep(c, n, f, AfterPut(f, Filler(n), rec, now), Entry(rec, now + f.ttl));
  }

  ghost predicate IsFilledTo(c: Cache, n: nat, rec: Record, now: int) {
    IsFilled(c, n, Filled(c, n, rec, now))
  }

  lemma FilledNext(c: Cache, n: nat, rec: Record, now: int)
    requires IsFilledTo(c, n, rec, now) && |c.order| + n < c.max && Filler(n) !in c.m
    ensures IsFilledTo(c, n + 1, rec, now)
  {
    FilledOneMore(c, n, Filled(c, n, rec, now), rec, now);
  }

  lemma FilledUpTo(c: Cache, n: nat, rec: Record, now: int)
    requires |c.order| + n <= c.max && forall i :: 0 <= i < n ==> Filler(i) !in c.m
    ensures IsFilledTo(c, n, rec, now)
  {
    assert c.order + Fillers(0) == c.order;
    for k := 0 to n
      invariant IsFilledTo(c, k, rec, now)
    {
      FilledNext(c, k, rec, now);
    }
  }

  lemma {:induction false} FillersSize(n: nat)
    ensures |Elems(Fillers(n))| == n && K !in Elems(Fillers(n))
  {
    assert forall i, j :: 0 <= i < j < n ==> |Fillers(n)[i]| != |Fillers(n)[j]|;
    DistinctSize(Fillers(n));
    assert forall i :: 0 <= i < n ==> |Fillers(n)[i]| != |K|;
  }

  lemma StoredAgain(ttl: nat, max: nat, rec: Record)
    requires max >= 2
    ensures AfterPut(AfterLapse(ttl, max, rec), K, rec, ttl + 1) == Cache(ttl, max, [K, K], map[K := Entry(rec, ttl + 1 + ttl)])
  {
    LapseLeavesStaleEntry(ttl, max, rec);
    RoomyPut(AfterLapse(ttl, max, rec), K, rec, ttl + 1);
  }

  /** A record stored again after it expired: once `max - 2` more keys have come, one
      further key takes it away, fresh as it is, although the cap was not reached. */
  lemma RequeuedRecordIsLost(ttl: nat, max: nat, rec: Record)
    requires max >= 2
    ensures var now := ttl + 1;
            var c := Filled(AfterPut(AfterLapse(ttl, max, rec), K, rec, now), max - 2, rec, now);
            && Lookup(c, K, now) == Some(rec) && |c.m| == max - 1
            && Lookup(AfterPut(c, Filler(max - 2), rec, now), K, now) == None
  {
    StoredAgain(ttl, max, rec);
    LostOnceFilled(AfterPut(AfterLapse(ttl, max, rec), K, rec, ttl + 1), rec, ttl + 1);
  }

  lemma LostOnceFilled(again: Cache, rec: Record, now: int)
    requires again.order == [K, K] && again.m == map[K := Entry(rec, now + again.ttl)] && again.ttl >= 0 && again.max >= 2
    ensures var c := Filled(again, again.max - 2, rec, now);
            && Lookup(c, K, now) == Some(rec) && |c.m| == again.max - 1
            && Lookup(AfterPut(c, Filler(again.max - 2), rec, now), K, now) == None
  {
    var n := again.max - 2;
    FilledUpTo(again, n, rec, now);
    FilledOneTooMany(again, n, Filled(again, n, rec, now), rec, now);
  }

  lemma FilledOneTooMany(c: Cache, n: nat, f: Cache, rec: Record, now: int)
    requires IsFilled(c, n, f) && c.order == [K, K] && c.m == map[K := Entry(rec, now + c.ttl)] && c.ttl >= 0 && c.max == n + 2
    ensures Lookup(f, K, now) == Some(rec) && |f.m| == n + 1
    ensures Lookup(AfterPut(f, Filler(n), rec, now), K, now) == None
  {
    FillersSize(n);
    FillersGrow(n);
    assert |{K} + Elems(Fillers(n))| == 1 + n;
    FullQueueDropsHead(f, Filler(n), rec, now);
  }

  lemma FullQueueDropsHead(c: Cache, key: string, rec: Record, now: int)
    requires |c.order| == c.max > 0 && key !in c.m
    ensures c.order[0] !in AfterPut(c, key, rec, now).m
  {
    assert Queue(c, key)[..1] == [c.order[0]];
  }

  /** An expired record whose stale entry has come to the head of a full queue: storing
      its key again takes the record away at once. */
  lemma StaleHeadLosesFreshRecord(ttl: nat, max: nat, rec: Record)
    requires max >= 1
    ensures var now := ttl + 1;
            var c := Filled(AfterLapse(ttl, max, rec), max - 1, rec, now);
            |c.m| == max - 1 && Lookup(AfterPut(c, K, rec, now), K, now) == None
  {
    var now, n := ttl + 1, max - 1;
    LapseLeavesStaleEntry(ttl, max, rec);
    FilledUpTo(AfterLapse(ttl, max, rec), n, rec, now);
    FillersSize(n);
    FullQueueDropsHead(Filled(AfterLapse(ttl, max, rec), n, rec, now), K, rec, now);
  }
}
