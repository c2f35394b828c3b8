/** How long a consumer took to pick up an announced key, read off its canary history. */
module PickupWindow {
  import opened Prelude
  import opened Ordering

  /** Times and durations are in nanoseconds. */
  const HOUR: int := 3_600_000_000_000
  const FRESHNESS: int := 24 * HOUR
  const CANARY: string := "canary_key"

  datatype Probe = Probe(id: string, runAt: int, passed: bool)

  predicate IsFresh(r: Probe, now: int) {
    r.id == CANARY && now - r.runAt <= FRESHNESS
  }

  function Before(a: Probe, b: Probe): bool {
    a.runAt < b.runAt
  }

  /** The fresh canary probes, in the order of the history. */
  function Canaries(results: seq<Probe>, now: int): seq<Probe> {
    if results == [] then [] else
      var last := results[|results| - 1];
      Canaries(results[..|results| - 1], now) + if IsFresh(last, now) then [last] else []
  }

  lemma {:induction false} CanariesMembers(results: seq<Probe>, now: int)
    ensures forall r :: r in Canaries(results, now) <==> r in results && IsFresh(r, now)
  {
    if results != [] {
      CanariesMembers(results[..|results| - 1], now);
      assert results == results[..|results| - 1] + [results[|results| - 1]];
    }
  }

  // ---- the scan -----------------------------------------------------------------------

  /** Position `i` of a history is a rejected probe right before an accepted, later one. */
  ghost predicate PickupAt(cs: seq<Probe>, i: int) {
    0 <= i < |cs| - 1 && !cs[i].passed && cs[i + 1].passed && cs[i].runAt < cs[i + 1].runAt
  }

  function GapAt(cs: seq<Probe>, i: int): int
    requires 0 <= i < |cs| - 1
  {
    cs[i + 1].runAt - cs[i].runAt
  }

  /** `best` is the largest gap among adjacent pickups; none when there is no pickup. */
  ghost predicate IsWorstAdjacent(cs: seq<Probe>, best: Option<int>) {
    && (best.None? ==> forall i :: !PickupAt(cs, i))
    && (best.Some? ==> exists i :: PickupAt(cs, i) && GapAt(cs, i) == best.value)
    && (best.Some? ==> forall i :: PickupAt(cs, i) ==> GapAt(cs, i) <= best.value)
  }

  lemma ScanOneMore(cs: seq<Probe>, i: nat, before: Option<int>, after: Option<int>)
    requires i < |cs| && IsWorstAdjacent(cs[..i], before)
    requires if i > 0 && PickupAt(cs, i - 1) && (before.None? || GapAt(cs, i - 1) > before.value)
             then after == Some(GapAt(cs, i - 1)) else after == before
    ensures IsWorstAdjacent(cs[..i + 1], after)
  {
    var was, is_ := cs[..i], cs[..i + 1];
    forall k
      ensures PickupAt(is_, k) <==> PickupAt(was, k) || (k == i - 1 && PickupAt(cs, k))
      ensures PickupAt(was, k) ==> GapAt(is_, k) == GapAt(was, k)
    {
    }
    if after == before {
      if before.Some? {
        var k :| PickupAt(was, k) && GapAt(was, k) == before.value;
        assert PickupAt(is_, k) && GapAt(is_, k) == before.value;
      }
    } else {
      assert PickupAt(is_, i - 1) && GapAt(is_, i - 1) == after.value;
    }
  }

  method CollectCanaries(results: seq<Probe>, now: int) returns (canaries: seq<Probe>)
    ensures canaries == Canaries(results, now)
  {
    canaries := [];
    for i := 0 to |results|
      invariant canaries == Canaries(results[..i], now)
    {
      assert results[..i + 1][..i] == results[..i];
      var r := results[i];
      if r.id != CANARY {
        continue;
      }
      if now - r.runAt > FRESHNESS {
        continue;
      }
      canaries := canaries + [r];
    }
    assert results[..|results|] == results;
  }

  method ScanPickups(cs: seq<Probe>) returns (best: Option<int>)
    requires Sorted(cs, Before)
    ensures IsWorstAdjacent(cs, best)
  {
    var lastFail, haveFail := 0, false;
    best := None;
    for i := 0 to |cs|
      invariant haveFail <==> i > 0 && !cs[i - 1].passed
      invariant haveFail ==> lastFail == cs[i - 1].runAt
      invariant IsWorstAdjacent(cs[..i], best)
    {
      var r := cs[i];
      ghost var before := best;
      assert i > 0 ==> !Before(cs[i], cs[i - 1]);
      if !r.passed {
        lastFail, haveFail := r.runAt, true;
      } else {
        if haveFail {
          var d := r.runAt - lastFail;
          if d > 0 && (best.None? || d > best.value) {
            best := Some(d);
          }
        }
        haveFail := false;
      }
      ScanOneMore(cs, i, before, best);
    }
    assert cs[..|cs|] == cs;
  }

  lemma BeforeIsStrictWeak()
    ensures StrictWeak(Before)
  {
  }

  /** What the measurement may return: the sort leaves ties in any order. */
  ghost predicate IsMeasured(results: seq<Probe>, now: int, r: Option<int>) {
    exists cs :: IsSortOf(cs, Canaries(results, now), Before) && IsWorstAdjacent(cs, r)
  }

  method MeasuredWindow(results: seq<Probe>, now: int) returns (r: Option<int>)
    ensures IsMeasured(results, now, r)
  {
    var canaries := CollectCanaries(results, now);
    BeforeIsStrictWeak();
    var sorted := SortSlice(canaries, Before);
    r := ScanPickups(sorted);
  }

  // ---- what is measured, without any order --------------------------------------------------

  /** Among the fresh canaries, `f` failed, `p` passed later, and none ran in between. */
  ghost predicate Pickup(results: seq<Probe>, now: int, f: Probe, p: Probe) {
    && f in results && IsFresh(f, now) && !f.passed
    && p in results && IsFresh(p, now) && p.passed
    && f.runAt < p.runAt
    && forall c :: c in results && IsFresh(c, now) ==> !(f.runAt < c.runAt < p.runAt)
  }

  /** The worst observed pickup. */
  ghost predicate IsWorstPickup(results: seq<Probe>, now: int, r: Option<int>) {
    && (r.None? ==> forall f, p :: !Pickup(results, now, f, p))
    && (r.Some? ==> exists f, p :: Pickup(results, now, f, p) && p.runAt - f.runAt == r.value)
    && (r.Some? ==> forall f, p :: Pickup(results, now, f, p) ==> p.runAt - f.runAt <= r.value)
  }

  /** All fresh canaries at an instant agree. */
  ghost predicate Unmixed(results: seq<Probe>, now: int, t: int) {
    forall a, b :: a in results && b in results && IsFresh(a, now) && IsFresh(b, now) && a.runAt == b.runAt == t ==>
      a.passed == b.passed
  }

  /** A pickup no tie can hide. */
  ghost predicate CleanPickup(results: seq<Probe>, now: int, f: Probe, p: Probe) {
    Pickup(results, now, f, p) && Unmixed(results, now, f.runAt) && Unmixed(results, now, p.runAt)
  }

  ghost predicate SomePickup(results: seq<Probe>, now: int, d: int) {
    exists f, p :: Pickup(results, now, f, p) && p.runAt - f.runAt == d
  }

  ghost predicate SomeCleanPickup(results: seq<Probe>, now: int, d: int) {
    exists f, p :: CleanPickup(results, now, f, p) && p.runAt - f.runAt >= d
  }

  /** Whatever was picked up in `a`, some clean pickup of `b` took at least as long. */
  ghost predicate Matched(a: seq<Probe>, b: seq<Probe>, now: int) {
    forall d :: SomePickup(a, now, d) ==> SomeCleanPickup(b, now, d)
  }

  /** There is no pickup, or a longest one is clean. In particular when all instants differ. */
  ghost predicate Settled(results: seq<Probe>, now: int) {
    Matched(results, results, now)
  }

  lemma SortedTimes(cs: seq<Probe>)
    requires Sorted(cs, Before)
    ensures forall x, y :: 0 <= x <= y < |cs| ==> cs[x].runAt <= cs[y].runAt
  {
    forall x, y | 0 <= x < y < |cs|
      ensures cs[x].runAt <= cs[y].runAt
    {
      assert !Before(cs[y], cs[x]);
    }
  }

  lemma SortedMembers(results: seq<Probe>, now: int, cs: seq<Probe>)
    requires IsSortOf(cs, Canaries(results, now), Before)
    ensures forall r :: r in cs <==> r in results && IsFresh(r, now)
  {
    CanariesMembers(results, now);
    SameMembers(cs, Canaries(results, now));
  }

  lemma AdjacentIsPickup(results: seq<Probe>, now: int, cs: seq<Probe>, i: int)
    requires IsSortOf(cs, Canaries(results, now), Before) && PickupAt(cs, i)
    ensures Pickup(results, now, cs[i], cs[i + 1])
  {
    SortedMembers(results, now, cs);
    assert cs[i] in cs && cs[i + 1] in cs;
    forall c | c in results && IsFresh(c, now)
      ensures !(cs[i].runAt < c.runAt < cs[i + 1].runAt)
    {
      var k :| 0 <= k < |cs| && cs[k] == c;
      assert k < i ==> !Before(cs[i], cs[k]);
      assert k > i + 1 ==> !Before(cs[k], cs[i + 1]);
    }
  }

  /** The last position not after time `t`. */
  lemma {:induction false} LastUpTo(cs: seq<Probe>, t: int, k: nat) returns (i: nat)
    requires Sorted(cs, Before) && k < |cs| && cs[k].runAt <= t
    ensures k <= i < |cs| && cs[i].runAt <= t && (i + 1 < |cs| ==> cs[i + 1].runAt > t)
    decreases |cs| - k
  {
    if k + 1 < |cs| && cs[k + 1].runAt <= t {
      i := LastUpTo(cs, t, k + 1);
    } else {
      i := k;
    }
  }

  /** However ties are sorted, a clean pickup is found at adjacent positions. */
  lemma CleanIsAdjacent(results: seq<Probe>, now: int, cs: seq<Probe>, f: Probe, p: Probe) returns (i: int)
    requires IsSortOf(cs, Canaries(results, now), Before) && CleanPickup(results, now, f, p)
    ensures PickupAt(cs, i) && GapAt(cs, i) == p.runAt - f.runAt
  {
    SortedMembers(results, now, cs);
    assert f in cs && p in cs;
    var a :| 0 <= a < |cs| && cs[a] == f;
    var b :| 0 <= b < |cs| && cs[b] == p;
    SortedTimes(cs);
    i := LastUpTo(cs, f.runAt, a);
    assert i < b;
    assert cs[i] in cs && cs[i + 1] in cs;
  }

  // ---- two ways to sort ties ------------------------------------------------------------------

  /** Rejected before accepted at one instant: only clean pickups are left to see. */
  function FailsFirst(a: Probe, b: Probe): bool {
    a.runAt < b.runAt || (a.runAt == b.runAt && !a.passed && b.passed)
  }

  /** Accepted before rejected: every pickup can be seen. */
  function PassesFirst(a: Probe, b: Probe): bool {
    a.runAt < b.runAt || (a.runAt == b.runAt && a.passed && !b.passed)
  }

  lemma TiesSortBefore(results: seq<Probe>, now: int, less: (Probe, Probe) -> bool) returns (cs: seq<Probe>)
    requires StrictWeak(less) && forall a, b :: Before(a, b) ==> less(a, b)
    ensures IsSortOf(cs, Canaries(results, now), Before) && Sorted(cs, less)
  {
    cs := Sort(Canaries(results, now), less);
    SortSorts(Canaries(results, now), less);
  }

  /** With rejections sorted first, adjacent positions are a pickup only if it is clean. */
  lemma FailsFirstIsClean(results: seq<Probe>, now: int, cs: seq<Probe>, i: int)
    requires IsSortOf(cs, Canaries(results, now), Before) && Sorted(cs, FailsFirst) && PickupAt(cs, i)
    ensures CleanPickup(results, now, cs[i], cs[i + 1])
  {
    AdjacentIsPickup(results, now, cs, i);
    SortedMembers(results, now, cs);
    SortedTimes(cs);
    forall c | c in results && IsFresh(c, now) && c.runAt == cs[i].runAt
      ensures !c.passed
    {
      var k :| 0 <= k < |cs| && cs[k] == c;
      assert k < i ==> !FailsFirst(cs[i], cs[k]);
    }
    forall c | c in results && IsFresh(c, now) && c.runAt == cs[i + 1].runAt
      ensures c.passed
    {
      var k :| 0 <= k < |cs| && cs[k] == c;
      assert k > i + 1 ==> !FailsFirst(cs[k], cs[i + 1]);
    }
  }

  /** With acceptances sorted first, every pickup is found at adjacent positions. */
  lemma PassesFirstIsComplete(results: seq<Probe>, now: int, cs: seq<Probe>, f: Probe, p: Probe) returns (i: int)
    requires IsSortOf(cs, Canaries(results, now), Before) && Sorted(cs, PassesFirst) && Pickup(results, now, f, p)
    ensures PickupAt(cs, i) && GapAt(cs, i) == p.runAt - f.runAt
  {
    SortedMembers(results, now, cs);
    assert f in cs && p in cs;
    var a :| 0 <= a < |cs| && cs[a] == f;
    var b :| 0 <= b < |cs| && cs[b] == p;
    SortedTimes(cs);
    i := LastUpTo(cs, f.runAt, a);
    assert a < i ==> !PassesFirst(cs[i], cs[a]);
    assert i < b;
    assert i + 1 < b ==> !PassesFirst(cs[b], cs[i + 1]);
    assert cs[i] in cs && cs[i + 1] in cs;
  }

  lemma {:induction false} WorstAdjacentExists(cs: seq<Probe>, i: nat) returns (r: Option<int>)
    requires i <= |cs|
    ensures IsWorstAdjacent(cs[..i], r)
  {
    if i == 0 {
      r := None;
    } else {
      var before := WorstAdjacentExists(cs, i - 1);
      r := if i > 1 && PickupAt(cs, i - 2) && (before.None? || GapAt(cs, i - 2) > before.value)
           then Some(GapAt(cs, i - 2)) else before;
      ScanOneMore(cs, i - 1, before, r);
    }
  }

  lemma FailsFirstOrder()
    ensures StrictWeak(FailsFirst) && StrictWeak(PassesFirst)
  {
  }

  /** The measurement when ties sort rejections first: some clean pickup, or none. */
  lemma LeastMeasured(results: seq<Probe>, now: int) returns (r: Option<int>)
    ensures IsMeasured(results, now, r)
    ensures forall d :: r.Some? && d <= r.value ==> SomeCleanPickup(results, now, d)
  {
    FailsFirstOrder();
    var cs := TiesSortBefore(results, now, FailsFirst);
    r := WorstAdjacentExists(cs, |cs|);
    assert cs[..|cs|] == cs;
    if r.Some? {
      var i :| PickupAt(cs, i) && GapAt(cs, i) == r.value;
      FailsFirstIsClean(results, now, cs, i);
    }
  }

  /** The measurement when ties sort acceptances first: the worst pickup. */
  lemma GreatestMeasured(results: seq<Probe>, now: int) returns (r: Option<int>)
    ensures IsMeasured(results, now, r) && IsWorstPickup(results, now, r)
  {
    FailsFirstOrder();
    var cs := TiesSortBefore(results, now, PassesFirst);
    r := WorstAdjacentExists(cs, |cs|);
    assert cs[..|cs|] == cs;
    forall f, p | Pickup(results, now, f, p)
      ensures r.Some? && p.runAt - f.runAt <= r.value
    {
      var i := PassesFirstIsComplete(results, now, cs, f, p);
    }
    if r.Some? {
      var i :| PickupAt(cs, i) && GapAt(cs, i) == r.value;
      AdjacentIsPickup(results, now, cs, i);
    }
  }

  /** Every measurement is a pickup's gap. */
  lemma MeasuredIsPickup(results: seq<Probe>, now: int, r: Option<int>)
    requires IsMeasured(results, now, r) && r.Some?
    ensures SomePickup(results, now, r.value)
  {
    var cs :| IsSortOf(cs, Canaries(results, now), Before) && IsWorstAdjacent(cs, r);
    var i :| PickupAt(cs, i) && GapAt(cs, i) == r.value;
    AdjacentIsPickup(results, now, cs, i);
  }

  lemma CleanIsMeasured(results: seq<Probe>, now: int, r: Option<int>, d: int)
    requires IsMeasured(results, now, r) && SomeCleanPickup(results, now, d)
    ensures r.Some? && r.value >= d
  {
    var cs :| IsSortOf(cs, Canaries(results, now), Before) && IsWorstAdjacent(cs, r);
    var f, p :| CleanPickup(results, now, f, p) && p.runAt - f.runAt >= d;
    var i := CleanIsAdjacent(results, now, cs, f, p);
  }

  // ---- what every measurement is worth -----------------------------------------------------------

  /** Every measurement is at least `d`, however ties are sorted, exactly when some clean
      pickup is. */
  lemma MeasuredCoversIff(results: seq<Probe>, now: int, d: int)
    ensures (forall r :: IsMeasured(results, now, r) ==> r.Some? && r.value >= d) <==> SomeCleanPickup(results, now, d)
  {
    if SomeCleanPickup(results, now, d) {
      forall r | IsMeasured(results, now, r)
        ensures r.Some? && r.value >= d
      {
        CleanIsMeasured(results, now, r, d);
      }
    } else {
      var r := LeastMeasured(results, now);
    }
  }

  lemma SettledMatches(results: seq<Probe>, now: int, f: Probe, p: Probe)
    requires Settled(results, now) && Pickup(results, now, f, p)
    ensures SomeCleanPickup(results, now, p.runAt - f.runAt)
  {
    assert SomePickup(results, now, p.runAt - f.runAt);
  }

  lemma SettledMeasures(results: seq<Probe>, now: int, r: Option<int>, f: Probe, p: Probe)
    requires Settled(results, now) && IsMeasured(results, now, r) && Pickup(results, now, f, p)
    ensures r.Some? && p.runAt - f.runAt <= r.value
  {
    SettledMatches(results, now, f, p);
    CleanIsMeasured(results, now, r, p.runAt - f.runAt);
  }

  lemma SettledMeasuresWorst(results: seq<Probe>, now: int, r: Option<int>)
    requires Settled(results, now) && IsMeasured(results, now, r)
    ensures IsWorstPickup(results, now, r)
  {
    forall f, p | Pickup(results, now, f, p)
      ensures r.Some? && p.runAt - f.runAt <= r.value
    {
      SettledMeasures(results, now, r, f, p);
    }
    if r.Some? {
      MeasuredIsPickup(results, now, r);
    }
  }

  /** The measurement is the worst pickup, however ties are sorted, exactly when there is no
      pickup or a longest one is clean. */
  lemma MeasuredIsWorstIff(results: seq<Probe>, now: int)
    ensures (forall r :: IsMeasured(results, now, r) ==> IsWorstPickup(results, now, r)) <==> Settled(results, now)
  {
    if Settled(results, now) {
      forall r | IsMeasured(results, now, r)
        ensures IsWorstPickup(results, now, r)
      {
        SettledMeasuresWorst(results, now, r);
      }
    } else {
      var d :| SomePickup(results, now, d) && !SomeCleanPickup(results, now, d);
      var f, p :| Pickup(results, now, f, p) && p.runAt - f.runAt == d;
      var r := LeastMeasured(results, now);
      assert !IsWorstPickup(results, now, r);
    }
  }

  ghost predicate AtMost(r: Option<int>, q: Option<int>) {
    r.Some? ==> q.Some? && r.value <= q.value
  }

  ghost predicate NeverExceeds(a: seq<Probe>, b: seq<Probe>, now: int) {
    forall r, q :: IsMeasured(a, now, r) && IsMeasured(b, now, q) ==> AtMost(r, q)
  }

  lemma MatchedIsAtMost(a: seq<Probe>, b: seq<Probe>, now: int, r: Option<int>, q: Option<int>)
    requires Matched(a, b, now) && IsMeasured(a, now, r) && IsMeasured(b, now, q)
    ensures AtMost(r, q)
  {
    if r.Some? {
      MeasuredIsPickup(a, now, r);
      CleanIsMeasured(b, now, q, r.value);
    }
  }

  /** No measurement of `a` exceeds one of `b` exactly when every pickup of `a` is matched by
      a clean pickup of `b` that took at least as long. */
  lemma MeasuredAtMostIff(a: seq<Probe>, b: seq<Probe>, now: int)
    ensures NeverExceeds(a, b, now) <==> Matched(a, b, now)
  {
    if Matched(a, b, now) {
      forall r, q | IsMeasured(a, now, r) && IsMeasured(b, now, q)
        ensures AtMost(r, q)
      {
        MatchedIsAtMost(a, b, now, r, q);
      }
    } else {
      var d :| SomePickup(a, now, d) && !SomeCleanPickup(b, now, d);
      var f, p :| Pickup(a, now, f, p) && p.runAt - f.runAt == d;
      var r := GreatestMeasured(a, now);
      var q := LeastMeasured(b, now);
      assert r.Some? && r.value >= d;
      assert !AtMost(r, q);
    }
  }

  /** All measurements of both histories are one. */
  ghost predicate OneMeasure(a: seq<Probe>, b: seq<Probe>, now: int) {
    forall r, q :: IsMeasured(a, now, r) && IsMeasured(b, now, q) ==> r == q
  }

  lemma OneMeasureIff(a: seq<Probe>, b: seq<Probe>, now: int)
    ensures OneMeasure(a, b, now) <==> NeverExceeds(a, b, now) && NeverExceeds(b, a, now)
  {
    if NeverExceeds(a, b, now) && NeverExceeds(b, a, now) {
      forall r, q | IsMeasured(a, now, r) && IsMeasured(b, now, q)
        ensures r == q
      {
        assert AtMost(r, q) && AtMost(q, r);
      }
    }
  }

  /** Histories with the same probes in any order are measured alike, exactly when there is
      no pickup or a longest one is clean. */
  lemma OrderDoesNotMatterIff(a: seq<Probe>, b: seq<Probe>, now: int)
    requires multiset(a) == multiset(b)
    ensures OneMeasure(a, b, now) <==> Settled(a, now)
  {
    SameMembers(a, b);
    SamePickups(a, b, now);
    OneMeasureIff(a, b, now);
    MeasuredAtMostIff(a, b, now);
    MeasuredAtMostIff(b, a, now);
    assert Matched(a, b, now) <==> Settled(a, now);
    assert Matched(b, a, now) <==> Settled(a, now);
  }

  lemma PickupOnlyMembers(a: seq<Probe>, b: seq<Probe>, now: int, d: int)
    requires (forall x :: x in a <==> x in b) && SomePickup(a, now, d)
    ensures SomePickup(b, now, d)
  {
    var f, p :| Pickup(a, now, f, p) && p.runAt - f.runAt == d;
    assert Pickup(b, now, f, p);
  }

  lemma CleanOnlyMembers(a: seq<Probe>, b: seq<Probe>, now: int, d: int)
    requires (forall x :: x in a <==> x in b) && SomeCleanPickup(a, now, d)
    ensures SomeCleanPickup(b, now, d)
  {
    var f, p :| CleanPickup(a, now, f, p) && p.runAt - f.runAt >= d;
    assert CleanPickup(b, now, f, p);
  }

  lemma SamePickups(a: seq<Probe>, b: seq<Probe>, now: int)
    requires forall x :: x in a <==> x in b
    ensures forall d :: SomePickup(a, now, d) <==> SomePickup(b, now, d)
    ensures forall d :: SomeCleanPickup(a, now, d) <==> SomeCleanPickup(b, now, d)
  {
    forall d
      ensures SomePickup(a, now, d) <==> SomePickup(b, now, d)
    {
      if SomePickup(a, now, d) {
        PickupOnlyMembers(a, b, now, d);
      }
      if SomePickup(b, now, d) {
        PickupOnlyMembers(b, a, now, d);
      }
    }
    forall d
      ensures SomeCleanPickup(a, now, d) <==> SomeCleanPickup(b, now, d)
    {
      if SomeCleanPickup(a, now, d) {
        CleanOnlyMembers(a, b, now, d);
      }
      if SomeCleanPickup(b, now, d) {
        CleanOnlyMembers(b, a, now, d);
      }
    }
  }

  /** Every probe of `later` is later than every probe of `results`, as far as fresh. */
  ghost predicate AllLater(results: seq<Probe>, later: seq<Probe>, now: int) {
    forall a, b :: a in results && b in later && IsFresh(a, now) && IsFresh(b, now) ==> a.runAt < b.runAt
  }

  lemma CleanStaysClean(results: seq<Probe>, later: seq<Probe>, now: int, d: int)
    requires AllLater(results, later, now) && SomeCleanPickup(results, now, d)
    ensures SomeCleanPickup(results + later, now, d)
  {
    var f, p :| CleanPickup(results, now, f, p) && p.runAt - f.runAt >= d;
    forall c | c in results + later && IsFresh(c, now) && c.runAt <= p.runAt
      ensures c in results
    {
      assert c in later ==> p.runAt < c.runAt;
    }
    assert CleanPickup(results + later, now, f, p);
  }

  lemma SettledStaysMatched(results: seq<Probe>, later: seq<Probe>, now: int)
    requires AllLater(results, later, now) && Settled(results, now)
    ensures Matched(results, results + later, now)
  {
    forall d | SomePickup(results, now, d)
      ensures SomeCleanPickup(results + later, now, d)
    {
      CleanStaysClean(results, later, now, d);
    }
  }

  ghost predicate NeverShrinks(results: seq<Probe>, now: int) {
    forall later :: AllLater(results, later, now) ==> NeverExceeds(results, results + later, now)
  }

  /** Probing on never makes the measured window smaller, as long as the same probes count as
      fresh: by the probes at hand, exactly when what was picked up so far is matched by a
      clean pickup, early or late; whatever probes may come, exactly when there is no pickup so
      far or a longest one is clean. */
  lemma LaterProbesNeverShrinkIff(results: seq<Probe>, later: seq<Probe>, now: int)
    requires AllLater(results, later, now)
    ensures NeverExceeds(results, results + later, now) <==> Matched(results, results + later, now)
    ensures NeverShrinks(results, now) <==> Settled(results, now)
  {
    MeasuredAtMostIff(results, results + later, now);
    NeverShrinksIff(results, now);
  }

  lemma NeverShrinksIff(results: seq<Probe>, now: int)
    ensures NeverShrinks(results, now) <==> Settled(results, now)
  {
    if Settled(results, now) {
      forall later | AllLater(results, later, now)
        ensures NeverExceeds(results, results + later, now)
      {
        SettledStaysMatched(results, later, now);
        MeasuredAtMostIff(results, results + later, now);
      }
    } else {
      MeasuredAtMostIff(results, results, now);
      assert AllLater(results, [], now) && results + [] == results;
    }
  }

  lemma FourFresh(a: Probe, b: Probe, c: Probe, d: Probe, now: int)
    requires IsFresh(a, now) && IsFresh(b, now) && IsFresh(c, now) && IsFresh(d, now)
    ensures Canaries([a, b, c, d], now) == [a, b, c, d]
  {
    var s := [a, b, c, d];
    assert s[..3] == [a, b, c] && s[..3][..2] == [a, b] && [a, b][..1] == [a] && [a][..0] == [];
    assert Canaries([a], now) == [a];
    assert Canaries([a, b], now) == [a, b];
    assert Canaries([a, b, c], now) == [a, b, c];
  }

  lemma FirstOrder(f: Probe, g: Probe, p: Probe, q: Probe)
    requires f.runAt < g.runAt == p.runAt < q.runAt && !f.passed && !g.passed && p.passed && q.passed
    ensures IsSortOf([f, g, p, q], [f, g, p, q], Before) && IsWorstAdjacent([f, g, p, q], None)
  {
  }

  lemma OtherOrder(f: Probe, g: Probe, p: Probe, q: Probe, worst: int)
    requires f.runAt < g.runAt == p.runAt < q.runAt && !f.passed && !g.passed && p.passed && q.passed
    requires worst == if p.runAt - f.runAt < q.runAt - g.runAt then q.runAt - g.runAt else p.runAt - f.runAt
    ensures multiset([f, p, g, q]) == multiset([f, g, p, q]) && Sorted([f, p, g, q], Before)
    ensures IsWorstAdjacent([f, p, g, q], Some(worst))
  {
    var other := [f, p, g, q];
    assert PickupAt(other, 0) && PickupAt(other, 2);
    assert GapAt(other, 0) == p.runAt - f.runAt && GapAt(other, 2) == q.runAt - g.runAt;
    forall i | PickupAt(other, i)
      ensures i == 0 || i == 2
    {
    }
  }

  /** A failing and a passing probe at one instant between an earlier failure and a later
      success: the sort decides whether any pickup is seen. */
  lemma MixedTieMatters(a: int, t: int, b: int, now: int)
    requires now - FRESHNESS <= a < t < b
    ensures var history := [Probe(CANARY, a, false), Probe(CANARY, t, false), Probe(CANARY, t, true), Probe(CANARY, b, true)];
            && IsMeasured(history, now, None)
            && IsMeasured(history, now, Some(if t - a < b - t then b - t else t - a))
  {
    var f, g, p, q := Probe(CANARY, a, false), Probe(CANARY, t, false), Probe(CANARY, t, true), Probe(CANARY, b, true);
    var worst := if t - a < b - t then b - t else t - a;
    FourFresh(f, g, p, q, now);
    FirstOrder(f, g, p, q);
    OtherOrder(f, g, p, q, worst);
    assert IsSortOf([f, p, g, q], Canaries([f, g, p, q], now), Before);
  }
}
