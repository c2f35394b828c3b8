/** The baseline flow over the in-memory store, and what whole runs of it leave behind. */
module Snapshots {
  import opened Prelude
  import opened Domain
  import opened Diff
  import opened DiffReplay
  import Canon

  // ---- the store ----------------------------------------------------------------

  datatype Contents = Contents(versions: map<string, Version>, order: seq<string>, baseline: string,
                               events: seq<ChangeEvent>)

  const EMPTY: Contents := Contents(map[], [], "", [])

  ghost predicate Consistent(s: Contents) {
    && (forall id :: id in s.order ==> id in s.versions)
    && (s.baseline != "" ==> s.order != [] && s.baseline in s.versions)
  }

  function Saved(s: Contents, v: Version): Contents {
    s.(order := if v.id in s.versions then s.order else s.order + [v.id],
       versions := s.versions[v.id := v],
       baseline := if v.isBaseline && s.baseline == "" then v.id else s.baseline)
  }

  function Latest(s: Contents): Version
    requires Consistent(s) && s.order != []
  {
    s.versions[s.order[|s.order| - 1]]
  }

  class Store {
    var versions: map<string, Version>
    var order: seq<string>
    var baseline: string
    var events: seq<ChangeEvent>

    ghost function View(): Contents
      reads this
    {
      Contents(versions, order, baseline, events)
    }

    constructor ()
      ensures View() == EMPTY
    {
      versions, order, baseline, events := map[], [], "", [];
    }

    method SaveContractVersion(v: Version)
      modifies this
      ensures View() == Saved(old(View()), v)
    {
      if v.id !in versions {
        order := order + [v.id];
      }
      versions := versions[v.id := v];
      if v.isBaseline && baseline == "" {
        baseline := v.id;
      }
    }

    method LatestVersion() returns (r: Option<Version>)
      requires Consistent(View())
      ensures r == if order == [] then None else Some(Latest(View()))
    {
      if order == [] {
        return None;
      }
      return Some(versions[order[|order| - 1]]);
    }

    method BaselineVersion() returns (r: Option<Version>)
      requires Consistent(View())
      ensures r == if baseline == "" then None else Some(versions[baseline])
    {
      if baseline == "" {
        return None;
      }
      return Some(versions[baseline]);
    }

    method SaveChangeEvents(es: seq<ChangeEvent>)
      modifies this`events
      ensures events == old(events) + es
    {
      events := events + es;
    }
  }

  // ---- attribution --------------------------------------------------------------

  /** What binds an event to its cause; an error is no answer. */
  type Attributor = ChangeEvent -> Option<Attribution>

  function Attribute(attr: Attributor, e: ChangeEvent): ChangeEvent {
    match attr(e)
    case Some(a) => if a.kind == "unattributed" then e else e.(attribution := Some(a))
    case None => e
  }

  function AttributeAll(attr: Option<Attributor>, events: seq<ChangeEvent>): seq<ChangeEvent> {
    match attr
    case None => events
    case Some(f) => Map((e: ChangeEvent) => Attribute(f, e), events)
  }

  method AttributeEvents(attr: Attributor, events: seq<ChangeEvent>) returns (out: seq<ChangeEvent>)
    ensures out == AttributeAll(Some(attr), events)
  {
    out := events;
    for i := 0 to |events|
      invariant |out| == |events| && out[i..] == events[i..]
      invariant forall k :: 0 <= k < i ==> out[k] == Attribute(attr, events[k])
    {
      var a := attr(out[i]);
      assert out[i] == out[i..][0] == events[i..][0] == events[i];
      if a.Some? && a.value.kind != "unattributed" {
        out := out[i := out[i].(attribution := Some(a.value))];
      }
    }
  }

  /** `out` is `e` with the answer's attribution, if there is an answer and it attributes. */
  ghost predicate Attributed(e: ChangeEvent, answer: Option<Attribution>, out: ChangeEvent) {
    && (answer.Some? && answer.value.kind != "unattributed" ==> out.attribution == answer)
    && (answer.None? || answer.value.kind == "unattributed" ==> out.attribution == e.attribution)
    && out.(attribution := None) == e.(attribution := None)
  }

  /** Attribution fills in causes, event by event, and changes nothing else. */
  lemma AttributionIs(attr: Option<Attributor>, raw: seq<ChangeEvent>)
    ensures |AttributeAll(attr, raw)| == |raw|
    ensures forall i :: 0 <= i < |raw| ==>
              Attributed(raw[i], if attr.Some? then attr.value(raw[i]) else None, AttributeAll(attr, raw)[i])
  {
  }

  // ---- taking a snapshot ----------------------------------------------------------

  datatype SnapshotResult = SnapshotResult(version: Version, isBaseline: bool, same: bool, events: seq<ChangeEvent>)

  /** The version as stored: its own canonical hash, and perhaps the baseline mark. */
  ghost predicate Stamped(v0: Version, v: Version) {
    && v == v0.(hash := v.hash, isBaseline := v.isBaseline)
    && v.hash.Digest? && Canon.IsCanonical(v0, v.hash.of)
  }

  ghost predicate IsAttributedDiff(attr: Option<Attributor>, from: Version, to: Version, events: seq<ChangeEvent>) {
    exists raw :: IsDiff(from, to, raw) && events == AttributeAll(attr, raw)
  }

  /** One snapshot: no baseline yet, so become it, silently; or the same hash as the
      latest version, so store the observation only; or store version and diff. */
  ghost predicate SnapStep(s: Contents, v0: Version, attr: Option<Attributor>, s': Contents, r: SnapshotResult) {
    && Consistent(s)
    && Stamped(v0, r.version)
    && if s.baseline == "" then
         r == SnapshotResult(r.version, true, false, []) && r.version.isBaseline && s' == Saved(s, r.version)
       else if r.version.hash == Latest(s).hash then
         r == SnapshotResult(r.version, false, true, []) && r.version.isBaseline == v0.isBaseline
           && s' == Saved(s, r.version)
       else
         && r == SnapshotResult(r.version, false, false, r.events) && r.version.isBaseline == v0.isBaseline
         && IsAttributedDiff(attr, Latest(s), r.version, r.events)
         && s' == Saved(s, r.version).(events := s.events + r.events)
  }

  method SnapshotWithAttribution(st: Store, v0: Version, attr: Option<Attributor>) returns (r: SnapshotResult)
    requires Consistent(st.View())
    modifies st
    ensures SnapStep(old(st.View()), v0, attr, st.View(), r)
  {
    var h := Canon.Hash(v0);
    var v := v0.(hash := h);
    var base := st.BaselineVersion();
    if base == None {
      v := v.(isBaseline := true);
      st.SaveContractVersion(v);
      return SnapshotResult(v, true, false, []);
    }
    var latest := st.LatestVersion();
    var prev := latest.value;
    if v.hash == prev.hash {
      st.SaveContractVersion(v);
      return SnapshotResult(v, false, true, []);
    }
    var raw := Compute(prev, v);
    var events := raw;
    if attr.Some? {
      events := AttributeEvents(attr.value, raw);
    }
    st.SaveContractVersion(v);
    if |events| > 0 {
      st.SaveChangeEvents(events);
    }
    r := SnapshotResult(v, false, false, events);
    assert events == AttributeAll(attr, raw);
    assert st.View().events == old(st.View()).events + events;
  }

  // ---- whole runs -----------------------------------------------------------------

  ghost predicate StepAt(attr: Option<Attributor>, vs: seq<Version>, ss: seq<Contents>, rs: seq<SnapshotResult>, i: int)
    requires |ss| == |vs| + 1 && |rs| == |vs|
  {
    0 <= i < |vs| && SnapStep(ss[i], vs[i], attr, ss[i + 1], rs[i])
  }

  ghost predicate IsRun(attr: Option<Attributor>, vs: seq<Version>, ss: seq<Contents>, rs: seq<SnapshotResult>) {
    && |ss| == |vs| + 1 && |rs| == |vs| && ss[0] == EMPTY
    && forall i :: 0 <= i < |vs| ==> StepAt(attr, vs, ss, rs, i)
  }

  ghost predicate FreshAt(vs: seq<Version>, i: int) {
    0 <= i < |vs| && vs[i].id != "" && !vs[i].isBaseline && DistinctStableIDs(vs[i].consumers)
  }

  ghost predicate FreshPair(vs: seq<Version>, i: int, j: int) {
    0 <= i < |vs| && 0 <= j < |vs| && vs[i].id != vs[j].id
  }

  /** Fresh, non-empty version IDs; distinct StableIDs inside each version; none marked baseline. */
  ghost predicate FreshVersions(vs: seq<Version>) {
    && (forall i, j :: 0 <= i < j < |vs| ==> FreshPair(vs, i, j))
    && (forall i :: 0 <= i < |vs| ==> FreshAt(vs, i))
  }

  /** All events of the first `n` results, in order. */
  function Log(rs: seq<SnapshotResult>, n: nat): seq<ChangeEvent>
    requires n <= |rs|
  {
    if n == 0 then [] else Log(rs, n - 1) + rs[n - 1].events
  }

  /** The stored IDs are those of the first `n` versions, in order. */
  ghost predicate HoldsOrder(vs: seq<Version>, s: Contents, n: nat)
    requires n <= |vs|
  {
    && |s.order| == n && (forall i :: 0 <= i < n ==> s.order[i] == vs[i].id)
    && (forall id :: id in s.versions <==> id in s.order)
  }

  /** Each is stored as its snapshot returned it, and the first alone is marked baseline. */
  ghost predicate HoldsVersions(vs: seq<Version>, rs: seq<SnapshotResult>, s: Contents, n: nat)
    requires n <= |vs| == |rs|
  {
    forall i :: 0 <= i < n ==>
      && vs[i].id in s.versions && s.versions[vs[i].id] == rs[i].version
      && (rs[i].version.isBaseline <==> i == 0)
  }

  /** What the store holds after the first `n` snapshots. */
  ghost predicate HoldsRun(vs: seq<Version>, rs: seq<SnapshotResult>, s: Contents, n: nat)
    requires n <= |vs| == |rs|
  {
    && HoldsOrder(vs, s, n)
    && HoldsVersions(vs, rs, s, n)
    && s.baseline == (if n == 0 then "" else vs[0].id)
    && s.events == Log(rs, n)
  }

  lemma StepStamps(attr: Option<Attributor>, vs: seq<Version>, ss: seq<Contents>, rs: seq<SnapshotResult>, i: nat)
    requires IsRun(attr, vs, ss, rs) && i < |vs|
    ensures Stamped(vs[i], rs[i].version) && rs[i].version.consumers == vs[i].consumers
  {
    assert StepAt(attr, vs, ss, rs, i);
  }

  /** The effect of one snapshot of a version with a fresh ID. */
  ghost predicate Grows(s: Contents, s': Contents, r: SnapshotResult) {
    && s'.order == s.order + [r.version.id]
    && s'.versions == s.versions[r.version.id := r.version]
    && s'.baseline == (if s.baseline == "" then r.version.id else s.baseline)
    && s'.events == s.events + r.events
    && (r.version.isBaseline <==> s.baseline == "")
  }

  lemma StepGrows(s: Contents, v0: Version, attr: Option<Attributor>, s': Contents, r: SnapshotResult)
    requires SnapStep(s, v0, attr, s', r) && v0.id !in s.versions && !v0.isBaseline
    ensures Grows(s, s', r) && r.version.id == v0.id
  {
    assert s.events + [] == s.events;
  }

  lemma GrowthHoldsOrder(vs: seq<Version>, s: Contents, s': Contents, r: SnapshotResult, n: nat)
    requires n < |vs| && HoldsOrder(vs, s, n) && r.version.id == vs[n].id && Grows(s, s', r)
    ensures HoldsOrder(vs, s', n + 1)
  {
  }

  lemma GrowthHoldsVersions(vs: seq<Version>, rs: seq<SnapshotResult>, s: Contents, s': Contents, n: nat)
    requires n < |vs| == |rs| && FreshVersions(vs) && HoldsVersions(vs, rs, s, n)
    requires s.baseline == (if n == 0 then "" else vs[0].id)
    requires Grows(s, s', rs[n]) && rs[n].version.id == vs[n].id
    ensures HoldsVersions(vs, rs, s', n + 1)
  {
    forall i | 0 <= i < n + 1
      ensures vs[i].id in s'.versions && s'.versions[vs[i].id] == rs[i].version
    {
      assert i < n ==> FreshPair(vs, i, n);
    }
    assert rs[n].version.isBaseline <==> n == 0 by {
      assert FreshAt(vs, 0);
    }
  }

  lemma GrowthHolds(vs: seq<Version>, rs: seq<SnapshotResult>, s: Contents, s': Contents, n: nat)
    requires n < |vs| == |rs| && FreshVersions(vs) && HoldsRun(vs, rs, s, n)
    requires Grows(s, s', rs[n]) && rs[n].version.id == vs[n].id
    ensures HoldsRun(vs, rs, s', n + 1)
  {
    GrowthHoldsOrder(vs, s, s', rs[n], n);
    GrowthHoldsVersions(vs, rs, s, s', n);
  }

  lemma RunHoldsOneMore(attr: Option<Attributor>, vs: seq<Version>, s: Contents, s': Contents, rs: seq<SnapshotResult>, n: nat)
    requires n < |vs| == |rs| && FreshVersions(vs) && HoldsRun(vs, rs, s, n) && SnapStep(s, vs[n], attr, s', rs[n])
    ensures HoldsRun(vs, rs, s', n + 1)
  {
    assert FreshAt(vs, n) && FreshAt(vs, 0);
    forall k | 0 <= k < |s.order|
      ensures s.order[k] != vs[n].id
    {
      assert s.order[k] == vs[k].id && FreshPair(vs, k, n);
    }
    StepGrows(s, vs[n], attr, s', rs[n]);
    GrowthHolds(vs, rs, s, s', n);
  }

  lemma RunStep(attr: Option<Attributor>, vs: seq<Version>, ss: seq<Contents>, rs: seq<SnapshotResult>, i: nat)
    requires IsRun(attr, vs, ss, rs) && i < |vs|
    ensures SnapStep(ss[i], vs[i], attr, ss[i + 1], rs[i])
  {
    assert StepAt(attr, vs, ss, rs, i);
  }

  lemma NothingHeld(vs: seq<Version>, rs: seq<SnapshotResult>)
    requires |vs| == |rs|
    ensures HoldsRun(vs, rs, EMPTY, 0)
  {
  }

  /** One snapshot takes a store that holds `n` of the run to one that holds one more. */
  ghost predicate Keeps(vs: seq<Version>, rs: seq<SnapshotResult>, s: Contents, s': Contents, n: nat)
    requires n < |vs| == |rs|
  {
    HoldsRun(vs, rs, s, n) ==> HoldsRun(vs, rs, s', n + 1)
  }

  lemma StepKeeps(attr: Option<Attributor>, vs: seq<Version>, s: Contents, s': Contents, rs: seq<SnapshotResult>, n: nat)
    requires n < |vs| == |rs| && FreshVersions(vs) && SnapStep(s, vs[n], attr, s', rs[n])
    ensures Keeps(vs, rs, s, s', n)
  {
    if HoldsRun(vs, rs, s, n) {
      RunHoldsOneMore(attr, vs, s, s', rs, n);
    }
  }

  lemma RunKeeps(attr: Option<Attributor>, vs: seq<Version>, ss: seq<Contents>, rs: seq<SnapshotResult>, n: nat)
    requires IsRun(attr, vs, ss, rs) && FreshVersions(vs) && n < |vs|
    ensures Keeps(vs, rs, ss[n], ss[n + 1], n)
  {
    RunStep(attr, vs, ss, rs, n);
    StepKeeps(attr, vs, ss[n], ss[n + 1], rs, n);
  }

  lemma RunHolds(attr: Option<Attributor>, vs: seq<Version>, ss: seq<Contents>, rs: seq<SnapshotResult>, n: nat)
    requires IsRun(attr, vs, ss, rs) && FreshVersions(vs) && n <= |vs|
    ensures HoldsRun(vs, rs, ss[n], n)
  {
    NothingHeld(vs, rs);
    for k := 0 to n
      invariant HoldsRun(vs, rs, ss[k], k)
    {
      RunKeeps(attr, vs, ss, rs, k);
    }
  }

  lemma RunKeepsLog(attr: Option<Attributor>, vs: seq<Version>, ss: seq<Contents>, rs: seq<SnapshotResult>, n: nat)
    requires IsRun(attr, vs, ss, rs) && FreshVersions(vs) && n <= |vs|
    ensures ss[n].events == Log(rs, n)
  {
    RunHolds(attr, vs, ss, rs, n);
  }

  lemma HeldLatest(vs: seq<Version>, rs: seq<SnapshotResult>, s: Contents, n: nat)
    requires 0 < n <= |vs| == |rs| && HoldsRun(vs, rs, s, n) && Consistent(s) && vs[0].id != ""
    ensures s.baseline != "" && Latest(s) == rs[n - 1].version
  {
    assert s.order[n - 1] == vs[n - 1].id;
  }

  /** Once there is a baseline, a snapshot's events are the attributed diff since the latest
      version, also where the equal-hash shortcut skips the comparison. */
  lemma StepDiffs(s: Contents, v0: Version, attr: Option<Attributor>, s': Contents, r: SnapshotResult, prev: Version)
    requires SnapStep(s, v0, attr, s', r) && s.baseline != "" && Latest(s) == prev
    requires prev.hash.Digest? && Canon.IsCanonical(prev, prev.hash.of)
    requires DistinctStableIDs(prev.consumers) && DistinctStableIDs(v0.consumers)
    ensures IsAttributedDiff(attr, prev, r.version, r.events)
    ensures r.same <==> prev.hash == r.version.hash
  {
    if r.version.hash == prev.hash {
      StampedIsCanonical(v0, r.version);
      EqualHashNoEvents(prev, r.version, prev.hash.of, []);
      assert AttributeAll(attr, []) == [];
    }
  }

  lemma StampedIsCanonical(v0: Version, v: Version)
    requires Stamped(v0, v)
    ensures v.hash.Digest? && Canon.IsCanonical(v, v.hash.of) && v.consumers == v0.consumers
  {
  }

  /** Every step's events are the attributed diff of consecutive stored versions. */
  lemma StepIsDiff(attr: Option<Attributor>, vs: seq<Version>, ss: seq<Contents>, rs: seq<SnapshotResult>, i: nat)
    requires IsRun(attr, vs, ss, rs) && FreshVersions(vs) && i + 1 < |vs|
    ensures IsAttributedDiff(attr, rs[i].version, rs[i + 1].version, rs[i + 1].events)
    ensures rs[i + 1].same <==> rs[i].version.hash == rs[i + 1].version.hash
  {
    RunStep(attr, vs, ss, rs, i);
    RunStep(attr, vs, ss, rs, i + 1);
    RunIsAtLatest(attr, vs, ss, rs, i + 1);
    assert FreshAt(vs, i) && FreshAt(vs, i + 1);
    StampedIsCanonical(vs[i], rs[i].version);
    StepDiffs(ss[i + 1], vs[i + 1], attr, ss[i + 2], rs[i + 1], rs[i].version);
  }

  lemma RunIsAtLatest(attr: Option<Attributor>, vs: seq<Version>, ss: seq<Contents>, rs: seq<SnapshotResult>, n: nat)
    requires IsRun(attr, vs, ss, rs) && FreshVersions(vs) && 0 < n < |vs|
    ensures Consistent(ss[n]) && ss[n].baseline != "" && Latest(ss[n]) == rs[n - 1].version
  {
    RunHolds(attr, vs, ss, rs, n);
    RunStep(attr, vs, ss, rs, n);
    assert FreshAt(vs, 0);
    HeldLatest(vs, rs, ss[n], n);
  }

  /** The baseline flow over a whole run: one baseline, the first save, with no events;
      versions stored in order; and the log is the concatenation, over consecutive
      stored versions, of their diffs. */
  lemma RunLogsAllDiffs(attr: Option<Attributor>, vs: seq<Version>, ss: seq<Contents>, rs: seq<SnapshotResult>)
    requires IsRun(attr, vs, ss, rs) && FreshVersions(vs) && vs != []
    ensures HoldsRun(vs, rs, ss[|vs|], |vs|)
    ensures rs[0].isBaseline && rs[0].events == []
    ensures forall i :: 0 <= i < |vs| - 1 ==>
              IsAttributedDiff(attr, rs[i].version, rs[i + 1].version, rs[i + 1].events)
  {
    RunHolds(attr, vs, ss, rs, |vs|);
    FirstIsSilent(attr, vs, ss, rs);
    forall i | 0 <= i < |vs| - 1
      ensures IsAttributedDiff(attr, rs[i].version, rs[i + 1].version, rs[i + 1].events)
    {
      StepIsDiff(attr, vs, ss, rs, i);
    }
  }

  lemma FirstIsSilent(attr: Option<Attributor>, vs: seq<Version>, ss: seq<Contents>, rs: seq<SnapshotResult>)
    requires IsRun(attr, vs, ss, rs) && vs != []
    ensures rs[0].isBaseline && rs[0].events == [] && Log(rs, 1) == []
  {
    assert StepAt(attr, vs, ss, rs, 0);
    assert Log(rs, 1) == Log(rs, 0) + rs[0].events;
  }

  // ---- replaying the log ------------------------------------------------------------

  lemma {:induction false} AttributedEventsOf(attr: Option<Attributor>, raw: seq<ChangeEvent>, id: string)
    ensures EventsOf(AttributeAll(attr, raw), id) == AttributeAll(attr, EventsOf(raw, id))
  {
    if raw != [] {
      var init := raw[..|raw| - 1];
      AttributedEventsOf(attr, init, id);
      assert AttributeAll(attr, raw)[..|raw| - 1] == AttributeAll(attr, init);
    }
  }

  lemma {:induction false} AttributedReplay(attr: Option<Attributor>, v: View, raw: seq<ChangeEvent>)
    ensures Replay(v, AttributeAll(attr, raw)) == Replay(v, raw)
  {
    if raw != [] {
      var init := raw[..|raw| - 1];
      AttributedReplay(attr, v, init);
      assert AttributeAll(attr, raw)[..|raw| - 1] == AttributeAll(attr, init);
    }
  }

  lemma AttributedDiffReplays(attr: Option<Attributor>, from: Version, to: Version, events: seq<ChangeEvent>, id: string)
    requires IsAttributedDiff(attr, from, to, events)
    requires id in Index(from.consumers) && id in Index(to.consumers)
    ensures Replay(ViewOf(Index(from.consumers)[id]), EventsOf(events, id)) == ViewOf(Index(to.consumers)[id])
  {
    var raw :| IsDiff(from, to, raw) && events == AttributeAll(attr, raw);
    AttributedEventsOf(attr, raw, id);
    AttributedReplay(attr, ViewOf(Index(from.consumers)[id]), EventsOf(raw, id));
    DiffReplays(from, to, raw, id);
  }

  lemma FirstLeavesNoEvents(attr: Option<Attributor>, vs: seq<Version>, ss: seq<Contents>, rs: seq<SnapshotResult>)
    requires IsRun(attr, vs, ss, rs) && FreshVersions(vs) && vs != []
    ensures ss[1].events == []
  {
    FirstIsSilent(attr, vs, ss, rs);
    RunKeepsLog(attr, vs, ss, rs, 1);
  }

  /** The stored log after one more snapshot, for one consumer: one more step's events. */
  lemma LogSplits(attr: Option<Attributor>, vs: seq<Version>, ss: seq<Contents>, rs: seq<SnapshotResult>, id: string, n: nat)
    requires IsRun(attr, vs, ss, rs) && FreshVersions(vs) && 0 < n <= |vs|
    ensures n > 1 ==> EventsOf(ss[n].events, id) == EventsOf(ss[n - 1].events, id) + EventsOf(rs[n - 1].events, id)
    ensures n > 1 ==> rs[n - 2].version.consumers == vs[n - 2].consumers
    ensures rs[n - 1].version.consumers == vs[n - 1].consumers
  {
    RunKeepsLog(attr, vs, ss, rs, n);
    RunKeepsLog(attr, vs, ss, rs, n - 1);
    StepStamps(attr, vs, ss, rs, n - 1);
    if n > 1 {
      StepStamps(attr, vs, ss, rs, n - 2);
    }
    EventsOfConcat(Log(rs, n - 1), rs[n - 1].events, id);
  }

  /** Diffing two versions whose consumers are those of `a` and `b`, seen by one consumer. */
  lemma DiffReplaysFor(attr: Option<Attributor>, from: Version, to: Version, a: Version, b: Version,
                       step: seq<ChangeEvent>, id: string)
    requires IsAttributedDiff(attr, from, to, step) && from.consumers == a.consumers && to.consumers == b.consumers
    requires id in Index(a.consumers) && id in Index(b.consumers)
    ensures Replay(ViewOf(Index(a.consumers)[id]), EventsOf(step, id)) == ViewOf(Index(b.consumers)[id])
  {
    AttributedDiffReplays(attr, from, to, step, id);
  }

  lemma StepReplays(attr: Option<Attributor>, vs: seq<Version>, ss: seq<Contents>,
                    rs: seq<SnapshotResult>, id: string, i: nat)
    requires IsRun(attr, vs, ss, rs) && FreshVersions(vs) && i + 1 < |vs|
    requires id in Index(vs[i].consumers) && id in Index(vs[i + 1].consumers)
    ensures Replay(ViewOf(Index(vs[i].consumers)[id]), EventsOf(rs[i + 1].events, id)) == ViewOf(Index(vs[i + 1].consumers)[id])
  {
    StepIsDiff(attr, vs, ss, rs, i);
    StepStamps(attr, vs, ss, rs, i);
    StepStamps(attr, vs, ss, rs, i + 1);
    DiffReplaysFor(attr, rs[i].version, rs[i + 1].version, vs[i], vs[i + 1], rs[i + 1].events, id);
  }

  /** Snapshot `k` appends to the log for `id` what takes the previous view to the next. */
  ghost predicate ReplayLink(vs: seq<Version>, ss: seq<Contents>, rs: seq<SnapshotResult>, id: string, k: int)
    requires |ss| == |vs| + 1 && |rs| == |vs|
  {
    && 0 < k < |vs| && id in Index(vs[k - 1].consumers) && id in Index(vs[k].consumers)
    && EventsOf(ss[k + 1].events, id) == EventsOf(ss[k].events, id) + EventsOf(rs[k].events, id)
    && Replay(ViewOf(Index(vs[k - 1].consumers)[id]), EventsOf(rs[k].events, id)) == ViewOf(Index(vs[k].consumers)[id])
  }

  lemma StepIsLink(attr: Option<Attributor>, vs: seq<Version>, ss: seq<Contents>, rs: seq<SnapshotResult>, id: string, k: nat)
    requires IsRun(attr, vs, ss, rs) && FreshVersions(vs) && 0 < k < |vs|
    requires id in Index(vs[k - 1].consumers) && id in Index(vs[k].consumers)
    ensures ReplayLink(vs, ss, rs, id, k)
  {
    LogSplits(attr, vs, ss, rs, id, k + 1);
    StepReplays(attr, vs, ss, rs, id, k - 1);
  }

  lemma {:induction false} ReplayChain(vs: seq<Version>, ss: seq<Contents>, rs: seq<SnapshotResult>, id: string, n: nat)
    requires |ss| == |vs| + 1 && |rs| == |vs| && n < |vs| && ss[1].events == [] && id in Index(vs[0].consumers)
    requires forall k :: 0 < k <= n ==> ReplayLink(vs, ss, rs, id, k)
    ensures id in Index(vs[n].consumers)
    ensures Replay(ViewOf(Index(vs[0].consumers)[id]), EventsOf(ss[n + 1].events, id)) == ViewOf(Index(vs[n].consumers)[id])
  {
    if n > 0 {
      ReplayChain(vs, ss, rs, id, n - 1);
      assert ReplayLink(vs, ss, rs, id, n);
      ReplayConcat(ViewOf(Index(vs[0].consumers)[id]), EventsOf(ss[n].events, id), EventsOf(rs[n].events, id));
    }
  }

  lemma LogReconstructsTo(attr: Option<Attributor>, vs: seq<Version>, ss: seq<Contents>,
                          rs: seq<SnapshotResult>, id: string, m: nat)
    requires IsRun(attr, vs, ss, rs) && FreshVersions(vs) && m < |vs|
    requires forall i :: 0 <= i <= m ==> id in Index(vs[i].consumers)
    ensures Replay(ViewOf(Index(vs[0].consumers)[id]), EventsOf(ss[m + 1].events, id)) == ViewOf(Index(vs[m].consumers)[id])
  {
    FirstLeavesNoEvents(attr, vs, ss, rs);
    StepsAreLinks(attr, vs, ss, rs, id, m);
    ReplayChain(vs, ss, rs, id, m);
  }

  /** Folding the stored log over the baseline reconstructs the current expectations of
      every consumer that was there throughout. */
  lemma LogReconstructs(attr: Option<Attributor>, vs: seq<Version>, ss: seq<Contents>,
                        rs: seq<SnapshotResult>, id: string, n: nat)
    requires IsRun(attr, vs, ss, rs) && FreshVersions(vs) && 0 < n <= |vs|
    requires forall i :: 0 <= i < n ==> id in Index(vs[i].consumers)
    ensures Replay(ViewOf(Index(vs[0].consumers)[id]), EventsOf(ss[n].events, id))
            == ViewOf(Index(vs[n - 1].consumers)[id])
  {
    LogReconstructsTo(attr, vs, ss, rs, id, n - 1);
  }

  lemma StepsAreLinks(attr: Option<Attributor>, vs: seq<Version>, ss: seq<Contents>,
                      rs: seq<SnapshotResult>, id: string, m: nat)
    requires IsRun(attr, vs, ss, rs) && FreshVersions(vs) && m < |vs|
    requires forall i :: 0 <= i <= m ==> id in Index(vs[i].consumers)
    ensures forall k :: 0 < k <= m ==> ReplayLink(vs, ss, rs, id, k)
  {
    forall k | 0 < k <= m
      ensures ReplayLink(vs, ss, rs, id, k)
    {
      StepIsLink(attr, vs, ss, rs, id, k);
    }
  }

  // ---- conservation over a run --------------------------------------------------------

  lemma {:induction false} AttributedNet(attr: Option<Attributor>, raw: seq<ChangeEvent>, f: Field)
    ensures Net(AttributeAll(attr, raw), f) == Net(raw, f)
  {
    if raw != [] {
      var init := raw[..|raw| - 1];
      AttributedNet(attr, init, f);
      assert AttributeAll(attr, raw)[..|raw| - 1] == AttributeAll(attr, init);
    }
  }

  lemma AttributedDiffNet(attr: Option<Attributor>, from: Version, to: Version, events: seq<ChangeEvent>, id: string, f: Field)
    requires IsAttributedDiff(attr, from, to, events) && IsSetField(f)
    requires id in Index(from.consumers) && id in Index(to.consumers)
    requires Distinct(ListOf(Index(from.consumers)[id].expects, f)) && Distinct(ListOf(Index(to.consumers)[id].expects, f))
    ensures Net(EventsOf(events, id), f) ==
            |ListOf(Index(to.consumers)[id].expects, f)| - |ListOf(Index(from.consumers)[id].expects, f)|
  {
    var raw :| IsDiff(from, to, raw) && events == AttributeAll(attr, raw);
    AttributedEventsOf(attr, raw, id);
    AttributedNet(attr, EventsOf(raw, id), f);
    assert EventsOf(raw, id) == Expected(from, to, id);
    NetOfConsumer(Span(from.id, to.id), Index(from.consumers)[id], Index(to.consumers)[id], f);
  }

  lemma DiffNetFor(attr: Option<Attributor>, from: Version, to: Version, a: Version, b: Version,
                   step: seq<ChangeEvent>, id: string, f: Field)
    requires IsAttributedDiff(attr, from, to, step) && from.consumers == a.consumers && to.consumers == b.consumers
    requires id in Index(a.consumers) && id in Index(b.consumers) && IsSetField(f)
    requires Distinct(ListOf(Index(a.consumers)[id].expects, f)) && Distinct(ListOf(Index(b.consumers)[id].expects, f))
    ensures Net(EventsOf(step, id), f) ==
            |ListOf(Index(b.consumers)[id].expects, f)| - |ListOf(Index(a.consumers)[id].expects, f)|
  {
    AttributedDiffNet(attr, from, to, step, id, f);
  }

  lemma StepConserves(attr: Option<Attributor>, vs: seq<Version>, ss: seq<Contents>,
                      rs: seq<SnapshotResult>, id: string, f: Field, i: nat)
    requires IsRun(attr, vs, ss, rs) && FreshVersions(vs) && i + 1 < |vs| && IsSetField(f)
    requires id in Index(vs[i].consumers) && id in Index(vs[i + 1].consumers)
    requires Distinct(ListOf(Index(vs[i].consumers)[id].expects, f))
    requires Distinct(ListOf(Index(vs[i + 1].consumers)[id].expects, f))
    ensures Net(EventsOf(rs[i + 1].events, id), f) ==
            |ListOf(Index(vs[i + 1].consumers)[id].expects, f)| - |ListOf(Index(vs[i].consumers)[id].expects, f)|
  {
    StepIsDiff(attr, vs, ss, rs, i);
    StepStamps(attr, vs, ss, rs, i);
    StepStamps(attr, vs, ss, rs, i + 1);
    DiffNetFor(attr, rs[i].version, rs[i + 1].version, vs[i], vs[i + 1], rs[i + 1].events, id, f);
  }

  /** The list `f` of consumer `id` in a version. */
  function ListIn(v: Version, id: string, f: Field): seq<string>
    requires IsSetField(f) && id in Index(v.consumers)
  {
    ListOf(Index(v.consumers)[id].expects, f)
  }

  /** Snapshot `k` appends to the log for `id` events that net to the growth of `f`. */
  ghost predicate NetLink(vs: seq<Version>, ss: seq<Contents>, rs: seq<SnapshotResult>, id: string, f: Field, k: int)
    requires |ss| == |vs| + 1 && |rs| == |vs| && IsSetField(f)
  {
    && 0 < k < |vs| && id in Index(vs[k - 1].consumers) && id in Index(vs[k].consumers)
    && EventsOf(ss[k + 1].events, id) == EventsOf(ss[k].events, id) + EventsOf(rs[k].events, id)
    && Net(EventsOf(rs[k].events, id), f) == |ListIn(vs[k], id, f)| - |ListIn(vs[k - 1], id, f)|
  }

  lemma StepIsNetLink(attr: Option<Attributor>, vs: seq<Version>, ss: seq<Contents>, rs: seq<SnapshotResult>,
                      id: string, f: Field, k: nat)
    requires IsRun(attr, vs, ss, rs) && FreshVersions(vs) && 0 < k < |vs| && IsSetField(f)
    requires id in Index(vs[k - 1].consumers) && Distinct(ListIn(vs[k - 1], id, f))
    requires id in Index(vs[k].consumers) && Distinct(ListIn(vs[k], id, f))
    ensures NetLink(vs, ss, rs, id, f, k)
  {
    LogSplits(attr, vs, ss, rs, id, k + 1);
    StepConserves(attr, vs, ss, rs, id, f, k - 1);
  }

  lemma {:induction false} NetChain(vs: seq<Version>, ss: seq<Contents>, rs: seq<SnapshotResult>, id: string, f: Field, n: nat)
    requires |ss| == |vs| + 1 && |rs| == |vs| && n < |vs| && ss[1].events == [] && IsSetField(f)
    requires id in Index(vs[0].consumers) && forall k :: 0 < k <= n ==> NetLink(vs, ss, rs, id, f, k)
    ensures id in Index(vs[n].consumers)
    ensures Net(EventsOf(ss[n + 1].events, id), f) == |ListIn(vs[n], id, f)| - |ListIn(vs[0], id, f)|
  {
    if n > 0 {
      NetChain(vs, ss, rs, id, f, n - 1);
      assert NetLink(vs, ss, rs, id, f, n);
      NetConcat(EventsOf(ss[n].events, id), EventsOf(rs[n].events, id), f);
    }
  }

  lemma LogConservesTo(attr: Option<Attributor>, vs: seq<Version>, ss: seq<Contents>,
                       rs: seq<SnapshotResult>, id: string, f: Field, m: nat)
    requires IsRun(attr, vs, ss, rs) && FreshVersions(vs) && m < |vs| && IsSetField(f)
    requires forall i :: 0 <= i <= m ==> id in Index(vs[i].consumers) && Distinct(ListIn(vs[i], id, f))
    ensures Net(EventsOf(ss[m + 1].events, id), f) == |ListIn(vs[m], id, f)| - |ListIn(vs[0], id, f)|
  {
    FirstLeavesNoEvents(attr, vs, ss, rs);
    StepsAreNetLinks(attr, vs, ss, rs, id, f, m);
    NetChain(vs, ss, rs, id, f, m);
  }

  /** Over a run, the log's additions minus removals for a list of a consumer present
      throughout are the growth of that list since the baseline. */
  lemma LogConserves(attr: Option<Attributor>, vs: seq<Version>, ss: seq<Contents>,
                     rs: seq<SnapshotResult>, id: string, f: Field, n: nat)
    requires IsRun(attr, vs, ss, rs) && FreshVersions(vs) && 0 < n <= |vs| && IsSetField(f)
    requires forall i :: 0 <= i < n ==> id in Index(vs[i].consumers) && Distinct(ListIn(vs[i], id, f))
    ensures Net(EventsOf(ss[n].events, id), f) == |ListIn(vs[n - 1], id, f)| - |ListIn(vs[0], id, f)|
  {
    LogConservesTo(attr, vs, ss, rs, id, f, n - 1);
  }

  lemma StepsAreNetLinks(attr: Option<Attributor>, vs: seq<Version>, ss: seq<Contents>,
                         rs: seq<SnapshotResult>, id: string, f: Field, m: nat)
    requires IsRun(attr, vs, ss, rs) && FreshVersions(vs) && m < |vs| && IsSetField(f)
    requires forall i :: 0 <= i <= m ==> id in Index(vs[i].consumers) && Distinct(ListIn(vs[i], id, f))
    ensures forall k :: 0 < k <= m ==> NetLink(vs, ss, rs, id, f, k)
  {
    forall k | 0 < k <= m
      ensures NetLink(vs, ss, rs, id, f, k)
    {
      StepIsNetLink(attr, vs, ss, rs, id, f, k);
    }
  }
}
