/** Who breaks when a signing key is rotated or retired, and for how long the old key must
    stay published. */
module BlastRadius {
  import opened Prelude
  import opened Domain
  import opened PickupWindow

  const SECOND: int := 1_000_000_000
  const GRACE_FLOOR: int := HOUR
  const GRACE_CEILING: int := 30 * 24 * HOUR

  // ---- the grace period -------------------------------------------------------------------

  /** What one refresh window asks for: half as much again, up to the ceiling. */
  function Asked(w: int): int {
    if 3 * w / 2 > GRACE_CEILING then GRACE_CEILING else 3 * w / 2
  }

  /** The least period within the bounds that gives every window what it asks for. */
  ghost predicate IsGrace(windows: seq<int>, r: int) {
    && GRACE_FLOOR <= r <= GRACE_CEILING
    && (forall w :: w in windows ==> Asked(w) <= r)
    && (r == GRACE_FLOOR || exists w :: w in windows && r == Asked(w))
  }

  method GracePeriod(windows: seq<int>) returns (rec: int)
    ensures IsGrace(windows, rec)
  {
    var maxW := 0;
    for i := 0 to |windows|
      invariant maxW >= 0 && forall w :: w in windows[..i] ==> w <= maxW
      invariant maxW == 0 || maxW in windows[..i]
    {
      assert windows[..i + 1] == windows[..i] + [windows[i]];
      if windows[i] > maxW {
        maxW := windows[i];
      }
    }
    assert windows[..|windows|] == windows;
    rec := 3 * maxW / 2;
    if rec < GRACE_FLOOR {
      rec := GRACE_FLOOR;
    }
    if rec > GRACE_CEILING {
      rec := GRACE_CEILING;
    }
  }

  lemma GraceIsLeast(windows: seq<int>, r: int, q: int)
    requires IsGrace(windows, r) && GRACE_FLOOR <= q && forall w :: w in windows ==> Asked(w) <= q
    ensures r <= q
  {
  }

  /** More windows never shorten the period. */
  lemma GraceGrows(windows: seq<int>, more: seq<int>, r: int, q: int)
    requires IsGrace(windows, r) && IsGrace(more, q) && forall w :: w in windows ==> w in more
    ensures r <= q
  {
    GraceIsLeast(windows, r, q);
  }

  // ---- the freshest canary ----------------------------------------------------------------

  /** The latest fresh canary; of several at that instant, the first recorded. */
  ghost predicate IsFreshest(results: seq<Probe>, now: int, r: Option<Probe>) {
    && (r.None? ==> forall c :: c in results ==> !IsFresh(c, now))
    && (r.Some? ==> exists i :: FreshestAt(results, now, i) && results[i] == r.value)
  }

  ghost predicate FreshestAt(results: seq<Probe>, now: int, i: int) {
    && 0 <= i < |results| && IsFresh(results[i], now)
    && (forall j :: 0 <= j < i && IsFresh(results[j], now) ==> results[j].runAt < results[i].runAt)
    && forall j :: i < j < |results| && IsFresh(results[j], now) ==> results[j].runAt <= results[i].runAt
  }

  method FreshCanary(results: seq<Probe>, now: int) returns (best: Option<Probe>)
    ensures IsFreshest(results, now, best)
  {
    best := None;
    for i := 0 to |results|
      invariant IsFreshest(results[..i], now, best)
    {
      var r := results[i];
      ghost var was, is_ := results[..i], results[..i + 1];
      assert is_ == was + [r];
      if r.id != CANARY || now - r.runAt > FRESHNESS {
        FreshestStays(was, r, now, best);
        continue;
      }
      if best.None? || r.runAt > best.value.runAt {
        FreshestMoves(was, r, now, best);
        best := Some(r);
      } else {
        FreshestStays(was, r, now, best);
      }
    }
    assert results[..|results|] == results;
  }

  lemma FreshestStays(was: seq<Probe>, r: Probe, now: int, best: Option<Probe>)
    requires IsFreshest(was, now, best) && (IsFresh(r, now) ==> best.Some? && r.runAt <= best.value.runAt)
    ensures IsFreshest(was + [r], now, best)
  {
    if best.Some? {
      var i :| FreshestAt(was, now, i) && was[i] == best.value;
      assert FreshestAt(was + [r], now, i);
    }
  }

  lemma FreshestMoves(was: seq<Probe>, r: Probe, now: int, best: Option<Probe>)
    requires IsFreshest(was, now, best) && IsFresh(r, now) && (best.None? || r.runAt > best.value.runAt)
    ensures IsFreshest(was + [r], now, Some(r))
  {
    if best.Some? {
      var i :| FreshestAt(was, now, i) && was[i] == best.value;
      forall j | 0 <= j < |was| && IsFresh(was[j], now)
        ensures was[j].runAt < r.runAt
      {
        assert was[j].runAt <= was[i].runAt;
      }
    }
    assert FreshestAt(was + [r], now, |was|);
  }

  lemma FreshestIsUnique(results: seq<Probe>, now: int, r: Option<Probe>, q: Option<Probe>)
    requires IsFreshest(results, now, r) && IsFreshest(results, now, q)
    ensures r == q
  {
    if r.Some? && q.Some? {
      var i :| FreshestAt(results, now, i) && results[i] == r.value;
      var j :| FreshestAt(results, now, j) && results[j] == q.value;
    }
  }

  // ---- one consumer -----------------------------------------------------------------------

  datatype Verdict = WillBreak | Ready | Unknown

  datatype Reason =
    | CanaryAccepted
    | CanaryAcceptedAfter(pickup: int)
    | CanaryRejected
    | NoRefresh
    | RefreshesAfter(ttlSec: int)
    | InsufficientEvidence

  datatype Evidence = ProbeRun(id: string) | Lib(name: string, version: string) | Source(source: string) | NoEvidence

  datatype Affected = Affected(consumer: Consumer, verdict: Verdict, reason: Reason, evidence: Evidence, confidence: real)

  /** A refresh window, and whether it was observed rather than configured. */
  datatype Windowed = Windowed(stableID: string, window: int, measured: bool)

  function ReadyWindow(c: Consumer): Option<int> {
    if c.jwks.cacheTTLSec.Some? then Some(c.jwks.cacheTTLSec.value * SECOND)
    else if c.jwks.refreshIntervalSec.Some? then Some(c.jwks.refreshIntervalSec.value * SECOND)
    else None
  }

  function LibEvidence(c: Consumer): Evidence {
    if c.library.Some? then Lib(c.library.value.name, c.library.value.version) else Source(c.jwks.source)
  }

  /** The verdict on one consumer, given its freshest canary and its measured pickup. */
  function Judge(c: Consumer, latest: Option<Probe>, pickup: Option<int>): Affected {
    if latest.Some? then
      if latest.value.passed then
        Affected(c, Ready, if pickup.Some? then CanaryAcceptedAfter(pickup.value) else CanaryAccepted,
                 ProbeRun(latest.value.id), 1.0)
      else
        Affected(c, WillBreak, CanaryRejected, ProbeRun(latest.value.id), 1.0)
    else if c.jwks.refreshesOnUnknownKID == Some(false) then
      Affected(c, WillBreak, NoRefresh, LibEvidence(c), 0.8)
    else if c.jwks.cacheTTLSec.Some? then
      Affected(c, Ready, RefreshesAfter(c.jwks.cacheTTLSec.value), Source(c.jwks.source), 0.7)
    else
      Affected(c, Unknown, InsufficientEvidence, NoEvidence, 0.0)
  }

  function WindowOf(c: Consumer, latest: Option<Probe>, pickup: Option<int>): Option<Windowed> {
    if Judge(c, latest, pickup).verdict != Ready then None
    else if latest.Some? && pickup.Some? then Some(Windowed(c.stableID, pickup.value, true))
    else if ReadyWindow(c).Some? then Some(Windowed(c.stableID, ReadyWindow(c).value, false))
    else None
  }

  type History = map<string, seq<Probe>>

  function ProbesOf(h: History, c: Consumer): seq<Probe> {
    if c.stableID in h then h[c.stableID] else []
  }

  /** What was found out about one consumer. */
  datatype Finding = Finding(latest: Option<Probe>, pickup: Option<int>)

  ghost predicate IsFinding(c: Consumer, h: History, now: int, f: Finding) {
    && IsFreshest(ProbesOf(h, c), now, f.latest)
    && (f.latest.Some? && f.latest.value.passed ==> IsMeasured(ProbesOf(h, c), now, f.pickup))
  }

  // ---- all consumers of an issuer -------------------------------------------------------------

  /** The URL an issuer ID or name stands for; unknown, it stands for itself. */
  function IssuerURL(issuers: seq<Issuer>, issuerID: string): string {
    if issuers == [] then issuerID
    else if issuers[0].id == issuerID || issuers[0].name == issuerID then issuers[0].url
    else IssuerURL(issuers[1..], issuerID)
  }

  predicate UsesIssuer(c: Consumer, url: string) {
    url != "" && url in c.expects.issuers
  }

  /** The consumers of an issuer, in order. */
  function Users(cs: seq<Consumer>, url: string): seq<Consumer> {
    if cs == [] then [] else
      Users(cs[..|cs| - 1], url) + if UsesIssuer(cs[|cs| - 1], url) then [cs[|cs| - 1]] else []
  }

  ghost predicate AreFindings(users: seq<Consumer>, h: History, now: int, fs: seq<Finding>) {
    |fs| == |users| && forall i :: 0 <= i < |users| ==> IsFinding(users[i], h, now, fs[i])
  }

  function Verdicts(users: seq<Consumer>, fs: seq<Finding>): (r: seq<Affected>)
    requires |users| == |fs|
    ensures |r| == |users|
  {
    seq(|users|, i requires 0 <= i < |users| => Judge(users[i], fs[i].latest, fs[i].pickup))
  }

  function Undecided(users: seq<Consumer>, fs: seq<Finding>): seq<Consumer>
    requires |users| == |fs|
  {
    if users == [] then [] else
      var n := |users| - 1;
      Undecided(users[..n], fs[..n]) +
        if Judge(users[n], fs[n].latest, fs[n].pickup).verdict == Unknown then [users[n]] else []
  }

  function Windows(users: seq<Consumer>, fs: seq<Finding>): seq<Windowed>
    requires |users| == |fs|
  {
    if users == [] then [] else
      var n := |users| - 1;
      var w := WindowOf(users[n], fs[n].latest, fs[n].pickup);
      Windows(users[..n], fs[..n]) + if w.Some? then [w.value] else []
  }

  method FindIssuerURL(issuers: seq<Issuer>, issuerID: string) returns (url: string)
    ensures url == IssuerURL(issuers, issuerID)
  {
    for i := 0 to |issuers|
      invariant IssuerURL(issuers, issuerID) == IssuerURL(issuers[i..], issuerID)
    {
      if issuers[i].id == issuerID || issuers[i].name == issuerID {
        return issuers[i].url;
      }
    }
    return issuerID;
  }

  /** The three lists for the consumers of the issuer, given what was found out. */
  ghost predicate IsRotation(users: seq<Consumer>, h: History, now: int, fs: seq<Finding>,
                             affected: seq<Affected>, unknown: seq<Consumer>, windows: seq<Windowed>) {
    && AreFindings(users, h, now, fs)
    && affected == Verdicts(users, fs) && unknown == Undecided(users, fs) && windows == Windows(users, fs)
  }

  method ResolveRotateKey(v: Version, issuerID: string, h: History, now: int)
    returns (affected: seq<Affected>, unknown: seq<Consumer>, windows: seq<Windowed>)
    ensures exists fs ::
              IsRotation(Users(v.consumers, IssuerURL(v.issuers, issuerID)), h, now, fs, affected, unknown, windows)
  {
    var url := FindIssuerURL(v.issuers, issuerID);
    affected, unknown, windows := [], [], [];
    ghost var fs: seq<Finding> := [];
    for i := 0 to |v.consumers|
      invariant IsRotation(Users(v.consumers[..i], url), h, now, fs, affected, unknown, windows)
    {
      var c := v.consumers[i];
      UsersNext(v.consumers, i, url);
      if !UsesIssuer(c, url) {
        continue;
      }
      var ac, u, w := JudgeOne(c, h, now);
      ghost var f :| IsVerdict(c, h, now, f, ac, u, w);
      RotationExtends(Users(v.consumers[..i], url), h, now, fs, affected, unknown, windows, c, f, ac, u, w);
      affected, unknown, windows, fs := affected + [ac], unknown + u, windows + w, fs + [f];
    }
    assert v.consumers[..|v.consumers|] == v.consumers;
  }

  lemma UsersNext(cs: seq<Consumer>, i: nat, url: string)
    requires i < |cs|
    ensures Users(cs[..i + 1], url) == if UsesIssuer(cs[i], url) then Users(cs[..i], url) + [cs[i]] else Users(cs[..i], url)
  {
    assert cs[..i + 1][..i] == cs[..i];
  }

  lemma RotationExtends(users: seq<Consumer>, h: History, now: int, fs: seq<Finding>,
                        affected: seq<Affected>, unknown: seq<Consumer>, windows: seq<Windowed>,
                        c: Consumer, f: Finding, ac: Affected, u: seq<Consumer>, w: seq<Windowed>)
    requires IsRotation(users, h, now, fs, affected, unknown, windows) && IsVerdict(c, h, now, f, ac, u, w)
    ensures IsRotation(users + [c], h, now, fs + [f], affected + [ac], unknown + u, windows + w)
  {
    FindingsExtend(users, fs, c, f);
  }

  lemma FindingsExtend(users: seq<Consumer>, fs: seq<Finding>, c: Consumer, f: Finding)
    requires |users| == |fs|
    ensures var w := WindowOf(c, f.latest, f.pickup);
            && Verdicts(users + [c], fs + [f]) == Verdicts(users, fs) + [Judge(c, f.latest, f.pickup)]
            && Undecided(users + [c], fs + [f]) ==
                 Undecided(users, fs) + (if Judge(c, f.latest, f.pickup).verdict == Unknown then [c] else [])
            && Windows(users + [c], fs + [f]) == Windows(users, fs) + if w.Some? then [w.value] else []
  {
    assert (users + [c])[..|users|] == users && (fs + [f])[..|users|] == fs;
  }

  /** What one consumer adds to the three lists, given what was found out about it. */
  ghost predicate IsVerdict(c: Consumer, h: History, now: int, f: Finding, ac: Affected, u: seq<Consumer>, w: seq<Windowed>) {
    && IsFinding(c, h, now, f) && ac == Judge(c, f.latest, f.pickup)
    && u == (if ac.verdict == Unknown then [c] else [])
    && w == var window := WindowOf(c, f.latest, f.pickup); if window.Some? then [window.value] else []
  }

  method JudgeOne(c: Consumer, h: History, now: int) returns (ac: Affected, u: seq<Consumer>, w: seq<Windowed>)
    ensures exists f :: IsVerdict(c, h, now, f, ac, u, w)
  {
    u, w := [], [];
    var probes := ProbesOf(h, c);
    var latest := FreshCanary(probes, now);
    ghost var f := Finding(latest, None);
    if latest.Some? {
      if latest.value.passed {
        ac := Affected(c, Ready, CanaryAccepted, ProbeRun(latest.value.id), 1.0);
        var pickup := MeasuredWindow(probes, now);
        f := Finding(latest, pickup);
        if pickup.Some? {
          w := [Windowed(c.stableID, pickup.value, true)];
          ac := ac.(reason := CanaryAcceptedAfter(pickup.value));
        } else if ReadyWindow(c).Some? {
          w := [Windowed(c.stableID, ReadyWindow(c).value, false)];
        }
      } else {
        ac := Affected(c, WillBreak, CanaryRejected, ProbeRun(latest.value.id), 1.0);
      }
      assert IsVerdict(c, h, now, f, ac, u, w);
      return;
    }
    if c.jwks.refreshesOnUnknownKID.Some? && !c.jwks.refreshesOnUnknownKID.value {
      ac := Affected(c, WillBreak, NoRefresh, LibEvidence(c), 0.8);
      assert IsVerdict(c, h, now, f, ac, u, w);
      return;
    }
    if c.jwks.cacheTTLSec.Some? {
      ac := Affected(c, Ready, RefreshesAfter(c.jwks.cacheTTLSec.value), Source(c.jwks.source), 0.7);
      w := [Windowed(c.stableID, c.jwks.cacheTTLSec.value * SECOND, false)];
      assert IsVerdict(c, h, now, f, ac, u, w);
      return;
    }
    ac := Affected(c, Unknown, InsufficientEvidence, NoEvidence, 0.0);
    u := [c];
    assert IsVerdict(c, h, now, f, ac, u, w);
  }

  // ---- the answer ---------------------------------------------------------------------------

  datatype Basis = NoBasis | Default(stableID: string) | Measured(stableID: string)

  /** The longest positive window explains the period, an observed one by preference. */
  ghost predicate IsBasis(windows: seq<Windowed>, b: Basis) {
    match b
    case NoBasis => forall w :: w in windows ==> w.window <= 0 && (w.window == 0 ==> !w.measured)
    case Default(id) =>
      exists w :: w in windows && w.stableID == id && !w.measured && w.window > 0 && IsLongest(windows, w.window)
                  && forall x :: x in windows && x.measured ==> x.window < w.window
    case Measured(id) =>
      exists w :: w in windows && w.stableID == id && w.measured && IsLongest(windows, w.window)
  }

  ghost predicate IsLongest(windows: seq<Windowed>, d: int) {
    forall x :: x in windows ==> x.window <= d
  }

  /** The loop's state: the longest window so far and who it is from. */
  ghost predicate BasisSoFar(windows: seq<Windowed>, maxW: int, measured: bool, b: Basis) {
    && maxW >= 0 && IsLongest(windows, maxW)
    && (measured <==> b.Measured?) && (b.NoBasis? ==> maxW == 0) && (b.Default? ==> maxW > 0)
    && (!measured ==> forall x :: x in windows && x.measured ==> x.window < maxW)
    && (b != NoBasis ==> Windowed(b.stableID, maxW, measured) in windows)
  }

  method GraceBasis(windows: seq<Windowed>) returns (durations: seq<int>, b: Basis)
    ensures durations == Map(WindowLength, windows) && IsBasis(windows, b)
  {
    durations, b := [], NoBasis;
    var maxW, maxMeasured := 0, false;
    for i := 0 to |windows|
      invariant durations == Map(WindowLength, windows[..i])
      invariant BasisSoFar(windows[..i], maxW, maxMeasured, b)
    {
      var w := windows[i];
      assert windows[..i + 1] == windows[..i] + [w];
      durations := durations + [w.window];
      if w.window > maxW || (w.window == maxW && w.measured && !maxMeasured) {
        maxW, maxMeasured := w.window, w.measured;
        b := if w.measured then Measured(w.stableID) else Default(w.stableID);
      }
    }
    assert windows[..|windows|] == windows;
    if b.Default? {
      assert IsLongest(windows, Windowed(b.stableID, maxW, false).window);
    } else if b.Measured? {
      assert IsLongest(windows, Windowed(b.stableID, maxW, true).window);
    }
  }

  function WindowLength(w: Windowed): int {
    w.window
  }

  datatype Answer = Answer(affected: seq<Affected>, unknown: seq<Consumer>, grace: int, graceSec: int, basis: Basis)

  /** What may be answered: a recommendation only when some window is known. */
  ghost predicate IsAnswer(users: seq<Consumer>, fs: seq<Finding>, a: Answer)
    requires |users| == |fs|
  {
    var windows := Windows(users, fs);
    && a.affected == Verdicts(users, fs) && a.unknown == Undecided(users, fs)
    && (if windows == [] then a.grace == 0 && a.basis == NoBasis
        else IsGrace(Map(WindowLength, windows), a.grace) && IsBasis(windows, a.basis))
    && a.graceSec == a.grace / SECOND
  }

  /** What `Resolve` may answer for a contract and a history. */
  ghost predicate IsResolution(v: Version, issuerID: string, h: History, now: int, a: Answer) {
    var users := Users(v.consumers, IssuerURL(v.issuers, issuerID));
    exists fs :: AreFindings(users, h, now, fs) && IsAnswer(users, fs, a)
  }

  method Resolve(v: Version, issuerID: string, h: History, now: int) returns (a: Answer)
    ensures IsResolution(v, issuerID, h, now, a)
  {
    ghost var users := Users(v.consumers, IssuerURL(v.issuers, issuerID));
    var affected, unknown, windows := ResolveRotateKey(v, issuerID, h, now);
    ghost var fs :| IsRotation(users, h, now, fs, affected, unknown, windows);
    var grace, basis := 0, NoBasis;
    if |windows| > 0 {
      var durations;
      durations, basis := GraceBasis(windows);
      grace := GracePeriod(durations);
    }
    a := Answer(affected, unknown, grace, grace / SECOND, basis);
    assert AreFindings(users, h, now, fs) && IsAnswer(users, fs, a);
  }

  // ---- what an answer is worth ----------------------------------------------------------------

  /** Each consumer of the issuer gets exactly one verdict, in order, and is listed as
      unknown exactly when that is its verdict. */
  lemma {:induction false} OneVerdictEach(users: seq<Consumer>, fs: seq<Finding>)
    requires |users| == |fs|
    ensures forall i :: 0 <= i < |users| ==> Verdicts(users, fs)[i].consumer == users[i]
    ensures forall c :: c in Undecided(users, fs) <==> exists a :: a in Verdicts(users, fs) && a.consumer == c && a.verdict == Unknown
  {
    if users != [] {
      var n := |users| - 1;
      OneVerdictEach(users[..n], fs[..n]);
      assert users == users[..n] + [users[n]] && fs == fs[..n] + [fs[n]];
      FindingsExtend(users[..n], fs[..n], users[n], fs[n]);
      var last := Judge(users[n], fs[n].latest, fs[n].pickup);
      assert Verdicts(users, fs) == Verdicts(users[..n], fs[..n]) + [last];
      assert last.consumer == users[n];
    }
  }

  lemma {:induction false} UsersAre(cs: seq<Consumer>, url: string)
    ensures forall c :: c in Users(cs, url) <==> c in cs && UsesIssuer(c, url)
  {
    if cs != [] {
      UsersAre(cs[..|cs| - 1], url);
      assert cs == cs[..|cs| - 1] + [cs[|cs| - 1]];
    }
  }

  lemma {:induction false} WindowsHave(users: seq<Consumer>, fs: seq<Finding>, i: nat)
    requires |users| == |fs| && i < |users| && WindowOf(users[i], fs[i].latest, fs[i].pickup).Some?
    ensures WindowOf(users[i], fs[i].latest, fs[i].pickup).value in Windows(users, fs)
  {
    var n := |users| - 1;
    if i < n {
      WindowsHave(users[..n], fs[..n], i);
    }
  }

  /** The recommendation lies between an hour and thirty days, and gives every window known
      of a ready consumer one and a half times its length, up to thirty days. */
  lemma GraceCoversWindows(users: seq<Consumer>, fs: seq<Finding>, a: Answer, i: nat)
    requires |users| == |fs| && IsAnswer(users, fs, a) && i < |users|
    requires WindowOf(users[i], fs[i].latest, fs[i].pickup).Some?
    ensures GRACE_FLOOR <= a.grace <= GRACE_CEILING
    ensures a.grace >= Asked(WindowOf(users[i], fs[i].latest, fs[i].pickup).value.window)
  {
    WindowsHave(users, fs, i);
    var windows, w := Windows(users, fs), WindowOf(users[i], fs[i].latest, fs[i].pickup).value;
    var j :| 0 <= j < |windows| && windows[j] == w;
    assert Map(WindowLength, windows)[j] == w.window;
  }

  lemma PickupIsMeasured(c: Consumer, h: History, now: int, found: Finding, d: int)
    requires IsFinding(c, h, now, found) && SomeCleanPickup(ProbesOf(h, c), now, d)
    requires forall l :: IsFreshest(ProbesOf(h, c), now, Some(l)) ==> l.passed
    ensures WindowOf(c, found.latest, found.pickup).Some?
    ensures d <= WindowOf(c, found.latest, found.pickup).value.window
  {
    MeasuredCoversIff(ProbesOf(h, c), now, d);
  }

  lemma GraceCoversPickup(users: seq<Consumer>, h: History, now: int, fs: seq<Finding>, a: Answer, c: Consumer, d: int)
    requires AreFindings(users, h, now, fs) && IsAnswer(users, fs, a) && c in users
    requires SomeCleanPickup(ProbesOf(h, c), now, d)
    requires forall l :: IsFreshest(ProbesOf(h, c), now, Some(l)) ==> l.passed
    ensures GRACE_FLOOR <= a.grace <= GRACE_CEILING && a.grace >= Asked(d)
  {
    var i :| 0 <= i < |users| && users[i] == c;
    PickupIsMeasured(c, h, now, fs[i], d);
    GraceCoversWindows(users, fs, a, i);
  }

  /** End to end: whenever a consumer was seen rejecting the new key and then accepting it,
      and its latest canary passed, the recommended period is at least one and a half times
      that pickup, up to thirty days, as long as no tie hides the longest pickups. */
  lemma GraceCoversObservedPickups(v: Version, issuerID: string, h: History, now: int, a: Answer,
                                   c: Consumer, f: Probe, p: Probe)
    requires IsResolution(v, issuerID, h, now, a) && c in Users(v.consumers, IssuerURL(v.issuers, issuerID))
    requires Settled(ProbesOf(h, c), now) && Pickup(ProbesOf(h, c), now, f, p)
    requires forall l :: IsFreshest(ProbesOf(h, c), now, Some(l)) ==> l.passed
    ensures GRACE_FLOOR <= a.grace <= GRACE_CEILING && a.grace >= Asked(p.runAt - f.runAt)
  {
    SettledMatches(ProbesOf(h, c), now, f, p);
    GraceCoversClean(v, issuerID, h, now, a, c, p.runAt - f.runAt);
  }

  lemma GraceCoversClean(v: Version, issuerID: string, h: History, now: int, a: Answer, c: Consumer, d: int)
    requires IsResolution(v, issuerID, h, now, a) && c in Users(v.consumers, IssuerURL(v.issuers, issuerID))
    requires SomeCleanPickup(ProbesOf(h, c), now, d)
    requires forall l :: IsFreshest(ProbesOf(h, c), now, Some(l)) ==> l.passed
    ensures GRACE_FLOOR <= a.grace <= GRACE_CEILING && a.grace >= Asked(d)
  {
    var users := Users(v.consumers, IssuerURL(v.issuers, issuerID));
    var fs :| AreFindings(users, h, now, fs) && IsAnswer(users, fs, a);
    GraceCoversPickup(users, h, now, fs, a, c, d);
  }
}
