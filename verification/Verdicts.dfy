/** What an answer about a rotated key says of each consumer, told from its probes and its
    fields, and what the recommended period is made of. */
module Verdicts {
  import opened Prelude
  import opened Domain
  import opened PickupWindow
  import opened BlastRadius

  // ---- probes ---------------------------------------------------------------------------------

  /** A canary probe no older than a day. */
  predicate Counts(r: Probe, now: int) {
    r.id == "canary_key" && now - r.runAt <= 86_400_000_000_000
  }

  /** Probe `i` is the latest that counts; of several at that instant, the first recorded. */
  ghost predicate LatestAt(probes: seq<Probe>, now: int, i: int) {
    && 0 <= i < |probes| && Counts(probes[i], now)
    && (forall j :: 0 <= j < |probes| && Counts(probes[j], now) ==> probes[j].runAt <= probes[i].runAt)
    && forall j :: 0 <= j < i && Counts(probes[j], now) ==> probes[j].runAt < probes[i].runAt
  }

  ghost predicate IsLatest(probes: seq<Probe>, now: int, p: Probe) {
    exists i :: LatestAt(probes, now, i) && probes[i] == p
  }

  ghost predicate NoneCounts(probes: seq<Probe>, now: int) {
    forall p :: p in probes ==> !Counts(p, now)
  }

  ghost predicate LatestPassed(probes: seq<Probe>, now: int) {
    exists p :: IsLatest(probes, now, p) && p.passed
  }

  ghost predicate LatestFailed(probes: seq<Probe>, now: int) {
    exists p :: IsLatest(probes, now, p) && !p.passed
  }

  // ---- what is said of one consumer -------------------------------------------------------------

  /** It broke on the canary, or nothing was probed and it is known not to refresh. */
  ghost predicate MustBreak(c: Consumer, probes: seq<Probe>, now: int) {
    LatestFailed(probes, now) || (NoneCounts(probes, now) && c.jwks.refreshesOnUnknownKID == Some(false))
  }

  /** It took the canary, or nothing was probed, it is not known not to refresh, and how long
      it caches is known. */
  ghost predicate IsReady(c: Consumer, probes: seq<Probe>, now: int) {
    || LatestPassed(probes, now)
    || (NoneCounts(probes, now) && c.jwks.refreshesOnUnknownKID != Some(false) && c.jwks.cacheTTLSec.Some?)
  }

  /** The grounds of a verdict: reason, evidence and confidence, case by case. */
  ghost predicate Grounded(c: Consumer, probes: seq<Probe>, now: int, a: Affected) {
    && (forall p :: IsLatest(probes, now, p) ==> a.evidence == ProbeRun(p.id) && a.confidence == 1.0)
    && (LatestFailed(probes, now) ==> a.reason == CanaryRejected)
    && (LatestPassed(probes, now) ==>
          || (a.reason == CanaryAccepted && IsMeasured(probes, now, None))
          || (a.reason.CanaryAcceptedAfter? && IsMeasured(probes, now, Some(a.reason.pickup))))
    && (NoneCounts(probes, now) && c.jwks.refreshesOnUnknownKID == Some(false) ==>
          && a.reason == NoRefresh && a.confidence == 0.8
          && a.evidence == match c.library
                           case Some(l) => Lib(l.name, l.version)
                           case None => Source(c.jwks.source))
    && (NoneCounts(probes, now) && c.jwks.refreshesOnUnknownKID != Some(false) && c.jwks.cacheTTLSec.Some? ==>
          a.reason == RefreshesAfter(c.jwks.cacheTTLSec.value) && a.evidence == Source(c.jwks.source) && a.confidence == 0.7)
    && (!MustBreak(c, probes, now) && !IsReady(c, probes, now) ==>
          a.reason == InsufficientEvidence && a.evidence == NoEvidence && a.confidence == 0.0)
  }

  ghost predicate RightVerdict(c: Consumer, probes: seq<Probe>, now: int, a: Affected) {
    && a.consumer == c
    && (a.verdict == WillBreak <==> MustBreak(c, probes, now))
    && (a.verdict == Ready <==> IsReady(c, probes, now))
    && (a.verdict == Unknown <==> !MustBreak(c, probes, now) && !IsReady(c, probes, now))
    && Grounded(c, probes, now, a)
  }

  // ---- what it adds to the period ------------------------------------------------------------------

  /** The window a verdict contributes: the measured pickup, else the cache TTL, else, for one
      that took the canary, the refresh interval. */
  function WindowFrom(a: Affected): Option<Windowed> {
    var c := a.consumer;
    if a.reason.CanaryAcceptedAfter? then Some(Windowed(c.stableID, a.reason.pickup, true))
    else if a.verdict == Ready && c.jwks.cacheTTLSec.Some? then
      Some(Windowed(c.stableID, c.jwks.cacheTTLSec.value * 1_000_000_000, false))
    else if a.verdict == Ready && c.jwks.refreshIntervalSec.Some? then
      Some(Windowed(c.stableID, c.jwks.refreshIntervalSec.value * 1_000_000_000, false))
    else None
  }

  ghost predicate HasWindow(affected: seq<Affected>, w: Windowed) {
    exists i :: 0 <= i < |affected| && WindowFrom(affected[i]) == Some(w)
  }

  const DAYS: int := 86_400_000_000_000

  /** Half as much again as the window, up to thirty days. */
  function Margin(w: Windowed): int {
    if w.window + w.window / 2 > 30 * DAYS then 30 * DAYS else w.window + w.window / 2
  }

  /** The least period between an hour and thirty days that gives each window its margin, under
      the name of a consumer with the longest; none without windows. */
  ghost predicate RightPeriod(affected: seq<Affected>, grace: int, graceSec: int, basis: Basis) {
    && (grace >= 0 ==> 0 <= grace - graceSec * 1_000_000_000 < 1_000_000_000)
    && ((forall w :: !HasWindow(affected, w)) ==> grace == 0 && basis == NoBasis)
    && ((exists w :: HasWindow(affected, w)) ==>
          && 3_600_000_000_000 <= grace <= 30 * DAYS
          && (forall w :: HasWindow(affected, w) ==> Margin(w) <= grace)
          && (grace == 3_600_000_000_000 || exists w :: HasWindow(affected, w) && grace == Margin(w))
          && RightBasis(affected, basis))
  }

  /** The basis is a consumer with the longest window, if that is positive: a measured window
      wins over a configured one of that length. */
  ghost predicate RightBasis(affected: seq<Affected>, basis: Basis) {
    match basis
    case NoBasis => forall w :: HasWindow(affected, w) ==> w.window <= 0
    case Default(id) =>
      exists w :: HasWindow(affected, w) && Longest(affected, w) && w.stableID == id && !w.measured && w.window > 0
                  && forall x :: HasWindow(affected, x) && x.measured ==> x.window < w.window
    case Measured(id) => exists w :: HasWindow(affected, w) && Longest(affected, w) && w.stableID == id && w.measured
  }

  ghost predicate Longest(affected: seq<Affected>, w: Windowed) {
    forall x :: HasWindow(affected, x) ==> x.window <= w.window
  }

  // ---- the issuer and its consumers -------------------------------------------------------------------

  ghost predicate NamedAt(issuers: seq<Issuer>, name: string, k: int) {
    && 0 <= k < |issuers| && (issuers[k].id == name || issuers[k].name == name)
    && forall j :: 0 <= j < k ==> issuers[j].id != name && issuers[j].name != name
  }

  /** `name` stands for the URL of the first issuer with that ID or name, or else for itself. */
  ghost predicate StandsFor(issuers: seq<Issuer>, name: string, url: string) {
    || (exists k :: NamedAt(issuers, name, k) && issuers[k].url == url)
    || (url == name && forall k :: 0 <= k < |issuers| ==> issuers[k].id != name && issuers[k].name != name)
  }

  predicate TrustsURL(c: Consumer, url: string) {
    url != "" && url in c.expects.issuers
  }

  /** The consumers of `all` that trust `url`, each as often and in the same order. */
  ghost predicate AreUsers(all: seq<Consumer>, url: string, users: seq<Consumer>) {
    exists at :: Picks(all, url, users, at)
  }

  /** Consumer `i` of `users` is the one at `at[i]`; every trusting position is picked once. */
  ghost predicate Picks(all: seq<Consumer>, url: string, users: seq<Consumer>, at: seq<int>) {
    && |at| == |users|
    && (forall i :: 0 <= i < |at| ==> 0 <= at[i] < |all| && all[at[i]] == users[i] && TrustsURL(users[i], url))
    && (forall i, j :: 0 <= i < j < |at| ==> at[i] < at[j])
    && forall k :: 0 <= k < |all| && TrustsURL(all[k], url) ==> k in at
  }

  // ---- proofs: probes -----------------------------------------------------------------------------------

  lemma FreshestIsLatest(probes: seq<Probe>, now: int, r: Option<Probe>)
    requires IsFreshest(probes, now, r)
    ensures r.None? <==> NoneCounts(probes, now)
    ensures r.Some? ==> forall p :: IsLatest(probes, now, p) <==> p == r.value
    ensures r.None? ==> forall p :: !IsLatest(probes, now, p)
  {
    if r.Some? {
      var i :| FreshestAt(probes, now, i) && probes[i] == r.value;
      assert LatestAt(probes, now, i);
      forall p | IsLatest(probes, now, p)
        ensures p == r.value
      {
        var j :| LatestAt(probes, now, j) && probes[j] == p;
        assert i == j;
      }
    }
  }

  lemma JudgedRight(c: Consumer, h: History, now: int, f: Finding)
    requires IsFinding(c, h, now, f)
    ensures RightVerdict(c, ProbesOf(h, c), now, Judge(c, f.latest, f.pickup))
  {
    FreshestIsLatest(ProbesOf(h, c), now, f.latest);
  }

  lemma WindowOfIsFrom(c: Consumer, latest: Option<Probe>, pickup: Option<int>)
    ensures WindowFrom(Judge(c, latest, pickup)) == WindowOf(c, latest, pickup)
  {
  }

  lemma {:induction false} WindowsAre(users: seq<Consumer>, fs: seq<Finding>, w: Windowed)
    requires |users| == |fs|
    ensures w in Windows(users, fs) <==> HasWindow(Verdicts(users, fs), w)
  {
    var all := Verdicts(users, fs);
    if users != [] {
      var n := |users| - 1;
      var init := Verdicts(users[..n], fs[..n]);
      WindowsAre(users[..n], fs[..n], w);
      WindowOfIsFrom(users[n], fs[n].latest, fs[n].pickup);
      assert all[..n] == init && all[n] == Judge(users[n], fs[n].latest, fs[n].pickup);
      HasWindowSnoc(init, all[n], w);
      assert all == init + [all[n]];
    }
  }

  lemma HasWindowSnoc(init: seq<Affected>, a: Affected, w: Windowed)
    ensures HasWindow(init + [a], w) <==> HasWindow(init, w) || WindowFrom(a) == Some(w)
  {
    if i :| 0 <= i < |init| && WindowFrom(init[i]) == Some(w) {
      assert (init + [a])[i] == init[i];
    }
    assert (init + [a])[|init|] == a;
  }

  // ---- proofs: the period -----------------------------------------------------------------------------------

  lemma MarginIsAsked(w: Windowed)
    ensures Margin(w) == Asked(w.window)
  {
  }

  lemma SecondsRoundDown(grace: int)
    requires grace >= 0
    ensures 0 <= grace - grace / SECOND * 1_000_000_000 < 1_000_000_000
  {
  }

  ghost predicate SameWindows(affected: seq<Affected>, windows: seq<Windowed>) {
    forall w :: w in windows <==> HasWindow(affected, w)
  }

  lemma BasisIsRight(affected: seq<Affected>, windows: seq<Windowed>, b: Basis)
    requires SameWindows(affected, windows) && IsBasis(windows, b)
    ensures RightBasis(affected, b)
  {
    match b
    case NoBasis =>
    case Default(id) =>
      var w :| w in windows && w.stableID == id && !w.measured && w.window > 0 && IsLongest(windows, w.window)
               && forall x :: x in windows && x.measured ==> x.window < w.window;
      assert Longest(affected, w);
    case Measured(id) =>
      var w :| w in windows && w.stableID == id && w.measured && IsLongest(windows, w.window);
      assert Longest(affected, w);
  }

  lemma GraceIsRight(affected: seq<Affected>, windows: seq<Windowed>, grace: int)
    requires SameWindows(affected, windows) && IsGrace(Map(WindowLength, windows), grace)
    ensures 3_600_000_000_000 <= grace <= 30 * DAYS
    ensures forall w :: HasWindow(affected, w) ==> Margin(w) <= grace
    ensures grace == 3_600_000_000_000 || exists w :: HasWindow(affected, w) && grace == Margin(w)
  {
    var lengths := Map(WindowLength, windows);
    forall w | HasWindow(affected, w)
      ensures Margin(w) <= grace
    {
      var i :| 0 <= i < |windows| && windows[i] == w;
      assert lengths[i] == w.window;
      MarginIsAsked(w);
    }
    if grace != GRACE_FLOOR {
      var l :| l in lengths && grace == Asked(l);
      var i :| 0 <= i < |lengths| && lengths[i] == l;
      MarginIsAsked(windows[i]);
      assert windows[i] in windows;
    }
  }

  lemma AnswerHasRightPeriod(users: seq<Consumer>, fs: seq<Finding>, a: Answer)
    requires |users| == |fs| && IsAnswer(users, fs, a)
    ensures RightPeriod(a.affected, a.grace, a.graceSec, a.basis)
  {
    var windows := Windows(users, fs);
    forall w
      ensures w in windows <==> HasWindow(a.affected, w)
    {
      WindowsAre(users, fs, w);
    }
    if windows == [] {
      assert forall w :: w !in windows;
    } else {
      assert windows[0] in windows;
      GraceIsRight(a.affected, windows, a.grace);
      BasisIsRight(a.affected, windows, a.basis);
    }
    if a.grace >= 0 {
      SecondsRoundDown(a.grace);
    }
  }

  // ---- proofs: who is judged -----------------------------------------------------------------------------------

  lemma {:induction false} IssuerURLStands(issuers: seq<Issuer>, name: string)
    ensures StandsFor(issuers, name, IssuerURL(issuers, name))
  {
    if issuers != [] {
      if issuers[0].id == name || issuers[0].name == name {
        assert NamedAt(issuers, name, 0);
      } else {
        var rest := issuers[1..];
        IssuerURLStands(rest, name);
        assert forall k :: 0 < k < |issuers| ==> issuers[k] == rest[k - 1];
        if k :| NamedAt(rest, name, k) && rest[k].url == IssuerURL(rest, name) {
          assert NamedAt(issuers, name, k + 1);
        }
      }
    }
  }

  lemma PicksOneMore(cs: seq<Consumer>, url: string, users: seq<Consumer>, at: seq<int>, c: Consumer)
    requires Picks(cs, url, users, at)
    ensures TrustsURL(c, url) ==> Picks(cs + [c], url, users + [c], at + [|cs|])
    ensures !TrustsURL(c, url) ==> Picks(cs + [c], url, users, at)
  {
    var all, more := cs + [c], at + [|cs|];
    forall k | 0 <= k < |all| && TrustsURL(all[k], url)
      ensures k in more
    {
      if k < |cs| {
        assert k in at;
      } else {
        assert more[|at|] == k;
      }
    }
  }

  lemma {:induction false} UsersArePicked(cs: seq<Consumer>, url: string) returns (at: seq<int>)
    ensures Picks(cs, url, Users(cs, url), at)
  {
    if cs == [] {
      at := [];
    } else {
      var init, c := cs[..|cs| - 1], cs[|cs| - 1];
      var was := UsersArePicked(init, url);
      PicksOneMore(init, url, Users(init, url), was, c);
      assert cs == init + [c];
      at := if UsesIssuer(c, url) then was + [|init|] else was;
    }
  }

  // ---- the theorem ------------------------------------------------------------------------------------------------

  /** Every answer about a rotated or retired key: it judges exactly the consumers that trust
      the issuer, in order, each as its probes and fields demand; it lists as unknown exactly
      those so judged; and the period is the least that gives every window its margin. */
  lemma AnswerIsRight(v: Version, issuerID: string, h: History, now: int, a: Answer)
    requires IsResolution(v, issuerID, h, now, a)
    ensures JudgesTheUsers(v, issuerID, h, now, a)
    ensures RightPeriod(a.affected, a.grace, a.graceSec, a.basis)
  {
    var users := Users(v.consumers, IssuerURL(v.issuers, issuerID));
    var fs :| AreFindings(users, h, now, fs) && IsAnswer(users, fs, a);
    AnswerJudges(v, issuerID, h, now, fs, a);
    AnswerHasRightPeriod(users, fs, a);
  }

  ghost predicate JudgesTheUsers(v: Version, issuerID: string, h: History, now: int, a: Answer) {
    exists url, users ::
      && StandsFor(v.issuers, issuerID, url) && AreUsers(v.consumers, url, users)
      && RightVerdicts(users, h, now, a.affected) && ListsUndecided(a)
  }

  ghost predicate ListsUndecided(a: Answer) {
    forall c :: c in a.unknown <==> exists x :: x in a.affected && x.consumer == c && x.verdict == Unknown
  }

  lemma AnswerJudges(v: Version, issuerID: string, h: History, now: int, fs: seq<Finding>, a: Answer)
    requires var users := Users(v.consumers, IssuerURL(v.issuers, issuerID));
             AreFindings(users, h, now, fs) && IsAnswer(users, fs, a)
    ensures JudgesTheUsers(v, issuerID, h, now, a)
  {
    var url := IssuerURL(v.issuers, issuerID);
    var users := Users(v.consumers, url);
    IssuerURLStands(v.issuers, issuerID);
    var at := UsersArePicked(v.consumers, url);
    VerdictsAreRight(users, h, now, fs);
    OneVerdictEach(users, fs);
    assert AreUsers(v.consumers, url, users);
    assert ListsUndecided(a);
  }

  /** What the history says of a consumer, by its StableID. */
  function HistoryOf(h: History, c: Consumer): seq<Probe> {
    if c.stableID in h then h[c.stableID] else []
  }

  ghost predicate RightVerdicts(users: seq<Consumer>, h: History, now: int, affected: seq<Affected>) {
    |affected| == |users| && forall i :: 0 <= i < |users| ==> RightVerdict(users[i], HistoryOf(h, users[i]), now, affected[i])
  }

  lemma VerdictsAreRight(users: seq<Consumer>, h: History, now: int, fs: seq<Finding>)
    requires AreFindings(users, h, now, fs)
    ensures RightVerdicts(users, h, now, Verdicts(users, fs))
  {
    forall i | 0 <= i < |users|
      ensures RightVerdict(users[i], HistoryOf(h, users[i]), now, Verdicts(users, fs)[i])
    {
      JudgedRight(users[i], h, now, fs[i]);
    }
  }
}
