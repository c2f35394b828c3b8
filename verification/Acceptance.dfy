/** What tokens a consumer accepts, and what a diff says about tokens newly accepted. */
module Acceptance {
  import opened Prelude
  import opened Domain
  import opened Diff
  import opened DiffReplay

  /** The facts of a token that expectations look at. */
  datatype Token = Token(iss: string, aud: set<string>, alg: string, claims: set<string>, exp: int, nbf: Option<int>)

  /** An empty list is no constraint; a listed issuer, audience or algorithm must match,
      every required claim must be there, and the clock may be off by the skew. */
  predicate Accepts(e: Expectations, t: Token, now: int) {
    && (e.issuers == [] || t.iss in e.issuers)
    && (e.audiences == [] || Elems(e.audiences) * t.aud != {})
    && (e.algorithms == [] || t.alg in e.algorithms)
    && Elems(e.requiredClaims) <= t.claims
    && now <= t.exp + e.clockSkewSec
    && (t.nbf.Some? ==> now >= t.nbf.value - e.clockSkewSec)
  }

  /** Every token accepted under `e` is accepted under `f`. */
  ghost predicate AcceptsAll(e: Expectations, f: Expectations) {
    forall t, now :: Accepts(e, t, now) ==> Accepts(f, t, now)
  }

  ghost predicate HasClass(events: seq<ChangeEvent>, cls: ChangeClass) {
    exists i :: 0 <= i < |events| && events[i].cls == cls
  }

  /** A constraint of `from` is gone from `to` altogether: its list became empty. */
  predicate Emptied(from: Expectations, to: Expectations) {
    || (from.issuers != [] && to.issuers == [])
    || (from.audiences != [] && to.audiences == [])
    || (from.algorithms != [] && to.algorithms == [])
  }

  /** No field's evidence is below the confidence floor. */
  predicate Confident(c: Consumer) {
    && ConfidenceFor(c, Audiences) >= CONFIDENCE_FLOOR && ConfidenceFor(c, Issuers) >= CONFIDENCE_FLOOR
    && ConfidenceFor(c, Algorithms) >= CONFIDENCE_FLOOR && ConfidenceFor(c, RequiredClaims) >= CONFIDENCE_FLOOR
    && ConfidenceFor(c, ClockSkew) >= CONFIDENCE_FLOOR
  }

  // ---- events and list differences -----------------------------------------------

  /** The list differences behind widening events. */
  predicate Wider(from: Expectations, to: Expectations) {
    || Missing(to.audiences, from.audiences) != []
    || Missing(to.issuers, from.issuers) != []
    || Missing(to.algorithms, from.algorithms) != []
    || Missing(from.requiredClaims, to.requiredClaims) != []
    || to.clockSkewSec > from.clockSkewSec
  }

  /** The class of an addition, and of a removal, in a set field. */
  function ClassOf(f: Field, add: bool, confidence: real): ChangeClass
    requires IsSetField(f)
  {
    if confidence < CONFIDENCE_FLOOR then Unknown
    else if add == !f.RequiredClaims? then Widened
    else Narrowed
  }

  lemma AddsClass(span: Span, f: Field, c: Consumer, xs: seq<string>, cls: ChangeClass)
    requires IsSetField(f)
    ensures HasClass(Map((x: string) => AddEvent(span, f, c, x), xs), cls)
            <==> xs != [] && ClassOf(f, true, ConfidenceFor(c, f)) == cls
  {
    var events := Map((x: string) => AddEvent(span, f, c, x), xs);
    forall i | 0 <= i < |events|
      ensures events[i].cls == ClassOf(f, true, ConfidenceFor(c, f))
    {
      assert events[i] == AddEvent(span, f, c, xs[i]);
    }
    assert xs != [] ==> events[0].cls == ClassOf(f, true, ConfidenceFor(c, f));
  }

  lemma RemovesClass(span: Span, f: Field, c: Consumer, xs: seq<string>, cls: ChangeClass)
    requires IsSetField(f)
    ensures HasClass(Map((x: string) => RemoveEvent(span, f, c, x), xs), cls)
            <==> xs != [] && ClassOf(f, false, ConfidenceFor(c, f)) == cls
  {
    var events := Map((x: string) => RemoveEvent(span, f, c, x), xs);
    forall i | 0 <= i < |events|
      ensures events[i].cls == ClassOf(f, false, ConfidenceFor(c, f))
    {
      assert events[i] == RemoveEvent(span, f, c, xs[i]);
    }
    assert xs != [] ==> events[0].cls == ClassOf(f, false, ConfidenceFor(c, f));
  }

  lemma SetEventClasses(span: Span, f: Field, from: seq<string>, to: seq<string>, c: Consumer, cls: ChangeClass)
    requires IsSetField(f)
    ensures HasClass(SetEvents(span, f, from, to, c), cls) <==>
            || (Missing(to, from) != [] && ClassOf(f, true, ConfidenceFor(c, f)) == cls)
            || (Missing(from, to) != [] && ClassOf(f, false, ConfidenceFor(c, f)) == cls)
  {
    AddsClass(span, f, c, Missing(to, from), cls);
    RemovesClass(span, f, c, Missing(from, to), cls);
    HasClassConcat(Map((x: string) => AddEvent(span, f, c, x), Missing(to, from)),
                   Map((x: string) => RemoveEvent(span, f, c, x), Missing(from, to)), cls);
  }

  lemma HasClassConcat(a: seq<ChangeEvent>, b: seq<ChangeEvent>, cls: ChangeClass)
    ensures HasClass(a + b, cls) <==> HasClass(a, cls) || HasClass(b, cls)
  {
    if HasClass(a, cls) {
      var i :| 0 <= i < |a| && a[i].cls == cls;
      assert (a + b)[i].cls == cls;
    }
    if HasClass(b, cls) {
      var i :| 0 <= i < |b| && b[i].cls == cls;
      assert (a + b)[|a| + i].cls == cls;
    }
  }

  lemma ExpectClasses(span: Span, e: Expectations, g: Expectations, c: Consumer, cls: ChangeClass)
    ensures HasClass(ExpectEvents(span, e, g, c), cls) <==>
            || HasClass(SetEvents(span, Audiences, e.audiences, g.audiences, c), cls)
            || HasClass(SetEvents(span, Issuers, e.issuers, g.issuers, c), cls)
            || HasClass(SetEvents(span, Algorithms, e.algorithms, g.algorithms, c), cls)
            || HasClass(SetEvents(span, RequiredClaims, e.requiredClaims, g.requiredClaims, c), cls)
            || HasClass(SkewEvents(span, e.clockSkewSec, g.clockSkewSec, c), cls)
  {
    var aud := SetEvents(span, Audiences, e.audiences, g.audiences, c);
    var iss := SetEvents(span, Issuers, e.issuers, g.issuers, c);
    var alg := SetEvents(span, Algorithms, e.algorithms, g.algorithms, c);
    var req := SetEvents(span, RequiredClaims, e.requiredClaims, g.requiredClaims, c);
    var skew := SkewEvents(span, e.clockSkewSec, g.clockSkewSec, c);
    HasClassConcat(aud + iss + alg + req, skew, cls);
    HasClassConcat(aud + iss + alg, req, cls);
    HasClassConcat(aud + iss, alg, cls);
    HasClassConcat(aud, iss, cls);
  }

  lemma SkewClasses(span: Span, from: int, to: int, c: Consumer, cls: ChangeClass)
    ensures HasClass(SkewEvents(span, from, to, c), cls) <==>
            from != to &&
            cls == Classify(ClockSkew, if to < from then OpDecrease else OpIncrease, Nil, ConfidenceFor(c, ClockSkew)).cls
  {
    var events := SkewEvents(span, from, to, c);
    if from != to {
      assert |events| == 1 && (HasClass(events, cls) <==> events[0].cls == cls);
    }
  }

  /** Which list differences put an event of class `cls` into a consumer's events. */
  predicate Yields(e: Expectations, g: Expectations, f: Field, c: Consumer, cls: ChangeClass)
    requires IsSetField(f)
  {
    || (Missing(ListOf(g, f), ListOf(e, f)) != [] && ClassOf(f, true, ConfidenceFor(c, f)) == cls)
    || (Missing(ListOf(e, f), ListOf(g, f)) != [] && ClassOf(f, false, ConfidenceFor(c, f)) == cls)
  }

  lemma ClassesFromLists(span: Span, e: Expectations, g: Expectations, c: Consumer, cls: ChangeClass)
    ensures HasClass(ExpectEvents(span, e, g, c), cls) <==>
            || Yields(e, g, Audiences, c, cls) || Yields(e, g, Issuers, c, cls)
            || Yields(e, g, Algorithms, c, cls) || Yields(e, g, RequiredClaims, c, cls)
            || (e.clockSkewSec != g.clockSkewSec &&
                cls == Classify(ClockSkew, if g.clockSkewSec < e.clockSkewSec then OpDecrease else OpIncrease, Nil,
                                ConfidenceFor(c, ClockSkew)).cls)
  {
    ExpectClasses(span, e, g, c, cls);
    SetEventClasses(span, Audiences, e.audiences, g.audiences, c, cls);
    SetEventClasses(span, Issuers, e.issuers, g.issuers, c, cls);
    SetEventClasses(span, Algorithms, e.algorithms, g.algorithms, c, cls);
    SetEventClasses(span, RequiredClaims, e.requiredClaims, g.requiredClaims, c, cls);
    SkewClasses(span, e.clockSkewSec, g.clockSkewSec, c, cls);
  }

  lemma YieldsWhenConfident(e: Expectations, g: Expectations, f: Field, c: Consumer)
    requires IsSetField(f) && ConfidenceFor(c, f) >= CONFIDENCE_FLOOR
    ensures var grew, shrank := Missing(ListOf(g, f), ListOf(e, f)) != [], Missing(ListOf(e, f), ListOf(g, f)) != [];
            && (Yields(e, g, f, c, Widened) <==> if f.RequiredClaims? then shrank else grew)
            && (Yields(e, g, f, c, Narrowed) <==> if f.RequiredClaims? then grew else shrank)
  {
  }

  /** With confident evidence, a widening event is emitted exactly when a list grew in
      the permissive direction, and a narrowing one exactly for the reverse difference. */
  lemma ClassesMirrorLists(span: Span, e: Expectations, g: Expectations, c: Consumer)
    requires Confident(c)
    ensures HasClass(ExpectEvents(span, e, g, c), Widened) <==> Wider(e, g)
    ensures HasClass(ExpectEvents(span, e, g, c), Narrowed) <==> Wider(g, e)
  {
    YieldsWhenConfident(e, g, Audiences, c);
    YieldsWhenConfident(e, g, Issuers, c);
    YieldsWhenConfident(e, g, Algorithms, c);
    YieldsWhenConfident(e, g, RequiredClaims, c);
    ClassesFromLists(span, e, g, c, Widened);
    ClassesFromLists(span, e, g, c, Narrowed);
  }

  // ---- list differences and accepted tokens ----------------------------------------

  lemma NotMissing(s: seq<string>, other: seq<string>)
    requires Missing(s, other) == []
    ensures Elems(s) <= Elems(other)
  {
    forall x | x in s
      ensures x in other
    {
      IsMissing(s, other, x);
    }
  }

  /** Nothing widened and no constraint lost: no new token gets in. */
  lemma NotWiderAcceptsLess(from: Expectations, to: Expectations)
    requires !Wider(from, to) && !Emptied(from, to)
    ensures AcceptsAll(to, from)
  {
    NotMissing(to.audiences, from.audiences);
    NotMissing(to.issuers, from.issuers);
    NotMissing(to.algorithms, from.algorithms);
    NotMissing(from.requiredClaims, to.requiredClaims);
    forall t, now | Accepts(to, t, now)
      ensures Accepts(from, t, now)
    {
      assert t.iss in to.issuers ==> t.iss in Elems(to.issuers);
      assert t.alg in to.algorithms ==> t.alg in Elems(to.algorithms);
    }
  }

  function Total(s: seq<string>): string {
    if s == [] then "x" else s[0] + Total(s[1..])
  }

  /** A string longer than everything in the list. */
  lemma {:induction false} TotalIsNew(s: seq<string>, x: string)
    requires x in s
    ensures |x| < |Total(s)|
  {
    if x != s[0] {
      TotalIsNew(s[1..], x);
    } else {
      TotalIsLong(s[1..]);
    }
  }

  lemma {:induction false} TotalIsLong(s: seq<string>)
    ensures |Total(s)| >= 1
  {
    if s != [] {
      TotalIsLong(s[1..]);
    }
  }

  lemma NewString(s: seq<string>) returns (x: string)
    ensures x !in s
  {
    x := Total(s);
    if x in s {
      TotalIsNew(s, x);
    }
  }

  /** Where a constraint was lost, some token is newly accepted. */
  lemma EmptiedAcceptsMore(from: Expectations, to: Expectations)
    requires Emptied(from, to)
    ensures !AcceptsAll(to, from)
  {
    var iss := NewString(from.issuers);
    var alg := NewString(from.algorithms);
    var t := Token(if to.issuers != [] then to.issuers[0] else iss,
                   if to.audiences != [] then {to.audiences[0]} else {},
                   if to.algorithms != [] then to.algorithms[0] else alg,
                   Elems(to.requiredClaims), -to.clockSkewSec, None);
    if to.audiences != [] {
      assert to.audiences[0] in Elems(to.audiences) * t.aud;
    }
    assert Accepts(to, t, 0);
    assert !Accepts(from, t, 0);
  }

  // ---- the theorems --------------------------------------------------------------

  /** No silent widening, exactly. When a consumer's events widen nothing, its new
      expectations accept no token the old ones rejected, if and only if no issuer,
      audience or algorithm list went from non-empty to empty. */
  lemma SilentWideningIff(span: Span, from: Consumer, to: Consumer)
    requires Confident(to)
    requires !HasClass(ExpectEvents(span, from.expects, to.expects, to), Widened)
    ensures AcceptsAll(to.expects, from.expects) <==> !Emptied(from.expects, to.expects)
  {
    ClassesMirrorLists(span, from.expects, to.expects, to);
    if Emptied(from.expects, to.expects) {
      EmptiedAcceptsMore(from.expects, to.expects);
    } else {
      NotWiderAcceptsLess(from.expects, to.expects);
    }
  }

  /** The dual: when nothing is narrowed, every token accepted before still is, if and
      only if no list went from empty to non-empty. */
  lemma SilentNarrowingIff(span: Span, from: Consumer, to: Consumer)
    requires Confident(to)
    requires !HasClass(ExpectEvents(span, from.expects, to.expects, to), Narrowed)
    ensures AcceptsAll(from.expects, to.expects) <==> !Emptied(to.expects, from.expects)
  {
    ClassesMirrorLists(span, from.expects, to.expects, to);
    if Emptied(to.expects, from.expects) {
      EmptiedAcceptsMore(to.expects, from.expects);
    } else {
      NotWiderAcceptsLess(to.expects, from.expects);
    }
  }

  /** Across versions: a newly accepted token shows up as a `widened` event of the diff. */
  lemma NewTokenIsReported(from: Version, to: Version, events: seq<ChangeEvent>, id: string, t: Token, now: int)
    requires IsDiff(from, to, events)
    requires id in Index(from.consumers) && id in Index(to.consumers)
    requires var c, d := Index(from.consumers)[id], Index(to.consumers)[id];
             && Confident(d) && !Emptied(c.expects, d.expects)
             && Accepts(d.expects, t, now) && !Accepts(c.expects, t, now)
    ensures exists e :: e in events && e.consumerID == id && e.cls == Widened
  {
    var c, d := Index(from.consumers)[id], Index(to.consumers)[id];
    var span := Span(from.id, to.id);
    var own := ExpectEvents(span, c.expects, d.expects, d);
    if !HasClass(own, Widened) {
      SilentWideningIff(span, c, d);
    }
    var i :| 0 <= i < |own| && own[i].cls == Widened;
    assert EventsOf(events, id) == Expected(from, to, id);
    assert Expected(from, to, id)[i] == own[i];
    EventIsListed(events, id, i);
  }

  lemma {:induction false} EventIsListed(events: seq<ChangeEvent>, id: string, i: nat)
    requires i < |EventsOf(events, id)|
    ensures EventsOf(events, id)[i] in events && EventsOf(events, id)[i].consumerID == id
  {
    var init := events[..|events| - 1];
    if i < |EventsOf(init, id)| {
      EventIsListed(init, id, i);
    }
  }

  lemma WidensOrUnknown(e: Expectations, g: Expectations, f: Field, c: Consumer)
    requires IsSetField(f)
    requires if f.RequiredClaims? then Missing(ListOf(e, f), ListOf(g, f)) != [] else Missing(ListOf(g, f), ListOf(e, f)) != []
    ensures Yields(e, g, f, c, Widened) || Yields(e, g, f, c, Unknown)
  {
  }

  lemma WiderLeavesATrace(span: Span, e: Expectations, g: Expectations, c: Consumer)
    requires Wider(e, g)
    ensures var events := ExpectEvents(span, e, g, c); HasClass(events, Widened) || HasClass(events, Unknown)
  {
    ClassesFromLists(span, e, g, c, Widened);
    ClassesFromLists(span, e, g, c, Unknown);
    if Missing(g.audiences, e.audiences) != [] {
      WidensOrUnknown(e, g, Audiences, c);
    } else if Missing(g.issuers, e.issuers) != [] {
      WidensOrUnknown(e, g, Issuers, c);
    } else if Missing(g.algorithms, e.algorithms) != [] {
      WidensOrUnknown(e, g, Algorithms, c);
    } else if Missing(e.requiredClaims, g.requiredClaims) != [] {
      WidensOrUnknown(e, g, RequiredClaims, c);
    }
  }

  /** Below the confidence floor a widening is reported too, but as `unknown`: whatever
      the evidence, a newly accepted token leaves a widened or an unknown event. */
  lemma NewTokenLeavesATrace(span: Span, from: Consumer, to: Consumer)
    requires !Emptied(from.expects, to.expects) && !AcceptsAll(to.expects, from.expects)
    ensures var events := ExpectEvents(span, from.expects, to.expects, to);
            HasClass(events, Widened) || HasClass(events, Unknown)
  {
    if !Wider(from.expects, to.expects) {
      NotWiderAcceptsLess(from.expects, to.expects);
    }
    WiderLeavesATrace(span, from.expects, to.expects, to);
  }
}
