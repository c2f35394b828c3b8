/** What a diff says of each kind of change, and what it takes for it to page somebody: told
    from the two consumers' fields and the events, value by value. */
module Severities {
  import opened Prelude
  import opened Domain
  import opened Diff
  import DiffReplay

  // ---- what an event carries ------------------------------------------------------------------

  /** The confidence in a field: its own, else the overall one, else full. */
  ghost predicate Trusts(c: Consumer, path: string, x: real) {
    || (path in c.confidence && x == c.confidence[path])
    || (path !in c.confidence && "overall" in c.confidence && x == c.confidence["overall"])
    || (path !in c.confidence && "overall" !in c.confidence && x == 1.0)
  }

  /** A provenance record is quoted by its locator, or without one by its source. */
  ghost predicate Quoted(r: Provenance, x: string) {
    x != "" && x == if r.locator == "" then r.source else r.locator
  }

  ghost predicate Grounds(c: Consumer, path: string, evidence: seq<string>) {
    forall x :: x in evidence <==> path in c.provenance && exists r :: r in c.provenance[path] && Quoted(r, x)
  }

  /** The event reports a change of `path` from `old_` to `new_` on the evidence of `c`, with
      this class and severity, or as unknown below the confidence floor. */
  ghost predicate Bears(e: ChangeEvent, from: Version, to: Version, c: Consumer, path: string,
                        old_: Value, new_: Value, cls: ChangeClass, severity: Severity) {
    && e.fromVersion == from.id && e.toVersion == to.id
    && e.oldValue == old_ && e.newValue == new_ && e.attribution.None?
    && Trusts(c, path, e.confidence) && Grounds(c, path, e.evidence)
    && (e.confidence >= 0.6 ==> e.cls == cls && e.severity == severity)
    && (e.confidence < 0.6 ==> e.cls == Unknown && e.severity == Info)
  }

  /** The one event is that. */
  ghost predicate Reports(es: seq<ChangeEvent>, from: Version, to: Version, c: Consumer, path: string,
                          old_: Value, new_: Value, cls: ChangeClass, severity: Severity) {
    |es| == 1 && Bears(es[0], from, to, c, path, old_, new_, cls, severity)
  }

  /** The events on one field, in order. */
  function OnField(es: seq<ChangeEvent>, f: Field): seq<ChangeEvent> {
    if es == [] then [] else
      OnField(es[..|es| - 1], f) + if es[|es| - 1].field == f then [es[|es| - 1]] else []
  }

  /** The last consumer of a StableID. */
  ghost predicate LastWith(cs: seq<Consumer>, id: string, c: Consumer) {
    exists k :: LastAt(cs, id, k) && cs[k] == c
  }

  ghost predicate LastAt(cs: seq<Consumer>, id: string, k: int) {
    0 <= k < |cs| && cs[k].stableID == id && forall j :: k < j < |cs| ==> cs[j].stableID != id
  }

  ghost predicate Lacks(cs: seq<Consumer>, id: string) {
    forall k :: 0 <= k < |cs| ==> cs[k].stableID != id
  }

  /** `a` became `b` between the versions, and `events` is a diff of them. */
  ghost predicate Changed(from: Version, to: Version, events: seq<ChangeEvent>, id: string, a: Consumer, b: Consumer) {
    IsDiff(from, to, events) && LastWith(from.consumers, id, a) && LastWith(to.consumers, id, b)
  }

  lemma {:induction false} IndexAt(cs: seq<Consumer>, id: string, k: int)
    requires LastAt(cs, id, k)
    ensures id in Index(cs) && Index(cs)[id] == cs[k]
  {
    var n := |cs| - 1;
    if k < n {
      assert LastAt(cs[..n], id, k);
      IndexAt(cs[..n], id, k);
    }
  }

  lemma IndexIsLast(cs: seq<Consumer>, id: string, c: Consumer)
    requires LastWith(cs, id, c)
    ensures id in Index(cs) && Index(cs)[id] == c
  {
    var k :| LastAt(cs, id, k) && cs[k] == c;
    IndexAt(cs, id, k);
  }

  lemma LackedIsNotIndexed(cs: seq<Consumer>, id: string)
    requires Lacks(cs, id)
    ensures id !in Index(cs)
  {
    IndexKeys(cs, id);
  }

  // ---- one event ----------------------------------------------------------------------------------

  lemma {:induction false} LocatorsQuote(recs: seq<Provenance>, x: string)
    ensures x in Locators(recs) <==> exists r :: r in recs && Quoted(r, x)
  {
    if recs != [] {
      var r0, rest := recs[0], recs[1..];
      LocatorsQuote(rest, x);
      assert x in Locators(recs) <==> Quoted(r0, x) || x in Locators(rest);
      assert Quoted(r0, x) ==> r0 in recs;
      if r :| r in rest && Quoted(r, x) {
        assert r in recs;
      }
    }
  }

  lemma EvidenceGrounds(c: Consumer, field: Field)
    ensures Grounds(c, Path(field), EvidenceFor(c, field))
  {
    var path := Path(field);
    forall x
      ensures x in EvidenceFor(c, field) <==> path in c.provenance && exists r :: r in c.provenance[path] && Quoted(r, x)
    {
      if path in c.provenance {
        LocatorsQuote(c.provenance[path], x);
      }
    }
  }

  lemma EventBears(from: Version, to: Version, id: string, field: Field, op: FieldOp, oldV: Value, newV: Value, val: Value,
                   c: Consumer, cls: ChangeClass, severity: Severity)
    requires Classify(field, op, val, 0.6) == Classification(cls, severity)
    ensures Bears(MakeEvent(Span(from.id, to.id), id, field, op, oldV, newV, val, c), from, to, c, Path(field), oldV, newV, cls, severity)
  {
    EvidenceGrounds(c, field);
  }

  lemma OneEvent(es: seq<ChangeEvent>, from: Version, to: Version, id: string, field: Field, op: FieldOp, oldV: Value, newV: Value,
                 c: Consumer, cls: ChangeClass, severity: Severity)
    requires es == [MakeEvent(Span(from.id, to.id), id, field, op, oldV, newV, Nil, c)]
    requires Classify(field, op, Nil, 0.6) == Classification(cls, severity)
    ensures Reports(es, from, to, c, Path(field), oldV, newV, cls, severity)
  {
    EventBears(from, to, id, field, op, oldV, newV, Nil, c, cls, severity);
  }

  // ---- field by field -------------------------------------------------------------------------------

  lemma {:induction false} OnFieldConcat(a: seq<ChangeEvent>, b: seq<ChangeEvent>, f: Field)
    ensures OnField(a + b, f) == OnField(a, f) + OnField(b, f)
  {
    if b == [] {
      assert a + b == a;
    } else {
      OnFieldConcat(a, b[..|b| - 1], f);
      assert (a + b)[..|a + b| - 1] == a + b[..|b| - 1];
    }
  }

  ghost predicate AllOn(es: seq<ChangeEvent>, f: Field) {
    forall i :: 0 <= i < |es| ==> es[i].field == f
  }

  lemma {:induction false} OnOwnField(es: seq<ChangeEvent>, f: Field)
    requires AllOn(es, f)
    ensures OnField(es, f) == es
  {
    if es != [] {
      OnOwnField(es[..|es| - 1], f);
      assert es == es[..|es| - 1] + [es[|es| - 1]];
    }
  }

  lemma {:induction false} OnForeignField(es: seq<ChangeEvent>, g: Field, f: Field)
    requires AllOn(es, g) && f != g
    ensures OnField(es, f) == []
  {
    if es != [] {
      OnForeignField(es[..|es| - 1], g, f);
    }
  }

  lemma OnFieldBlock(es: seq<ChangeEvent>, g: Field, f: Field)
    requires AllOn(es, g)
    ensures OnField(es, f) == if f == g then es else []
  {
    if f == g {
      OnOwnField(es, f);
    } else {
      OnForeignField(es, g, f);
    }
  }

  lemma OnFieldSum(a: seq<ChangeEvent>, b: seq<ChangeEvent>, c: seq<ChangeEvent>, d: seq<ChangeEvent>, e: seq<ChangeEvent>, f: Field)
    ensures OnField(a + b + c + d + e, f) == OnField(a, f) + OnField(b, f) + OnField(c, f) + OnField(d, f) + OnField(e, f)
  {
    OnFieldConcat(a, b, f);
    OnFieldConcat(a + b, c, f);
    OnFieldConcat(a + b + c, d, f);
    OnFieldConcat(a + b + c + d, e, f);
  }

  lemma SumOfOne(a: seq<ChangeEvent>, b: seq<ChangeEvent>, c: seq<ChangeEvent>, d: seq<ChangeEvent>, e: seq<ChangeEvent>, x: seq<ChangeEvent>)
    requires (a == x && b == c == d == e == []) || (b == x && a == c == d == e == []) || (c == x && a == b == d == e == [])
             || (d == x && a == b == c == e == []) || (e == x && a == b == c == d == [])
    ensures a + b + c + d + e == x
  {
  }

  lemma OnFieldFive(aud: seq<ChangeEvent>, iss: seq<ChangeEvent>, alg: seq<ChangeEvent>, req: seq<ChangeEvent>,
                    skew: seq<ChangeEvent>, f: Field, part: seq<ChangeEvent>)
    requires AllOn(aud, Audiences) && AllOn(iss, Issuers) && AllOn(alg, Algorithms) && AllOn(req, RequiredClaims) && AllOn(skew, ClockSkew)
    requires part == match f
                     case Audiences => aud
                     case Issuers => iss
                     case Algorithms => alg
                     case RequiredClaims => req
                     case ClockSkew => skew
                     case _ => []
    ensures OnField(aud + iss + alg + req + skew, f) == part
  {
    OnFieldSum(aud, iss, alg, req, skew, f);
    OnFieldBlock(aud, Audiences, f);
    OnFieldBlock(iss, Issuers, f);
    OnFieldBlock(alg, Algorithms, f);
    OnFieldBlock(req, RequiredClaims, f);
    OnFieldBlock(skew, ClockSkew, f);
    SumOfOne(OnField(aud, f), OnField(iss, f), OnField(alg, f), OnField(req, f), OnField(skew, f), part);
  }

  lemma SetEventsOn(span: Span, f: Field, was: seq<string>, is_: seq<string>, c: Consumer)
    ensures AllOn(SetEvents(span, f, was, is_, c), f)
  {
  }

  lemma OnListOfExpects(span: Span, e: Expectations, g: Expectations, c: Consumer, f: Field)
    ensures OnField(ExpectEvents(span, e, g, c), f) ==
            if DiffReplay.IsSetField(f) then SetEvents(span, f, DiffReplay.ListOf(e, f), DiffReplay.ListOf(g, f), c)
            else if f.ClockSkew? then SkewEvents(span, e.clockSkewSec, g.clockSkewSec, c) else []
  {
    SetEventsOn(span, Audiences, e.audiences, g.audiences, c);
    SetEventsOn(span, Issuers, e.issuers, g.issuers, c);
    SetEventsOn(span, Algorithms, e.algorithms, g.algorithms, c);
    SetEventsOn(span, RequiredClaims, e.requiredClaims, g.requiredClaims, c);
    OnFieldFive(SetEvents(span, Audiences, e.audiences, g.audiences, c), SetEvents(span, Issuers, e.issuers, g.issuers, c),
                SetEvents(span, Algorithms, e.algorithms, g.algorithms, c),
                SetEvents(span, RequiredClaims, e.requiredClaims, g.requiredClaims, c),
                SkewEvents(span, e.clockSkewSec, g.clockSkewSec, c), f,
                if DiffReplay.IsSetField(f) then SetEvents(span, f, DiffReplay.ListOf(e, f), DiffReplay.ListOf(g, f), c)
                else if f.ClockSkew? then SkewEvents(span, e.clockSkewSec, g.clockSkewSec, c) else []);
  }

  lemma JWKSEventsOn(span: Span, a: JWKSBehavior, b: JWKSBehavior, c: Consumer)
    ensures AllOn(RefreshEvents(span, a, b, c), RefreshUnknown) && AllOn(TTLEvents(span, a, b, c), CacheTTL)
  {
  }

  lemma OnFieldTwo(refresh: seq<ChangeEvent>, ttl: seq<ChangeEvent>, f: Field)
    requires AllOn(refresh, RefreshUnknown) && AllOn(ttl, CacheTTL)
    ensures OnField(refresh + ttl, f) == if f.RefreshUnknown? then refresh else if f.CacheTTL? then ttl else []
  {
    OnFieldConcat(refresh, ttl, f);
    OnFieldBlock(refresh, RefreshUnknown, f);
    OnFieldBlock(ttl, CacheTTL, f);
    SumOfOne(OnField(refresh, f), OnField(ttl, f), [], [], [],
             if f.RefreshUnknown? then refresh else if f.CacheTTL? then ttl else []);
  }

  lemma OnFieldOfJWKS(span: Span, a: JWKSBehavior, b: JWKSBehavior, c: Consumer, f: Field)
    ensures OnField(JWKSEvents(span, a, b, c), f) ==
            if f.RefreshUnknown? then RefreshEvents(span, a, b, c) else if f.CacheTTL? then TTLEvents(span, a, b, c) else []
  {
    JWKSEventsOn(span, a, b, c);
    OnFieldTwo(RefreshEvents(span, a, b, c), TTLEvents(span, a, b, c), f);
  }

  /** The events are those of `a` becoming `b`. */
  ghost predicate Became(es: seq<ChangeEvent>, span: Span, a: Consumer, b: Consumer) {
    es == ExpectEvents(span, a.expects, b.expects, b) + JWKSEvents(span, a.jwks, b.jwks, b)
  }

  lemma ChangedBecame(from: Version, to: Version, events: seq<ChangeEvent>, id: string, a: Consumer, b: Consumer)
    requires Changed(from, to, events, id, a, b)
    ensures Became(EventsOf(events, id), Span(from.id, to.id), a, b) && b.stableID == id
  {
    IndexIsLast(from.consumers, id, a);
    IndexIsLast(to.consumers, id, b);
    IndexKeys(to.consumers, id);
    assert EventsOf(events, id) == Expected(from, to, id);
  }

  lemma OnFieldOf(es: seq<ChangeEvent>, span: Span, a: Consumer, b: Consumer, f: Field)
    requires Became(es, span, a, b)
    ensures OnField(es, f) ==
            OnField(ExpectEvents(span, a.expects, b.expects, b), f) + OnField(JWKSEvents(span, a.jwks, b.jwks, b), f)
  {
    OnFieldConcat(ExpectEvents(span, a.expects, b.expects, b), JWKSEvents(span, a.jwks, b.jwks, b), f);
  }

  lemma OnRefresh(es: seq<ChangeEvent>, span: Span, a: Consumer, b: Consumer)
    requires Became(es, span, a, b)
    ensures OnField(es, RefreshUnknown) == RefreshEvents(span, a.jwks, b.jwks, b)
  {
    OnFieldOf(es, span, a, b, RefreshUnknown);
    OnListOfExpects(span, a.expects, b.expects, b, RefreshUnknown);
    OnFieldOfJWKS(span, a.jwks, b.jwks, b, RefreshUnknown);
  }

  lemma OnTTL(es: seq<ChangeEvent>, span: Span, a: Consumer, b: Consumer)
    requires Became(es, span, a, b)
    ensures OnField(es, CacheTTL) == TTLEvents(span, a.jwks, b.jwks, b)
  {
    OnFieldOf(es, span, a, b, CacheTTL);
    OnListOfExpects(span, a.expects, b.expects, b, CacheTTL);
    OnFieldOfJWKS(span, a.jwks, b.jwks, b, CacheTTL);
  }

  lemma OnSkew(es: seq<ChangeEvent>, span: Span, a: Consumer, b: Consumer)
    requires Became(es, span, a, b)
    ensures OnField(es, ClockSkew) == SkewEvents(span, a.expects.clockSkewSec, b.expects.clockSkewSec, b)
  {
    OnFieldOf(es, span, a, b, ClockSkew);
    OnListOfExpects(span, a.expects, b.expects, b, ClockSkew);
    OnFieldOfJWKS(span, a.jwks, b.jwks, b, ClockSkew);
  }

  lemma OnList(es: seq<ChangeEvent>, span: Span, a: Consumer, b: Consumer, f: Field)
    requires Became(es, span, a, b) && DiffReplay.IsSetField(f)
    ensures OnField(es, f) == SetEvents(span, f, DiffReplay.ListOf(a.expects, f), DiffReplay.ListOf(b.expects, f), b)
  {
    OnFieldOf(es, span, a, b, f);
    OnListOfExpects(span, a.expects, b.expects, b, f);
    OnFieldOfJWKS(span, a.jwks, b.jwks, b, f);
  }

  lemma OnOther(es: seq<ChangeEvent>, span: Span, a: Consumer, b: Consumer, f: Field)
    requires Became(es, span, a, b) && (f.WholeConsumer? || f.Other?)
    ensures OnField(es, f) == []
  {
    OnFieldOf(es, span, a, b, f);
    OnListOfExpects(span, a.expects, b.expects, b, f);
    OnFieldOfJWKS(span, a.jwks, b.jwks, b, f);
  }

  /** Whether a consumer refreshes on an unknown key: one that stops is narrowed and high, one
      that starts is widened and low; and nothing is said where one side is not known. */
  ghost predicate RefreshReported(es: seq<ChangeEvent>, from: Version, to: Version, c: Consumer,
                                  was: Option<bool>, is_: Option<bool>) {
    if was == Some(true) && is_ == Some(false) then
      Reports(es, from, to, c, "jwks_behavior.refreshes_on_unknown_kid", Flag(true), Flag(false), Narrowed, High)
    else if was == Some(false) && is_ == Some(true) then
      Reports(es, from, to, c, "jwks_behavior.refreshes_on_unknown_kid", Flag(false), Flag(true), Widened, Low)
    else es == []
  }

  lemma RefreshEventsReport(es: seq<ChangeEvent>, from: Version, to: Version, id: string, a: Consumer, b: Consumer)
    requires es == RefreshEvents(Span(from.id, to.id), a.jwks, b.jwks, b) && b.stableID == id
    ensures RefreshReported(es, from, to, b, a.jwks.refreshesOnUnknownKID, b.jwks.refreshesOnUnknownKID)
  {
    var was, is_ := a.jwks.refreshesOnUnknownKID, b.jwks.refreshesOnUnknownKID;
    if was == Some(true) && is_ == Some(false) {
      OneEvent(es, from, to, id, RefreshUnknown, OpTrueToFalse, Flag(true), Flag(false), b, Narrowed, High);
    } else if was == Some(false) && is_ == Some(true) {
      OneEvent(es, from, to, id, RefreshUnknown, OpFalseToTrue, Flag(false), Flag(true), b, Widened, Low);
    }
  }

  lemma RefreshIs(from: Version, to: Version, events: seq<ChangeEvent>, id: string, a: Consumer, b: Consumer)
    requires Changed(from, to, events, id, a, b)
    ensures RefreshReported(OnField(EventsOf(events, id), RefreshUnknown), from, to, b,
                            a.jwks.refreshesOnUnknownKID, b.jwks.refreshesOnUnknownKID)
  {
    ChangedBecame(from, to, events, id, a, b);
    OnRefresh(EventsOf(events, id), Span(from.id, to.id), a, b);
    RefreshEventsReport(OnField(EventsOf(events, id), RefreshUnknown), from, to, id, a, b);
  }

  /** The cache TTL, where both sides are known: longer is narrowed and medium, shorter narrowed
      and low. */
  ghost predicate TTLReported(es: seq<ChangeEvent>, from: Version, to: Version, c: Consumer,
                              was: Option<int>, is_: Option<int>) {
    if was.None? || is_.None? || was == is_ then es == []
    else if is_.value > was.value then
      Reports(es, from, to, c, "jwks_behavior.cache_ttl_sec", Num(was.value), Num(is_.value), Narrowed, Medium)
    else
      Reports(es, from, to, c, "jwks_behavior.cache_ttl_sec", Num(was.value), Num(is_.value), Narrowed, Low)
  }

  lemma TTLEventsReport(es: seq<ChangeEvent>, from: Version, to: Version, id: string, a: Consumer, b: Consumer)
    requires es == TTLEvents(Span(from.id, to.id), a.jwks, b.jwks, b) && b.stableID == id
    ensures TTLReported(es, from, to, b, a.jwks.cacheTTLSec, b.jwks.cacheTTLSec)
  {
    var was, is_ := a.jwks.cacheTTLSec, b.jwks.cacheTTLSec;
    if was.Some? && is_.Some? && was.value < is_.value {
      OneEvent(es, from, to, id, CacheTTL, OpIncrease, Num(was.value), Num(is_.value), b, Narrowed, Medium);
    } else if was.Some? && is_.Some? && was.value > is_.value {
      OneEvent(es, from, to, id, CacheTTL, OpDecrease, Num(was.value), Num(is_.value), b, Narrowed, Low);
    }
  }

  lemma TTLIs(from: Version, to: Version, events: seq<ChangeEvent>, id: string, a: Consumer, b: Consumer)
    requires Changed(from, to, events, id, a, b)
    ensures TTLReported(OnField(EventsOf(events, id), CacheTTL), from, to, b, a.jwks.cacheTTLSec, b.jwks.cacheTTLSec)
  {
    ChangedBecame(from, to, events, id, a, b);
    OnTTL(EventsOf(events, id), Span(from.id, to.id), a, b);
    TTLEventsReport(OnField(EventsOf(events, id), CacheTTL), from, to, id, a, b);
  }

  /** The tolerated skew: more is widened and medium, less narrowed and low. */
  ghost predicate SkewReported(es: seq<ChangeEvent>, from: Version, to: Version, c: Consumer, was: int, is_: int) {
    if was == is_ then es == []
    else if is_ > was then Reports(es, from, to, c, "expects.clock_skew_sec", Num(was), Num(is_), Widened, Medium)
    else Reports(es, from, to, c, "expects.clock_skew_sec", Num(was), Num(is_), Narrowed, Low)
  }

  lemma SkewEventsReport(es: seq<ChangeEvent>, from: Version, to: Version, id: string, was: int, is_: int, c: Consumer)
    requires es == SkewEvents(Span(from.id, to.id), was, is_, c) && c.stableID == id
    ensures SkewReported(es, from, to, c, was, is_)
  {
    if was < is_ {
      OneEvent(es, from, to, id, ClockSkew, OpIncrease, Num(was), Num(is_), c, Widened, Medium);
    } else if was > is_ {
      OneEvent(es, from, to, id, ClockSkew, OpDecrease, Num(was), Num(is_), c, Narrowed, Low);
    }
  }

  lemma SkewIs(from: Version, to: Version, events: seq<ChangeEvent>, id: string, a: Consumer, b: Consumer)
    requires Changed(from, to, events, id, a, b)
    ensures SkewReported(OnField(EventsOf(events, id), ClockSkew), from, to, b, a.expects.clockSkewSec, b.expects.clockSkewSec)
  {
    ChangedBecame(from, to, events, id, a, b);
    OnSkew(EventsOf(events, id), Span(from.id, to.id), a, b);
    SkewEventsReport(OnField(EventsOf(events, id), ClockSkew), from, to, id, a.expects.clockSkewSec, b.expects.clockSkewSec, b);
  }

  lemma ExpectedOfOne(from: Version, to: Version, id: string, c: Consumer)
    ensures LastWith(from.consumers, id, c) && Lacks(to.consumers, id) ==>
              Expected(from, to, id) == [MakeEvent(Span(from.id, to.id), id, WholeConsumer, OpConsumerDel, Str(c.name), Nil, Nil, c)]
    ensures Lacks(from.consumers, id) && LastWith(to.consumers, id, c) ==>
              Expected(from, to, id) == [MakeEvent(Span(from.id, to.id), id, WholeConsumer, OpConsumerAdd, Nil, Str(c.name), Nil, c)]
  {
    if LastWith(from.consumers, id, c) && Lacks(to.consumers, id) {
      LackedIsNotIndexed(to.consumers, id);
      IndexIsLast(from.consumers, id, c);
    } else if Lacks(from.consumers, id) && LastWith(to.consumers, id, c) {
      LackedIsNotIndexed(from.consumers, id);
      IndexIsLast(to.consumers, id, c);
    }
  }

  lemma Disappeared(from: Version, to: Version, es: seq<ChangeEvent>, id: string, c: Consumer)
    requires es == [MakeEvent(Span(from.id, to.id), id, WholeConsumer, OpConsumerDel, Str(c.name), Nil, Nil, c)]
    ensures Reports(es, from, to, c, "consumer", Str(c.name), Nil, Neutral, Low) && es[0].field == WholeConsumer
  {
    OneEvent(es, from, to, id, WholeConsumer, OpConsumerDel, Str(c.name), Nil, c, Neutral, Low);
  }

  lemma Appeared(from: Version, to: Version, es: seq<ChangeEvent>, id: string, c: Consumer)
    requires es == [MakeEvent(Span(from.id, to.id), id, WholeConsumer, OpConsumerAdd, Nil, Str(c.name), Nil, c)]
    ensures Reports(es, from, to, c, "consumer", Nil, Str(c.name), Neutral, Low) && es[0].field == WholeConsumer
  {
    OneEvent(es, from, to, id, WholeConsumer, OpConsumerAdd, Nil, Str(c.name), c, Neutral, Low);
  }

  /** A consumer that appears or disappears has one event, neutral and low; one that is in
      neither version has none. */
  lemma WholeConsumerIs(from: Version, to: Version, events: seq<ChangeEvent>, id: string, c: Consumer)
    requires IsDiff(from, to, events)
    ensures var es := EventsOf(events, id);
            && (LastWith(from.consumers, id, c) && Lacks(to.consumers, id) ==>
                  Reports(es, from, to, c, "consumer", Str(c.name), Nil, Neutral, Low) && es[0].field == WholeConsumer)
            && (Lacks(from.consumers, id) && LastWith(to.consumers, id, c) ==>
                  Reports(es, from, to, c, "consumer", Nil, Str(c.name), Neutral, Low) && es[0].field == WholeConsumer)
            && (Lacks(from.consumers, id) && Lacks(to.consumers, id) ==> es == [])
  {
    assert EventsOf(events, id) == Expected(from, to, id);
    ExpectedOfOne(from, to, id, c);
    if LastWith(from.consumers, id, c) && Lacks(to.consumers, id) {
      Disappeared(from, to, EventsOf(events, id), id, c);
    }
    if Lacks(from.consumers, id) && LastWith(to.consumers, id, c) {
      Appeared(from, to, EventsOf(events, id), id, c);
    }
    if Lacks(from.consumers, id) && Lacks(to.consumers, id) {
      LackedIsNotIndexed(from.consumers, id);
      LackedIsNotIndexed(to.consumers, id);
    }
  }

  // ---- the four lists -----------------------------------------------------------------------------------

  /** The first events report these elements as new. */
  ghost predicate Gains(es: seq<ChangeEvent>, from: Version, to: Version, c: Consumer, path: string,
                        gained: seq<string>, cls: ChangeClass, sev: string -> Severity) {
    forall i :: 0 <= i < |gained| ==>
      i < |es| && Bears(es[i], from, to, c, path, Nil, Str(gained[i]), cls, sev(gained[i]))
  }

  /** The events from position `n` report these elements as lost. */
  ghost predicate Losses(es: seq<ChangeEvent>, from: Version, to: Version, c: Consumer, path: string,
                         n: nat, lost: seq<string>, cls: ChangeClass, sev: Severity) {
    forall i :: 0 <= i < |lost| ==>
      n + i < |es| && Bears(es[n + i], from, to, c, path, Str(lost[i]), Nil, cls, sev)
  }

  /** One event for each new element, in order, then one for each lost element. */
  ghost predicate ListChange(es: seq<ChangeEvent>, from: Version, to: Version, c: Consumer, path: string,
                             was: seq<string>, is_: seq<string>,
                             gainCls: ChangeClass, gainSev: string -> Severity, lossCls: ChangeClass, lossSev: Severity) {
    && |es| == |Missing(is_, was)| + |Missing(was, is_)|
    && Gains(es, from, to, c, path, Missing(is_, was), gainCls, gainSev)
    && Losses(es, from, to, c, path, |Missing(is_, was)|, Missing(was, is_), lossCls, lossSev)
  }

  lemma GainBears(from: Version, to: Version, f: Field, c: Consumer, v: string, cls: ChangeClass, sev: Severity)
    requires Classify(f, OpAdd, Str(v), 0.6) == Classification(cls, sev)
    ensures Bears(AddEvent(Span(from.id, to.id), f, c, v), from, to, c, Path(f), Nil, Str(v), cls, sev)
  {
    EventBears(from, to, c.stableID, f, OpAdd, Nil, Str(v), Str(v), c, cls, sev);
  }

  lemma LossBears(from: Version, to: Version, f: Field, c: Consumer, v: string, cls: ChangeClass, sev: Severity)
    requires Classify(f, OpRemove, Str(v), 0.6) == Classification(cls, sev)
    ensures Bears(RemoveEvent(Span(from.id, to.id), f, c, v), from, to, c, Path(f), Str(v), Nil, cls, sev)
  {
    EventBears(from, to, c.stableID, f, OpRemove, Str(v), Nil, Str(v), c, cls, sev);
  }

  lemma SetEventsSize(span: Span, f: Field, was: seq<string>, is_: seq<string>, c: Consumer)
    ensures |SetEvents(span, f, was, is_, c)| == |Missing(is_, was)| + |Missing(was, is_)|
  {
  }

  lemma GainAt(span: Span, f: Field, was: seq<string>, is_: seq<string>, c: Consumer, i: nat)
    requires i < |Missing(is_, was)| <= |SetEvents(span, f, was, is_, c)|
    ensures SetEvents(span, f, was, is_, c)[i] == AddEvent(span, f, c, Missing(is_, was)[i])
  {
  }

  lemma LossAt(span: Span, f: Field, was: seq<string>, is_: seq<string>, c: Consumer, i: nat)
    requires i < |Missing(was, is_)| && |SetEvents(span, f, was, is_, c)| == |Missing(is_, was)| + |Missing(was, is_)|
    ensures SetEvents(span, f, was, is_, c)[|Missing(is_, was)| + i] == RemoveEvent(span, f, c, Missing(was, is_)[i])
  {
  }

  lemma GainAtBears(from: Version, to: Version, f: Field, was: seq<string>, is_: seq<string>, c: Consumer,
                    es: seq<ChangeEvent>, cls: ChangeClass, sev: Severity, i: nat)
    requires es == SetEvents(Span(from.id, to.id), f, was, is_, c) && i < |Missing(is_, was)|
    requires Classify(f, OpAdd, Str(Missing(is_, was)[i]), 0.6) == Classification(cls, sev)
    ensures i < |es| && Bears(es[i], from, to, c, Path(f), Nil, Str(Missing(is_, was)[i]), cls, sev)
  {
    SetEventsSize(Span(from.id, to.id), f, was, is_, c);
    GainAt(Span(from.id, to.id), f, was, is_, c, i);
    GainBears(from, to, f, c, Missing(is_, was)[i], cls, sev);
  }

  lemma LossAtBears(from: Version, to: Version, f: Field, was: seq<string>, is_: seq<string>, c: Consumer,
                    es: seq<ChangeEvent>, n: nat, lost: seq<string>, cls: ChangeClass, sev: Severity, i: nat)
    requires es == SetEvents(Span(from.id, to.id), f, was, is_, c) && n == |Missing(is_, was)| && lost == Missing(was, is_)
    requires i < |lost| && Classify(f, OpRemove, Str(lost[i]), 0.6) == Classification(cls, sev)
    ensures n + i < |es| && Bears(es[n + i], from, to, c, Path(f), Str(lost[i]), Nil, cls, sev)
  {
    SetEventsSize(Span(from.id, to.id), f, was, is_, c);
    LossAt(Span(from.id, to.id), f, was, is_, c, i);
    LossBears(from, to, f, c, lost[i], cls, sev);
  }

  lemma GainsBear(from: Version, to: Version, f: Field, was: seq<string>, is_: seq<string>, c: Consumer,
                  es: seq<ChangeEvent>, cls: ChangeClass, sev: string -> Severity)
    requires es == SetEvents(Span(from.id, to.id), f, was, is_, c)
    requires forall v :: v in Missing(is_, was) ==> Classify(f, OpAdd, Str(v), 0.6) == Classification(cls, sev(v))
    ensures Gains(es, from, to, c, Path(f), Missing(is_, was), cls, sev)
  {
    forall i | 0 <= i < |Missing(is_, was)|
      ensures i < |es| && Bears(es[i], from, to, c, Path(f), Nil, Str(Missing(is_, was)[i]), cls, sev(Missing(is_, was)[i]))
    {
      GainAtBears(from, to, f, was, is_, c, es, cls, sev(Missing(is_, was)[i]), i);
    }
  }

  lemma LossesBear(from: Version, to: Version, f: Field, was: seq<string>, is_: seq<string>, c: Consumer,
                   es: seq<ChangeEvent>, n: nat, lost: seq<string>, cls: ChangeClass, sev: Severity)
    requires es == SetEvents(Span(from.id, to.id), f, was, is_, c) && n == |Missing(is_, was)| && lost == Missing(was, is_)
    requires forall v :: v in lost ==> Classify(f, OpRemove, Str(v), 0.6) == Classification(cls, sev)
    ensures Losses(es, from, to, c, Path(f), n, lost, cls, sev)
  {
    forall i | 0 <= i < |lost|
      ensures n + i < |es| && Bears(es[n + i], from, to, c, Path(f), Str(lost[i]), Nil, cls, sev)
    {
      LossAtBears(from, to, f, was, is_, c, es, n, lost, cls, sev, i);
    }
  }

  lemma SetEventsChange(from: Version, to: Version, f: Field, was: seq<string>, is_: seq<string>, c: Consumer,
                        es: seq<ChangeEvent>, gainCls: ChangeClass, gainSev: string -> Severity, lossCls: ChangeClass, lossSev: Severity)
    requires es == SetEvents(Span(from.id, to.id), f, was, is_, c)
    requires forall v :: v in Missing(is_, was) ==> Classify(f, OpAdd, Str(v), 0.6) == Classification(gainCls, gainSev(v))
    requires forall v :: v in Missing(was, is_) ==> Classify(f, OpRemove, Str(v), 0.6) == Classification(lossCls, lossSev)
    ensures ListChange(es, from, to, c, Path(f), was, is_, gainCls, gainSev, lossCls, lossSev)
  {
    SetEventsSize(Span(from.id, to.id), f, was, is_, c);
    GainsBear(from, to, f, was, is_, c, es, gainCls, gainSev);
    LossesBear(from, to, f, was, is_, c, es, |Missing(is_, was)|, Missing(was, is_), lossCls, lossSev);
  }

  /** A new audience is widened and medium, losing one narrowed and low. */
  ghost predicate AudiencesReported(es: seq<ChangeEvent>, from: Version, to: Version, c: Consumer, was: seq<string>, is_: seq<string>) {
    ListChange(es, from, to, c, "expects.audiences", was, is_, Widened, _ => Medium, Narrowed, Low)
  }

  /** A new issuer is widened and high, losing one narrowed and low. */
  ghost predicate IssuersReported(es: seq<ChangeEvent>, from: Version, to: Version, c: Consumer, was: seq<string>, is_: seq<string>) {
    ListChange(es, from, to, c, "expects.issuers", was, is_, Widened, _ => High, Narrowed, Low)
  }

  /** Allowing the algorithm "none" is critical, any other medium. */
  function AlgorithmSeverity(alg: string): Severity {
    if alg == "none" then Critical else Medium
  }

  /** A new algorithm is widened and as severe as that, losing one narrowed and low. */
  ghost predicate AlgorithmsReported(es: seq<ChangeEvent>, from: Version, to: Version, c: Consumer, was: seq<string>, is_: seq<string>) {
    ListChange(es, from, to, c, "expects.algorithms", was, is_, Widened, AlgorithmSeverity, Narrowed, Low)
  }

  /** Requiring one more claim is narrowed and low, no longer requiring one widened and critical. */
  ghost predicate ClaimsReported(es: seq<ChangeEvent>, from: Version, to: Version, c: Consumer, was: seq<string>, is_: seq<string>) {
    ListChange(es, from, to, c, "expects.required_claims", was, is_, Narrowed, _ => Low, Widened, Critical)
  }

  lemma AudienceEventsReport(es: seq<ChangeEvent>, from: Version, to: Version, c: Consumer, was: seq<string>, is_: seq<string>)
    requires es == SetEvents(Span(from.id, to.id), Audiences, was, is_, c)
    ensures AudiencesReported(es, from, to, c, was, is_)
  {
    SetEventsChange(from, to, Audiences, was, is_, c, es, Widened, _ => Medium, Narrowed, Low);
  }

  lemma IssuerEventsReport(es: seq<ChangeEvent>, from: Version, to: Version, c: Consumer, was: seq<string>, is_: seq<string>)
    requires es == SetEvents(Span(from.id, to.id), Issuers, was, is_, c)
    ensures IssuersReported(es, from, to, c, was, is_)
  {
    SetEventsChange(from, to, Issuers, was, is_, c, es, Widened, _ => High, Narrowed, Low);
  }

  lemma AlgorithmEventsReport(es: seq<ChangeEvent>, from: Version, to: Version, c: Consumer, was: seq<string>, is_: seq<string>)
    requires es == SetEvents(Span(from.id, to.id), Algorithms, was, is_, c)
    ensures AlgorithmsReported(es, from, to, c, was, is_)
  {
    SetEventsChange(from, to, Algorithms, was, is_, c, es, Widened, AlgorithmSeverity, Narrowed, Low);
  }

  lemma ClaimEventsReport(es: seq<ChangeEvent>, from: Version, to: Version, c: Consumer, was: seq<string>, is_: seq<string>)
    requires es == SetEvents(Span(from.id, to.id), RequiredClaims, was, is_, c)
    ensures ClaimsReported(es, from, to, c, was, is_)
  {
    SetEventsChange(from, to, RequiredClaims, was, is_, c, es, Narrowed, _ => Low, Widened, Critical);
  }

  /** The four lists of a consumer that is in both versions. */
  lemma ListsAre(from: Version, to: Version, events: seq<ChangeEvent>, id: string, a: Consumer, b: Consumer)
    requires Changed(from, to, events, id, a, b)
    ensures AudiencesReported(OnField(EventsOf(events, id), Audiences), from, to, b, a.expects.audiences, b.expects.audiences)
    ensures IssuersReported(OnField(EventsOf(events, id), Issuers), from, to, b, a.expects.issuers, b.expects.issuers)
    ensures AlgorithmsReported(OnField(EventsOf(events, id), Algorithms), from, to, b, a.expects.algorithms, b.expects.algorithms)
    ensures ClaimsReported(OnField(EventsOf(events, id), RequiredClaims), from, to, b, a.expects.requiredClaims, b.expects.requiredClaims)
  {
    ChangedBecame(from, to, events, id, a, b);
    OnList(EventsOf(events, id), Span(from.id, to.id), a, b, Audiences);
    OnList(EventsOf(events, id), Span(from.id, to.id), a, b, Issuers);
    OnList(EventsOf(events, id), Span(from.id, to.id), a, b, Algorithms);
    OnList(EventsOf(events, id), Span(from.id, to.id), a, b, RequiredClaims);
    AudienceEventsReport(OnField(EventsOf(events, id), Audiences), from, to, b, a.expects.audiences, b.expects.audiences);
    IssuerEventsReport(OnField(EventsOf(events, id), Issuers), from, to, b, a.expects.issuers, b.expects.issuers);
    AlgorithmEventsReport(OnField(EventsOf(events, id), Algorithms), from, to, b, a.expects.algorithms, b.expects.algorithms);
    ClaimEventsReport(OnField(EventsOf(events, id), RequiredClaims), from, to, b, a.expects.requiredClaims, b.expects.requiredClaims);
  }

  // ---- what pages ------------------------------------------------------------------------------------------

  ghost predicate HasSeverity(es: seq<ChangeEvent>, s: Severity) {
    exists i :: 0 <= i < |es| && es[i].severity == s
  }

  ghost predicate Sure(c: Consumer, path: string) {
    exists x :: Trusts(c, path, x) && x >= 0.6
  }

  ghost predicate NewIn(was: seq<string>, is_: seq<string>, x: string) {
    x in is_ && x !in was
  }

  lemma {:induction false} OnFieldMembers(es: seq<ChangeEvent>, f: Field)
    ensures forall e :: e in OnField(es, f) <==> e in es && e.field == f
  {
    if es != [] {
      OnFieldMembers(es[..|es| - 1], f);
      assert es == es[..|es| - 1] + [es[|es| - 1]];
    }
  }

  lemma SeverityHasField(es: seq<ChangeEvent>, s: Severity) returns (f: Field)
    requires HasSeverity(es, s)
    ensures HasSeverity(OnField(es, f), s)
  {
    var i :| 0 <= i < |es| && es[i].severity == s;
    f := es[i].field;
    OnFieldMembers(es, f);
    var part := OnField(es, f);
    assert es[i] in part;
    var k :| 0 <= k < |part| && part[k] == es[i];
  }

  lemma SeverityOfField(es: seq<ChangeEvent>, f: Field, s: Severity)
    requires HasSeverity(OnField(es, f), s)
    ensures HasSeverity(es, s)
  {
    var part := OnField(es, f);
    var k :| 0 <= k < |part| && part[k].severity == s;
    OnFieldMembers(es, f);
    assert part[k] in es;
  }

  lemma TrustIsOne(c: Consumer, path: string, x: real)
    requires Trusts(c, path, x)
    ensures Sure(c, path) <==> x >= 0.6
  {
  }

  lemma MissingIsNew(was: seq<string>, is_: seq<string>)
    ensures forall x :: x in Missing(is_, was) <==> NewIn(was, is_, x)
  {
    forall x
      ensures x in Missing(is_, was) <==> NewIn(was, is_, x)
    {
      DiffReplay.IsMissing(is_, was, x);
    }
  }

  lemma BearsSeverity(e: ChangeEvent, from: Version, to: Version, c: Consumer, path: string,
                      old_: Value, new_: Value, cls: ChangeClass, severity: Severity, s: Severity)
    requires Bears(e, from, to, c, path, old_, new_, cls, severity) && s != Info
    ensures e.severity == s <==> Sure(c, path) && severity == s
  {
    TrustIsOne(c, path, e.confidence);
  }

  lemma GainSeverity(es: seq<ChangeEvent>, from: Version, to: Version, c: Consumer, path: string,
                     gained: seq<string>, cls: ChangeClass, sev: string -> Severity, s: Severity, i: int)
    requires Gains(es, from, to, c, path, gained, cls, sev) && s != Info && 0 <= i < |gained|
    ensures i < |es| && (es[i].severity == s <==> Sure(c, path) && sev(gained[i]) == s)
  {
    var v := gained[i];
    BearsSeverity(es[i], from, to, c, path, Nil, Str(v), cls, sev(v), s);
  }

  lemma LossSeverity(es: seq<ChangeEvent>, from: Version, to: Version, c: Consumer, path: string,
                     n: nat, lost: seq<string>, cls: ChangeClass, sev: Severity, s: Severity, j: int)
    requires Losses(es, from, to, c, path, n, lost, cls, sev) && s != Info && 0 <= j < |lost|
    ensures n + j < |es| && (es[n + j].severity == s <==> Sure(c, path) && sev == s)
  {
    var v := lost[j];
    BearsSeverity(es[n + j], from, to, c, path, Str(v), Nil, cls, sev, s);
  }

  lemma GainHasSeverity(es: seq<ChangeEvent>, from: Version, to: Version, c: Consumer, path: string,
                        was: seq<string>, is_: seq<string>, gainCls: ChangeClass, gainSev: string -> Severity,
                        lossCls: ChangeClass, lossSev: Severity, s: Severity, i: int)
    requires ListChange(es, from, to, c, path, was, is_, gainCls, gainSev, lossCls, lossSev) && s != Info && 0 <= i < |es|
    ensures var gained := Missing(is_, was);
            es[i].severity == s <==> Sure(c, path) && (if i < |gained| then gainSev(gained[i]) == s else lossSev == s)
  {
    var gained, lost := Missing(is_, was), Missing(was, is_);
    if i < |gained| {
      GainSeverity(es, from, to, c, path, gained, gainCls, gainSev, s, i);
    } else {
      LossSeverity(es, from, to, c, path, |gained|, lost, lossCls, lossSev, s, i - |gained|);
    }
  }

  /** Which changes of a list have an event of severity `s`. */
  ghost predicate ListRates(c: Consumer, path: string, was: seq<string>, is_: seq<string>,
                            gainSev: string -> Severity, lossSev: Severity, s: Severity) {
    && Sure(c, path)
    && ((exists x :: NewIn(was, is_, x) && gainSev(x) == s) || (lossSev == s && exists x :: NewIn(is_, was, x)))
  }

  lemma SeverityInList(gained: seq<string>, lost: seq<string>, es: seq<ChangeEvent>, sure: bool,
                       gainSev: string -> Severity, lossSev: Severity, s: Severity)
    requires |es| == |gained| + |lost|
    requires forall i :: 0 <= i < |es| ==>
               (es[i].severity == s <==> sure && (if i < |gained| then gainSev(gained[i]) == s else lossSev == s))
    ensures HasSeverity(es, s) <==> sure && ((exists x :: x in gained && gainSev(x) == s) || (lossSev == s && lost != []))
  {
    if sure {
      if x :| x in gained && gainSev(x) == s {
        var i :| 0 <= i < |gained| && gained[i] == x;
        assert es[i].severity == s;
      }
      if lossSev == s && lost != [] {
        assert es[|gained|].severity == s;
      }
    }
    if i :| 0 <= i < |es| && es[i].severity == s {
      assert i < |gained| ==> gained[i] in gained;
    }
  }

  lemma ListHasSeverity(es: seq<ChangeEvent>, from: Version, to: Version, c: Consumer, path: string,
                        was: seq<string>, is_: seq<string>, gainCls: ChangeClass, gainSev: string -> Severity,
                        lossCls: ChangeClass, lossSev: Severity, s: Severity)
    requires ListChange(es, from, to, c, path, was, is_, gainCls, gainSev, lossCls, lossSev) && s != Info
    ensures HasSeverity(es, s) <==> ListRates(c, path, was, is_, gainSev, lossSev, s)
  {
    var gained, lost := Missing(is_, was), Missing(was, is_);
    MissingIsNew(was, is_);
    MissingIsNew(is_, was);
    forall i | 0 <= i < |es|
      ensures es[i].severity == s <==> Sure(c, path) && (if i < |gained| then gainSev(gained[i]) == s else lossSev == s)
    {
      GainHasSeverity(es, from, to, c, path, was, is_, gainCls, gainSev, lossCls, lossSev, s, i);
    }
    SeverityInList(gained, lost, es, Sure(c, path), gainSev, lossSev, s);
    assert lost != [] ==> lost[0] in lost;
  }

  lemma OneHasSeverity(es: seq<ChangeEvent>, from: Version, to: Version, c: Consumer, path: string,
                       old_: Value, new_: Value, cls: ChangeClass, severity: Severity, s: Severity)
    requires Reports(es, from, to, c, path, old_, new_, cls, severity) && s != Info
    ensures HasSeverity(es, s) <==> Sure(c, path) && severity == s
  {
    BearsSeverity(es[0], from, to, c, path, old_, new_, cls, severity, s);
    assert HasSeverity(es, s) <==> es[0].severity == s;
  }

  lemma OtherFieldsSilent(from: Version, to: Version, events: seq<ChangeEvent>, id: string, a: Consumer, b: Consumer, f: Field)
    requires Changed(from, to, events, id, a, b) && (f.WholeConsumer? || f.Other?)
    ensures OnField(EventsOf(events, id), f) == []
  {
    ChangedBecame(from, to, events, id, a, b);
    OnOther(EventsOf(events, id), Span(from.id, to.id), a, b, f);
  }

  /** Which changes of a field have an event of a severity that pages. */
  ghost predicate Pages(a: Consumer, b: Consumer, f: Field, s: Severity) {
    match f
    case Algorithms => s == Critical && Sure(b, "expects.algorithms") && NewIn(a.expects.algorithms, b.expects.algorithms, "none")
    case RequiredClaims =>
      s == Critical && Sure(b, "expects.required_claims") && exists x :: NewIn(b.expects.requiredClaims, a.expects.requiredClaims, x)
    case Issuers => s == High && Sure(b, "expects.issuers") && exists x :: NewIn(a.expects.issuers, b.expects.issuers, x)
    case RefreshUnknown =>
      s == High && Sure(b, "jwks_behavior.refreshes_on_unknown_kid")
      && a.jwks.refreshesOnUnknownKID == Some(true) && b.jwks.refreshesOnUnknownKID == Some(false)
    case _ => false
  }

  lemma AudiencesNeverPage(es: seq<ChangeEvent>, from: Version, to: Version, c: Consumer, was: seq<string>, is_: seq<string>, s: Severity)
    requires AudiencesReported(es, from, to, c, was, is_) && (s == Critical || s == High)
    ensures !HasSeverity(es, s)
  {
    ListHasSeverity(es, from, to, c, "expects.audiences", was, is_, Widened, _ => Medium, Narrowed, Low, s);
  }

  lemma IssuersPage(es: seq<ChangeEvent>, from: Version, to: Version, c: Consumer, was: seq<string>, is_: seq<string>, s: Severity)
    requires IssuersReported(es, from, to, c, was, is_) && (s == Critical || s == High)
    ensures HasSeverity(es, s) <==> s == High && Sure(c, "expects.issuers") && exists x :: NewIn(was, is_, x)
  {
    ListHasSeverity(es, from, to, c, "expects.issuers", was, is_, Widened, _ => High, Narrowed, Low, s);
  }

  lemma AlgorithmsPage(es: seq<ChangeEvent>, from: Version, to: Version, c: Consumer, was: seq<string>, is_: seq<string>, s: Severity)
    requires AlgorithmsReported(es, from, to, c, was, is_) && (s == Critical || s == High)
    ensures HasSeverity(es, s) <==> s == Critical && Sure(c, "expects.algorithms") && NewIn(was, is_, "none")
  {
    ListHasSeverity(es, from, to, c, "expects.algorithms", was, is_, Widened, AlgorithmSeverity, Narrowed, Low, s);
    assert AlgorithmSeverity("none") == Critical;
  }

  lemma ClaimsPage(es: seq<ChangeEvent>, from: Version, to: Version, c: Consumer, was: seq<string>, is_: seq<string>, s: Severity)
    requires ClaimsReported(es, from, to, c, was, is_) && (s == Critical || s == High)
    ensures HasSeverity(es, s) <==> s == Critical && Sure(c, "expects.required_claims") && exists x :: NewIn(is_, was, x)
  {
    ListHasSeverity(es, from, to, c, "expects.required_claims", was, is_, Narrowed, _ => Low, Widened, Critical, s);
  }

  lemma RefreshPages(es: seq<ChangeEvent>, from: Version, to: Version, c: Consumer, was: Option<bool>, is_: Option<bool>, s: Severity)
    requires RefreshReported(es, from, to, c, was, is_) && (s == Critical || s == High)
    ensures HasSeverity(es, s) <==>
            s == High && Sure(c, "jwks_behavior.refreshes_on_unknown_kid") && was == Some(true) && is_ == Some(false)
  {
    if was == Some(true) && is_ == Some(false) {
      OneHasSeverity(es, from, to, c, "jwks_behavior.refreshes_on_unknown_kid", Flag(true), Flag(false), Narrowed, High, s);
    } else if was == Some(false) && is_ == Some(true) {
      OneHasSeverity(es, from, to, c, "jwks_behavior.refreshes_on_unknown_kid", Flag(false), Flag(true), Widened, Low, s);
    }
  }

  lemma SkewNeverPages(es: seq<ChangeEvent>, from: Version, to: Version, c: Consumer, was: int, is_: int, s: Severity)
    requires SkewReported(es, from, to, c, was, is_) && (s == Critical || s == High)
    ensures !HasSeverity(es, s)
  {
    if was < is_ {
      OneHasSeverity(es, from, to, c, "expects.clock_skew_sec", Num(was), Num(is_), Widened, Medium, s);
    } else if was > is_ {
      OneHasSeverity(es, from, to, c, "expects.clock_skew_sec", Num(was), Num(is_), Narrowed, Low, s);
    }
  }

  lemma TTLNeverPages(es: seq<ChangeEvent>, from: Version, to: Version, c: Consumer, was: Option<int>, is_: Option<int>, s: Severity)
    requires TTLReported(es, from, to, c, was, is_) && (s == Critical || s == High)
    ensures !HasSeverity(es, s)
  {
    if was.Some? && is_.Some? && was.value < is_.value {
      OneHasSeverity(es, from, to, c, "jwks_behavior.cache_ttl_sec", Num(was.value), Num(is_.value), Narrowed, Medium, s);
    } else if was.Some? && is_.Some? && was.value > is_.value {
      OneHasSeverity(es, from, to, c, "jwks_behavior.cache_ttl_sec", Num(was.value), Num(is_.value), Narrowed, Low, s);
    }
  }

  lemma ListFieldPages(from: Version, to: Version, events: seq<ChangeEvent>, id: string, a: Consumer, b: Consumer, f: Field, s: Severity)
    requires Changed(from, to, events, id, a, b) && (s == Critical || s == High) && DiffReplay.IsSetField(f)
    ensures HasSeverity(OnField(EventsOf(events, id), f), s) <==> Pages(a, b, f, s)
  {
    ListsAre(from, to, events, id, a, b);
    var es := OnField(EventsOf(events, id), f);
    match f
    case Audiences => AudiencesNeverPage(es, from, to, b, a.expects.audiences, b.expects.audiences, s);
    case Issuers => IssuersPage(es, from, to, b, a.expects.issuers, b.expects.issuers, s);
    case Algorithms => AlgorithmsPage(es, from, to, b, a.expects.algorithms, b.expects.algorithms, s);
    case RequiredClaims => ClaimsPage(es, from, to, b, a.expects.requiredClaims, b.expects.requiredClaims, s);
  }

  lemma FieldPages(from: Version, to: Version, events: seq<ChangeEvent>, id: string, a: Consumer, b: Consumer, f: Field, s: Severity)
    requires Changed(from, to, events, id, a, b) && (s == Critical || s == High)
    ensures HasSeverity(OnField(EventsOf(events, id), f), s) <==> Pages(a, b, f, s)
  {
    var es := OnField(EventsOf(events, id), f);
    match f
    case ClockSkew =>
      SkewIs(from, to, events, id, a, b);
      SkewNeverPages(es, from, to, b, a.expects.clockSkewSec, b.expects.clockSkewSec, s);
    case RefreshUnknown =>
      RefreshIs(from, to, events, id, a, b);
      RefreshPages(es, from, to, b, a.jwks.refreshesOnUnknownKID, b.jwks.refreshesOnUnknownKID, s);
    case CacheTTL =>
      TTLIs(from, to, events, id, a, b);
      TTLNeverPages(es, from, to, b, a.jwks.cacheTTLSec, b.jwks.cacheTTLSec, s);
    case WholeConsumer => OtherFieldsSilent(from, to, events, id, a, b, f);
    case Other(_) => OtherFieldsSilent(from, to, events, id, a, b, f);
    case _ => ListFieldPages(from, to, events, id, a, b, f, s);
  }

  /** A severity that pages is found exactly where some field has it. */
  lemma PagesIff(from: Version, to: Version, events: seq<ChangeEvent>, id: string, a: Consumer, b: Consumer, s: Severity)
    requires Changed(from, to, events, id, a, b) && (s == Critical || s == High)
    ensures HasSeverity(EventsOf(events, id), s) <==>
            Pages(a, b, Algorithms, s) || Pages(a, b, RequiredClaims, s) || Pages(a, b, Issuers, s) || Pages(a, b, RefreshUnknown, s)
  {
    var es := EventsOf(events, id);
    if HasSeverity(es, s) {
      var f := SeverityHasField(es, s);
      FieldPages(from, to, events, id, a, b, f, s);
    }
    if f :| f in {Algorithms, RequiredClaims, Issuers, RefreshUnknown} && Pages(a, b, f, s) {
      FieldPages(from, to, events, id, a, b, f, s);
      SeverityOfField(es, f, s);
    }
  }

  /** A surviving consumer has a critical event exactly when it newly allows the algorithm
      "none", or no longer requires some claim, on evidence that is sure enough. */
  lemma CriticalIff(from: Version, to: Version, events: seq<ChangeEvent>, id: string, a: Consumer, b: Consumer)
    requires Changed(from, to, events, id, a, b)
    ensures HasSeverity(EventsOf(events, id), Critical) <==>
            || (Sure(b, "expects.algorithms") && NewIn(a.expects.algorithms, b.expects.algorithms, "none"))
            || (Sure(b, "expects.required_claims") && exists x :: NewIn(b.expects.requiredClaims, a.expects.requiredClaims, x))
  {
    PagesIff(from, to, events, id, a, b, Critical);
  }

  /** It has a high one exactly when it newly trusts an issuer or stopped refreshing. */
  lemma HighIff(from: Version, to: Version, events: seq<ChangeEvent>, id: string, a: Consumer, b: Consumer)
    requires Changed(from, to, events, id, a, b)
    ensures HasSeverity(EventsOf(events, id), High) <==>
            || (Sure(b, "expects.issuers") && exists x :: NewIn(a.expects.issuers, b.expects.issuers, x))
            || (Sure(b, "jwks_behavior.refreshes_on_unknown_kid")
                && a.jwks.refreshesOnUnknownKID == Some(true) && b.jwks.refreshesOnUnknownKID == Some(false))
  {
    PagesIff(from, to, events, id, a, b, High);
  }
}
