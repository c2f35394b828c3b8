/** Comparing two contract versions: atomic field changes and their classification. */
module Diff {
  import opened Prelude
  import opened Domain

  datatype Field =
    | Audiences | Issuers | Algorithms | RequiredClaims
    | ClockSkew | RefreshUnknown | CacheTTL | WholeConsumer | Other(path: string)

  datatype FieldOp =
    | OpAdd | OpRemove | OpIncrease | OpDecrease
    | OpTrueToFalse | OpFalseToTrue | OpConsumerAdd | OpConsumerDel

  datatype ChangeClass = Widened | Narrowed | Neutral | Unknown

  datatype Severity = Critical | High | Medium | Low | Info

  datatype Value = Nil | Str(s: string) | Num(n: int) | Flag(b: bool)

  datatype Classification = Classification(cls: ChangeClass, severity: Severity)

  datatype Attribution = Attribution(kind: string, ref: string, actor: string, team: string,
                                     timestamp: int, confidence: real)

  datatype ChangeEvent = ChangeEvent(
    fromVersion: string, toVersion: string, consumerID: string, field: Field,
    oldValue: Value, newValue: Value, cls: ChangeClass, severity: Severity,
    confidence: real, evidence: seq<string>, attribution: Option<Attribution>)

  const CONFIDENCE_FLOOR: real := 0.6

  function Path(f: Field): string {
    match f
    case Audiences => "expects.audiences"
    case Issuers => "expects.issuers"
    case Algorithms => "expects.algorithms"
    case RequiredClaims => "expects.required_claims"
    case ClockSkew => "expects.clock_skew_sec"
    case RefreshUnknown => "jwks_behavior.refreshes_on_unknown_kid"
    case CacheTTL => "jwks_behavior.cache_ttl_sec"
    case WholeConsumer => "consumer"
    case Other(p) => p
  }

  function Classify(field: Field, op: FieldOp, value: Value, confidence: real): Classification {
    if confidence < CONFIDENCE_FLOOR then Classification(Unknown, Info)
    else match field
      case Audiences =>
        if op == OpAdd then Classification(Widened, Medium) else Classification(Narrowed, Low)
      case Issuers =>
        if op == OpAdd then Classification(Widened, High) else Classification(Narrowed, Low)
      case Algorithms =>
        if op == OpAdd then
          if value == Str("none") then Classification(Widened, Critical) else Classification(Widened, Medium)
        else Classification(Narrowed, Low)
      case RequiredClaims =>
        if op == OpAdd then Classification(Narrowed, Low) else Classification(Widened, Critical)
      case ClockSkew =>
        if op == OpIncrease then Classification(Widened, Medium) else Classification(Narrowed, Low)
      case RefreshUnknown =>
        if op == OpTrueToFalse then Classification(Narrowed, High) else Classification(Widened, Low)
      case CacheTTL =>
        if op == OpIncrease then Classification(Narrowed, Medium) else Classification(Narrowed, Low)
      case WholeConsumer => Classification(Neutral, Low)
      case Other(_) => Classification(Unknown, Info)
  }

  function ConfidenceFor(c: Consumer, field: Field): real {
    if Path(field) in c.confidence then c.confidence[Path(field)]
    else if "overall" in c.confidence then c.confidence["overall"]
    else 1.0
  }

  function Locators(recs: seq<Provenance>): seq<string> {
    if recs == [] then [] else
      var r := recs[0];
      (if r.locator != "" then [r.locator] else if r.source != "" then [r.source] else []) + Locators(recs[1..])
  }

  function EvidenceFor(c: Consumer, field: Field): seq<string> {
    if Path(field) in c.provenance then Locators(c.provenance[Path(field)]) else []
  }

  /** Which two versions are being compared. */
  datatype Span = Span(from: string, to: string)

  function MakeEvent(span: Span, id: string, field: Field, op: FieldOp, oldV: Value, newV: Value,
                     val: Value, c: Consumer): ChangeEvent
  {
    var cl := Classify(field, op, val, ConfidenceFor(c, field));
    ChangeEvent(span.from, span.to, id, field, oldV, newV, cl.cls, cl.severity,
                ConfidenceFor(c, field), EvidenceFor(c, field), None)
  }

  // ---- what the events of one consumer are ----------------------------------------

  /** The elements of `s` that are not in `other`, in order, duplicates included. */
  function Missing(s: seq<string>, other: seq<string>): seq<string> {
    if s == [] then [] else
      Missing(s[..|s| - 1], other) + if s[|s| - 1] in other then [] else [s[|s| - 1]]
  }

  function AddEvent(span: Span, field: Field, c: Consumer, v: string): ChangeEvent {
    MakeEvent(span, c.stableID, field, OpAdd, Nil, Str(v), Str(v), c)
  }

  function RemoveEvent(span: Span, field: Field, c: Consumer, v: string): ChangeEvent {
    MakeEvent(span, c.stableID, field, OpRemove, Str(v), Nil, Str(v), c)
  }

  function SetEvents(span: Span, field: Field, from: seq<string>, to: seq<string>, c: Consumer): seq<ChangeEvent> {
    Map((v: string) => AddEvent(span, field, c, v), Missing(to, from))
      + Map((v: string) => RemoveEvent(span, field, c, v), Missing(from, to))
  }

  function SkewEvents(span: Span, from: int, to: int, c: Consumer): seq<ChangeEvent> {
    if from == to then [] else
      [MakeEvent(span, c.stableID, ClockSkew, if to < from then OpDecrease else OpIncrease, Num(from), Num(to), Nil, c)]
  }

  function ExpectEvents(span: Span, from: Expectations, to: Expectations, c: Consumer): seq<ChangeEvent> {
    SetEvents(span, Audiences, from.audiences, to.audiences, c)
      + SetEvents(span, Issuers, from.issuers, to.issuers, c)
      + SetEvents(span, Algorithms, from.algorithms, to.algorithms, c)
      + SetEvents(span, RequiredClaims, from.requiredClaims, to.requiredClaims, c)
      + SkewEvents(span, from.clockSkewSec, to.clockSkewSec, c)
  }

  /** Only fields known on both sides are compared: learning a value is not a change. */
  function RefreshEvents(span: Span, from: JWKSBehavior, to: JWKSBehavior, c: Consumer): seq<ChangeEvent> {
    match (from.refreshesOnUnknownKID, to.refreshesOnUnknownKID)
    case (Some(a), Some(b)) =>
      if a == b then [] else
        [MakeEvent(span, c.stableID, RefreshUnknown, if a then OpTrueToFalse else OpFalseToTrue, Flag(a), Flag(b), Nil, c)]
    case _ => []
  }

  function TTLEvents(span: Span, from: JWKSBehavior, to: JWKSBehavior, c: Consumer): seq<ChangeEvent> {
    match (from.cacheTTLSec, to.cacheTTLSec)
    case (Some(a), Some(b)) =>
      if a == b then [] else
        [MakeEvent(span, c.stableID, CacheTTL, if b < a then OpDecrease else OpIncrease, Num(a), Num(b), Nil, c)]
    case _ => []
  }

  function JWKSEvents(span: Span, from: JWKSBehavior, to: JWKSBehavior, c: Consumer): seq<ChangeEvent> {
    RefreshEvents(span, from, to, c) + TTLEvents(span, from, to, c)
  }

  function ConsumerEvents(span: Span, from: Consumer, to: Consumer): seq<ChangeEvent> {
    ExpectEvents(span, from.expects, to.expects, to) + JWKSEvents(span, from.jwks, to.jwks, to)
  }

  /** Consumers by StableID; the last one with an ID wins. */
  function Index(cs: seq<Consumer>): map<string, Consumer> {
    if cs == [] then map[] else Index(cs[..|cs| - 1])[cs[|cs| - 1].stableID := cs[|cs| - 1]]
  }

  /** Everything there is to report about one StableID, given the two indexes. */
  function Report(span: Span, f: map<string, Consumer>, t: map<string, Consumer>, id: string): seq<ChangeEvent> {
    if id in f && id in t then ConsumerEvents(span, f[id], t[id])
    else if id in f then [MakeEvent(span, id, WholeConsumer, OpConsumerDel, Str(f[id].name), Nil, Nil, f[id])]
    else if id in t then [MakeEvent(span, id, WholeConsumer, OpConsumerAdd, Nil, Str(t[id].name), Nil, t[id])]
    else []
  }

  function Expected(from: Version, to: Version, id: string): seq<ChangeEvent> {
    Report(Span(from.id, to.id), Index(from.consumers), Index(to.consumers), id)
  }

  function EventsOf(events: seq<ChangeEvent>, id: string): seq<ChangeEvent> {
    if events == [] then [] else
      EventsOf(events[..|events| - 1], id)
        + if events[|events| - 1].consumerID == id then [events[|events| - 1]] else []
  }

  /** `events` is a diff of the two versions: map iteration leaves the order of the
      consumers open, and everything else is fixed. */
  ghost predicate IsDiff(from: Version, to: Version, events: seq<ChangeEvent>) {
    forall id :: EventsOf(events, id) == Expected(from, to, id)
  }

  // ---- computing them ---------------------------------------------------------------

  lemma {:induction false} EventsOfConcat(a: seq<ChangeEvent>, b: seq<ChangeEvent>, id: string)
    ensures EventsOf(a + b, id) == EventsOf(a, id) + EventsOf(b, id)
  {
    if b == [] {
      assert a + b == a;
    } else {
      EventsOfConcat(a, b[..|b| - 1], id);
      assert (a + b)[..|a + b| - 1] == a + b[..|b| - 1];
    }
  }

  ghost predicate About(events: seq<ChangeEvent>, id: string) {
    forall i :: 0 <= i < |events| ==> events[i].consumerID == id
  }

  /** A block of events about one consumer. */
  lemma {:induction false} EventsOfBlock(block: seq<ChangeEvent>, id: string, other: string)
    requires About(block, id)
    ensures EventsOf(block, other) == if other == id then block else []
  {
    if block != [] {
      EventsOfBlock(block[..|block| - 1], id, other);
      assert block == block[..|block| - 1] + [block[|block| - 1]];
    }
  }

  lemma SetEventsAbout(span: Span, field: Field, from: seq<string>, to: seq<string>, c: Consumer)
    ensures About(SetEvents(span, field, from, to, c), c.stableID)
  {
  }

  lemma AboutJoins(a: seq<ChangeEvent>, b: seq<ChangeEvent>, id: string)
    requires About(a, id) && About(b, id)
    ensures About(a + b, id)
  {
  }

  lemma JWKSEventsAbout(span: Span, from: JWKSBehavior, to: JWKSBehavior, c: Consumer)
    ensures About(JWKSEvents(span, from, to, c), c.stableID)
  {
    assert About(RefreshEvents(span, from, to, c), c.stableID);
    assert About(TTLEvents(span, from, to, c), c.stableID);
    AboutJoins(RefreshEvents(span, from, to, c), TTLEvents(span, from, to, c), c.stableID);
  }

  lemma ExpectEventsAbout(span: Span, from: Expectations, to: Expectations, c: Consumer)
    ensures About(ExpectEvents(span, from, to, c), c.stableID)
  {
    var aud, iss := SetEvents(span, Audiences, from.audiences, to.audiences, c), SetEvents(span, Issuers, from.issuers, to.issuers, c);
    var alg := SetEvents(span, Algorithms, from.algorithms, to.algorithms, c);
    var req := SetEvents(span, RequiredClaims, from.requiredClaims, to.requiredClaims, c);
    var skew := SkewEvents(span, from.clockSkewSec, to.clockSkewSec, c);
    SetEventsAbout(span, Audiences, from.audiences, to.audiences, c);
    SetEventsAbout(span, Issuers, from.issuers, to.issuers, c);
    SetEventsAbout(span, Algorithms, from.algorithms, to.algorithms, c);
    SetEventsAbout(span, RequiredClaims, from.requiredClaims, to.requiredClaims, c);
    assert About(skew, c.stableID);
    AboutJoins(aud, iss, c.stableID);
    AboutJoins(aud + iss, alg, c.stableID);
    AboutJoins(aud + iss + alg, req, c.stableID);
    AboutJoins(aud + iss + alg + req, skew, c.stableID);
  }

  lemma ConsumerEventsAbout(span: Span, from: Consumer, to: Consumer)
    ensures About(ConsumerEvents(span, from, to), to.stableID)
  {
    ExpectEventsAbout(span, from.expects, to.expects, to);
    JWKSEventsAbout(span, from.jwks, to.jwks, to);
    AboutJoins(ExpectEvents(span, from.expects, to.expects, to), JWKSEvents(span, from.jwks, to.jwks, to), to.stableID);
  }

  lemma {:induction false} IndexKeys(cs: seq<Consumer>, id: string)
    ensures id in Index(cs) ==> Index(cs)[id].stableID == id
    ensures id in Index(cs) ==> Index(cs)[id] in cs
    ensures id in Index(cs) <==> exists i :: 0 <= i < |cs| && cs[i].stableID == id
  {
    if cs != [] {
      IndexKeys(cs[..|cs| - 1], id);
      assert cs == cs[..|cs| - 1] + [cs[|cs| - 1]];
      assert forall i :: 0 <= i < |cs| - 1 ==> cs[..|cs| - 1][i] == cs[i];
    }
  }

  method IndexByStableID(cs: seq<Consumer>) returns (m: map<string, Consumer>)
    ensures m == Index(cs)
  {
    m := map[];
    for i := 0 to |cs|
      invariant m == Index(cs[..i])
    {
      m := m[cs[i].stableID := cs[i]];
      assert cs[..i + 1][..i] == cs[..i];
    }
    assert cs[..|cs|] == cs;
  }

  method DiffSet(span: Span, field: Field, from: seq<string>, to: seq<string>, c: Consumer)
    returns (events: seq<ChangeEvent>)
    ensures events == SetEvents(span, field, from, to, c)
  {
    var adds := Emit((v: string) => AddEvent(span, field, c, v), to, from);
    var removes := Emit((v: string) => RemoveEvent(span, field, c, v), from, to);
    events := adds + removes;
  }

  /** One of the two loops: an event for each value of `s` that `other` lacks. */
  method Emit(event: string -> ChangeEvent, s: seq<string>, other: seq<string>) returns (events: seq<ChangeEvent>)
    ensures events == Map(event, Missing(s, other))
  {
    events := [];
    for i := 0 to |s|
      invariant events == Map(event, Missing(s[..i], other))
    {
      assert s[..i + 1][..i] == s[..i];
      if s[i] !in other {
        events := events + [event(s[i])];
      }
    }
    assert s[..|s|] == s;
  }

  method DiffConsumer(span: Span, from: Consumer, to: Consumer) returns (events: seq<ChangeEvent>)
    ensures events == ConsumerEvents(span, from, to)
  {
    var aud := DiffSet(span, Audiences, from.expects.audiences, to.expects.audiences, to);
    var iss := DiffSet(span, Issuers, from.expects.issuers, to.expects.issuers, to);
    var alg := DiffSet(span, Algorithms, from.expects.algorithms, to.expects.algorithms, to);
    var req := DiffSet(span, RequiredClaims, from.expects.requiredClaims, to.expects.requiredClaims, to);
    events := aud + iss + alg + req
      + SkewEvents(span, from.expects.clockSkewSec, to.expects.clockSkewSec, to)
      + JWKSEvents(span, from.jwks, to.jwks, to);
  }

  ghost predicate Keyed(t: map<string, Consumer>) {
    forall id :: id in t ==> t[id].stableID == id
  }

  /** The events so far are complete for `done` and silent about everyone else. */
  ghost predicate Partial(span: Span, f: map<string, Consumer>, t: map<string, Consumer>,
                          events: seq<ChangeEvent>, done: set<string>) {
    forall id :: EventsOf(events, id) == if id in done then Report(span, f, t, id) else []
  }

  lemma ReportAbout(span: Span, f: map<string, Consumer>, t: map<string, Consumer>, id: string)
    requires Keyed(t)
    ensures About(Report(span, f, t, id), id)
  {
    if id in f && id in t {
      ConsumerEventsAbout(span, f[id], t[id]);
    }
  }

  lemma PartialStep(span: Span, f: map<string, Consumer>, t: map<string, Consumer>,
                    events: seq<ChangeEvent>, done: set<string>, id: string, block: seq<ChangeEvent>)
    requires Keyed(t) && Partial(span, f, t, events, done) && id !in done && block == Report(span, f, t, id)
    ensures Partial(span, f, t, events + block, done + {id})
  {
    ReportAbout(span, f, t, id);
    forall other
      ensures EventsOf(events + block, other) == if other in done + {id} then Report(span, f, t, other) else []
    {
      BlockAdds(events, block, id, other);
    }
  }

  lemma BlockAdds(events: seq<ChangeEvent>, block: seq<ChangeEvent>, id: string, other: string)
    requires About(block, id)
    ensures EventsOf(events + block, other) == if other == id then EventsOf(events, id) + block else EventsOf(events, other)
  {
    EventsOfConcat(events, block, other);
    EventsOfBlock(block, id, other);
  }

  method RemovedConsumers(span: Span, f: map<string, Consumer>, t: map<string, Consumer>)
    returns (events: seq<ChangeEvent>)
    requires Keyed(t)
    ensures Partial(span, f, t, events, f.Keys - t.Keys)
  {
    events := [];
    ghost var done: set<string> := {};
    var todo := f.Keys;
    while todo != {}
      invariant todo <= f.Keys && done == f.Keys - todo - t.Keys
      invariant Partial(span, f, t, events, done)
    {
      var id :| id in todo;
      todo := todo - {id};
      if id !in t {
        var block := [MakeEvent(span, id, WholeConsumer, OpConsumerDel, Str(f[id].name), Nil, Nil, f[id])];
        PartialStep(span, f, t, events, done, id, block);
        events := events + block;
        done := done + {id};
      }
    }
  }

  method AddedOrChangedOne(span: Span, f: map<string, Consumer>, t: map<string, Consumer>, id: string)
    returns (block: seq<ChangeEvent>)
    requires id in t
    ensures block == Report(span, f, t, id)
  {
    if id !in f {
      block := [MakeEvent(span, id, WholeConsumer, OpConsumerAdd, Nil, Str(t[id].name), Nil, t[id])];
    } else {
      block := DiffConsumer(span, f[id], t[id]);
    }
  }

  method AddedOrChanged(span: Span, f: map<string, Consumer>, t: map<string, Consumer>, events0: seq<ChangeEvent>)
    returns (events: seq<ChangeEvent>)
    requires Keyed(t) && Partial(span, f, t, events0, f.Keys - t.Keys)
    ensures Partial(span, f, t, events, f.Keys + t.Keys)
  {
    events := events0;
    ghost var done := f.Keys - t.Keys;
    var todo := t.Keys;
    while todo != {}
      invariant todo <= t.Keys && done == (f.Keys - t.Keys) + (t.Keys - todo)
      invariant Partial(span, f, t, events, done)
    {
      var id :| id in todo;
      todo := todo - {id};
      var block := AddedOrChangedOne(span, f, t, id);
      PartialStep(span, f, t, events, done, id, block);
      events := events + block;
      done := done + {id};
    }
    assert done == f.Keys + t.Keys;
  }

  method Compute(from: Version, to: Version) returns (events: seq<ChangeEvent>)
    ensures IsDiff(from, to, events)
  {
    var span := Span(from.id, to.id);
    var fromByID := IndexByStableID(from.consumers);
    var toByID := IndexByStableID(to.consumers);
    forall id | id in toByID
      ensures toByID[id].stableID == id
    {
      IndexKeys(to.consumers, id);
    }
    events := RemovedConsumers(span, fromByID, toByID);
    events := AddedOrChanged(span, fromByID, toByID, events);
  }
}
