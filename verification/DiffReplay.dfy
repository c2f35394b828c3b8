/** Diff events replayed: they rebuild the newer version, and equal hashes have none. */
module DiffReplay {
  import opened Prelude
  import opened Ordering
  import opened Domain
  import opened Canon
  import opened Diff

  /** The part of a consumer its expectation events talk about. */
  datatype View = View(audiences: set<string>, issuers: set<string>, algorithms: set<string>,
                       claims: set<string>, skew: int)

  function ViewOf(c: Consumer): View {
    View(Elems(c.expects.audiences), Elems(c.expects.issuers), Elems(c.expects.algorithms),
         Elems(c.expects.requiredClaims), c.expects.clockSkewSec)
  }

  predicate IsSetField(f: Field) {
    f.Audiences? || f.Issuers? || f.Algorithms? || f.RequiredClaims?
  }

  function GetSet(v: View, f: Field): set<string>
    requires IsSetField(f)
  {
    match f
    case Audiences => v.audiences
    case Issuers => v.issuers
    case Algorithms => v.algorithms
    case RequiredClaims => v.claims
  }

  function PutSet(v: View, f: Field, s: set<string>): View
    requires IsSetField(f)
  {
    match f
    case Audiences => v.(audiences := s)
    case Issuers => v.(issuers := s)
    case Algorithms => v.(algorithms := s)
    case RequiredClaims => v.(claims := s)
  }

  /** What a reader of the event does to its own copy: a new value goes in, an old one out. */
  function ApplyEvent(v: View, e: ChangeEvent): View {
    if IsSetField(e.field) then
      match (e.oldValue, e.newValue)
      case (Nil, Str(x)) => PutSet(v, e.field, GetSet(v, e.field) + {x})
      case (Str(x), Nil) => PutSet(v, e.field, GetSet(v, e.field) - {x})
      case _ => v
    else if e.field.ClockSkew? && e.newValue.Num? then v.(skew := e.newValue.n)
    else v
  }

  function Replay(v: View, events: seq<ChangeEvent>): View {
    if events == [] then v else ApplyEvent(Replay(v, events[..|events| - 1]), events[|events| - 1])
  }

  lemma {:induction false} ReplayConcat(v: View, a: seq<ChangeEvent>, b: seq<ChangeEvent>)
    ensures Replay(v, a + b) == Replay(Replay(v, a), b)
  {
    if b == [] {
      assert a + b == a;
    } else {
      ReplayConcat(v, a, b[..|b| - 1]);
      assert (a + b)[..|a + b| - 1] == a + b[..|b| - 1];
    }
  }

  lemma {:induction false} ReplayAdds(v: View, span: Span, f: Field, c: Consumer, xs: seq<string>)
    requires IsSetField(f)
    ensures Replay(v, Map((x: string) => AddEvent(span, f, c, x), xs)) == PutSet(v, f, GetSet(v, f) + Elems(xs))
  {
    var add := (x: string) => AddEvent(span, f, c, x);
    if xs != [] {
      var init, last := xs[..|xs| - 1], xs[|xs| - 1];
      ReplayAdds(v, span, f, c, init);
      assert Map(add, xs)[..|xs| - 1] == Map(add, init);
      assert Elems(xs) == Elems(init) + {last};
      assert GetSet(v, f) + Elems(xs) == GetSet(v, f) + Elems(init) + {last};
    } else {
      assert GetSet(v, f) + Elems(xs) == GetSet(v, f);
    }
  }

  lemma {:induction false} ReplayRemoves(v: View, span: Span, f: Field, c: Consumer, xs: seq<string>)
    requires IsSetField(f)
    ensures Replay(v, Map((x: string) => RemoveEvent(span, f, c, x), xs)) == PutSet(v, f, GetSet(v, f) - Elems(xs))
  {
    var remove := (x: string) => RemoveEvent(span, f, c, x);
    if xs != [] {
      var init, last := xs[..|xs| - 1], xs[|xs| - 1];
      ReplayRemoves(v, span, f, c, init);
      assert Map(remove, xs)[..|xs| - 1] == Map(remove, init);
      assert Elems(xs) == Elems(init) + {last};
      assert GetSet(v, f) - Elems(xs) == GetSet(v, f) - Elems(init) - {last};
    } else {
      assert GetSet(v, f) - Elems(xs) == GetSet(v, f);
    }
  }

  lemma {:induction false} IsMissing(s: seq<string>, other: seq<string>, x: string)
    ensures x in Missing(s, other) <==> x in s && x !in other
  {
    if s != [] {
      IsMissing(s[..|s| - 1], other, x);
      assert s == s[..|s| - 1] + [s[|s| - 1]];
    }
  }

  lemma MissingMembers(s: seq<string>, other: seq<string>)
    ensures Elems(Missing(s, other)) == Elems(s) - Elems(other)
  {
    forall x
      ensures x in Elems(Missing(s, other)) <==> x in Elems(s) - Elems(other)
    {
      IsMissing(s, other, x);
    }
  }

  /** The events of one set field turn the old elements into the new ones. */
  lemma ReplaySetEvents(v: View, span: Span, f: Field, from: seq<string>, to: seq<string>, c: Consumer)
    requires IsSetField(f) && GetSet(v, f) == Elems(from)
    ensures Replay(v, SetEvents(span, f, from, to, c)) == PutSet(v, f, Elems(to))
  {
    var adds := Map((x: string) => AddEvent(span, f, c, x), Missing(to, from));
    var removes := Map((x: string) => RemoveEvent(span, f, c, x), Missing(from, to));
    ReplayConcat(v, adds, removes);
    ReplayAdds(v, span, f, c, Missing(to, from));
    ReplayRemoves(Replay(v, adds), span, f, c, Missing(from, to));
    MissingMembers(to, from);
    MissingMembers(from, to);
    assert Elems(from) + (Elems(to) - Elems(from)) - (Elems(from) - Elems(to)) == Elems(to);
  }

  lemma ReplayJWKS(v: View, span: Span, from: JWKSBehavior, to: JWKSBehavior, c: Consumer)
    ensures Replay(v, JWKSEvents(span, from, to, c)) == v
  {
    var events := JWKSEvents(span, from, to, c);
    assert forall i :: 0 <= i < |events| ==> events[i].field.RefreshUnknown? || events[i].field.CacheTTL?;
    ReplayForeign(v, events);
  }

  lemma {:induction false} ReplayForeign(v: View, events: seq<ChangeEvent>)
    requires forall i :: 0 <= i < |events| ==> !IsSetField(events[i].field) && !events[i].field.ClockSkew?
    ensures Replay(v, events) == v
  {
    if events != [] {
      ReplayForeign(v, events[..|events| - 1]);
    }
  }

  lemma ReplayFour(v: View, a: seq<ChangeEvent>, b: seq<ChangeEvent>, c: seq<ChangeEvent>, d: seq<ChangeEvent>)
    ensures Replay(v, a + b + c + d) == Replay(Replay(Replay(Replay(v, a), b), c), d)
  {
    ReplayConcat(v, a + b + c, d);
    ReplayConcat(v, a + b, c);
    ReplayConcat(v, a, b);
  }

  lemma ReplaySkew(v: View, span: Span, from: int, to: int, c: Consumer)
    requires v.skew == from
    ensures Replay(v, SkewEvents(span, from, to, c)) == v.(skew := to)
  {
    var skew := SkewEvents(span, from, to, c);
    if skew != [] {
      assert skew[..0] == [];
    }
  }

  /** Replaying a consumer's events over its old expectations gives exactly its new ones. */
  lemma ReplayConsumer(span: Span, from: Consumer, to: Consumer)
    ensures Replay(ViewOf(from), ConsumerEvents(span, from, to)) == ViewOf(to)
  {
    var v0, e, f := ViewOf(from), from.expects, to.expects;
    var aud := SetEvents(span, Audiences, e.audiences, f.audiences, to);
    var iss := SetEvents(span, Issuers, e.issuers, f.issuers, to);
    var alg := SetEvents(span, Algorithms, e.algorithms, f.algorithms, to);
    var req := SetEvents(span, RequiredClaims, e.requiredClaims, f.requiredClaims, to);
    var skew := SkewEvents(span, e.clockSkewSec, f.clockSkewSec, to);
    var jwks := JWKSEvents(span, from.jwks, to.jwks, to);
    ReplayConcat(v0, aud + iss + alg + req + skew, jwks);
    ReplayConcat(v0, aud + iss + alg + req, skew);
    ReplayFour(v0, aud, iss, alg, req);
    var v1 := Replay(v0, aud);
    var v2 := Replay(v1, iss);
    var v3 := Replay(v2, alg);
    var v4 := Replay(v3, req);
    ReplaySetEvents(v0, span, Audiences, e.audiences, f.audiences, to);
    ReplaySetEvents(v1, span, Issuers, e.issuers, f.issuers, to);
    ReplaySetEvents(v2, span, Algorithms, e.algorithms, f.algorithms, to);
    ReplaySetEvents(v3, span, RequiredClaims, e.requiredClaims, f.requiredClaims, to);
    ReplaySkew(v4, span, e.clockSkewSec, f.clockSkewSec, to);
    ReplayJWKS(Replay(v4, skew), span, from.jwks, to.jwks, to);
  }

  /** Read off a diff: replaying the events about a surviving consumer rebuilds it. */
  lemma DiffReplays(from: Version, to: Version, events: seq<ChangeEvent>, id: string)
    requires IsDiff(from, to, events)
    requires id in Index(from.consumers) && id in Index(to.consumers)
    ensures Replay(ViewOf(Index(from.consumers)[id]), EventsOf(events, id)) == ViewOf(Index(to.consumers)[id])
  {
    assert EventsOf(events, id) == Expected(from, to, id);
    ReplayConsumer(Span(from.id, to.id), Index(from.consumers)[id], Index(to.consumers)[id]);
  }

  // ---- conservation ------------------------------------------------------------

  /** Additions minus removals reported for one field. */
  function Net(events: seq<ChangeEvent>, f: Field): int {
    if events == [] then 0 else
      var e := events[|events| - 1];
      Net(events[..|events| - 1], f)
        + if e.field != f then 0 else if e.newValue.Str? then 1 else if e.oldValue.Str? then -1 else 0
  }

  lemma {:induction false} NetConcat(a: seq<ChangeEvent>, b: seq<ChangeEvent>, f: Field)
    ensures Net(a + b, f) == Net(a, f) + Net(b, f)
  {
    if b == [] {
      assert a + b == a;
    } else {
      NetConcat(a, b[..|b| - 1], f);
      assert (a + b)[..|a + b| - 1] == a + b[..|b| - 1];
    }
  }

  lemma {:induction false} NetOfAdds(span: Span, f: Field, c: Consumer, xs: seq<string>, g: Field)
    ensures Net(Map((x: string) => AddEvent(span, f, c, x), xs), g) == if f == g then |xs| else 0
  {
    var add := (x: string) => AddEvent(span, f, c, x);
    if xs != [] {
      NetOfAdds(span, f, c, xs[..|xs| - 1], g);
      assert Map(add, xs)[..|xs| - 1] == Map(add, xs[..|xs| - 1]);
    }
  }

  lemma {:induction false} NetOfRemoves(span: Span, f: Field, c: Consumer, xs: seq<string>, g: Field)
    ensures Net(Map((x: string) => RemoveEvent(span, f, c, x), xs), g) == if f == g then -|xs| else 0
  {
    var remove := (x: string) => RemoveEvent(span, f, c, x);
    if xs != [] {
      NetOfRemoves(span, f, c, xs[..|xs| - 1], g);
      assert Map(remove, xs)[..|xs| - 1] == Map(remove, xs[..|xs| - 1]);
    }
  }

  lemma NetOfSetEvents(span: Span, f: Field, from: seq<string>, to: seq<string>, c: Consumer, g: Field)
    ensures Net(SetEvents(span, f, from, to, c), g) == if f == g then |Missing(to, from)| - |Missing(from, to)| else 0
  {
    NetConcat(Map((x: string) => AddEvent(span, f, c, x), Missing(to, from)),
              Map((x: string) => RemoveEvent(span, f, c, x), Missing(from, to)), g);
    NetOfAdds(span, f, c, Missing(to, from), g);
    NetOfRemoves(span, f, c, Missing(from, to), g);
  }

  lemma {:induction false} MissingSize(s: seq<string>, other: seq<string>)
    requires Distinct(s)
    ensures |Missing(s, other)| == |Elems(s) - Elems(other)| && |s| == |Elems(s)|
  {
    if s != [] {
      var init, last := s[..|s| - 1], s[|s| - 1];
      MissingSize(init, other);
      assert last !in init;
      assert Elems(s) == Elems(init) + {last};
      if last in other {
        assert Elems(s) - Elems(other) == Elems(init) - Elems(other);
      } else {
        assert Elems(s) - Elems(other) == (Elems(init) - Elems(other)) + {last};
      }
    }
  }

  /** Without duplicates, each field's additions minus removals are its change in size. */
  lemma NetIsGrowth(from: seq<string>, to: seq<string>)
    requires Distinct(from) && Distinct(to)
    ensures |Missing(to, from)| - |Missing(from, to)| == |to| - |from|
  {
    var a, b := Elems(from), Elems(to);
    MissingSize(from, to);
    MissingSize(to, from);
    assert a == (a - b) + (a * b) && b == (b - a) + (a * b);
    assert |a| == |a - b| + |a * b| && |b| == |b - a| + |a * b|;
  }

  function ListOf(e: Expectations, f: Field): seq<string>
    requires IsSetField(f)
  {
    match f
    case Audiences => e.audiences
    case Issuers => e.issuers
    case Algorithms => e.algorithms
    case RequiredClaims => e.requiredClaims
  }

  /** What one field's list contributes to the net count of another. */
  function NetPart(from: Expectations, to: Expectations, f: Field, g: Field): int
    requires IsSetField(f)
  {
    if f != g then 0 else |Missing(ListOf(to, f), ListOf(from, f))| - |Missing(ListOf(from, f), ListOf(to, f))|
  }

  lemma NetOfExpectations(span: Span, e: Expectations, g: Expectations, c: Consumer, f: Field)
    requires IsSetField(f)
    ensures Net(ExpectEvents(span, e, g, c), f) ==
            NetPart(e, g, Audiences, f) + NetPart(e, g, Issuers, f) + NetPart(e, g, Algorithms, f)
              + NetPart(e, g, RequiredClaims, f)
  {
    var aud := SetEvents(span, Audiences, e.audiences, g.audiences, c);
    var iss := SetEvents(span, Issuers, e.issuers, g.issuers, c);
    var alg := SetEvents(span, Algorithms, e.algorithms, g.algorithms, c);
    var req := SetEvents(span, RequiredClaims, e.requiredClaims, g.requiredClaims, c);
    var skew := SkewEvents(span, e.clockSkewSec, g.clockSkewSec, c);
    NetConcat(aud + iss + alg + req, skew, f);
    NetConcat(aud + iss + alg, req, f);
    NetConcat(aud + iss, alg, f);
    NetConcat(aud, iss, f);
    NetOfSetEvents(span, Audiences, e.audiences, g.audiences, c, f);
    NetOfSetEvents(span, Issuers, e.issuers, g.issuers, c, f);
    NetOfSetEvents(span, Algorithms, e.algorithms, g.algorithms, c, f);
    NetOfSetEvents(span, RequiredClaims, e.requiredClaims, g.requiredClaims, c, f);
    NetOfForeign(skew, f);
  }

  /** How many positions of `s` hold something `other` has too. */
  function Shared(s: seq<string>, other: seq<string>): nat {
    if s == [] then 0 else
      Shared(s[..|s| - 1], other) + if s[|s| - 1] in other then 1 else 0
  }

  lemma {:induction false} MissingOrShared(s: seq<string>, other: seq<string>)
    ensures |Missing(s, other)| + Shared(s, other) == |s|
  {
    if s != [] {
      MissingOrShared(s[..|s| - 1], other);
    }
  }

  lemma NetOfField(e: Expectations, g: Expectations, f: Field)
    requires IsSetField(f)
    ensures NetPart(e, g, Audiences, f) + NetPart(e, g, Issuers, f) + NetPart(e, g, Algorithms, f)
              + NetPart(e, g, RequiredClaims, f) == |Missing(ListOf(g, f), ListOf(e, f))| - |Missing(ListOf(e, f), ListOf(g, f))|
  {
  }

  /** With duplicates the count can be off: it is the change in size if and only if the
      elements both lists have fill equally many positions of each. */
  lemma NetIsGrowthIff(span: Span, from: Consumer, to: Consumer, f: Field)
    requires IsSetField(f)
    ensures var a, b := ListOf(from.expects, f), ListOf(to.expects, f);
            Net(ConsumerEvents(span, from, to), f) == |b| - |a| <==> Shared(a, b) == Shared(b, a)
  {
    var a, b := ListOf(from.expects, f), ListOf(to.expects, f);
    NetConcat(ExpectEvents(span, from.expects, to.expects, to), JWKSEvents(span, from.jwks, to.jwks, to), f);
    NetOfExpectations(span, from.expects, to.expects, to, f);
    NetOfJWKS(span, from, to, f);
    NetOfField(from.expects, to.expects, f);
    MissingOrShared(a, b);
    MissingOrShared(b, a);
  }

  /** One audience listed twice and then once: no event, although the list shrank, so the
      condition of NetIsGrowthIff fails. */
  lemma DuplicatesAreNotCounted(x: string)
    ensures Missing([x], [x, x]) == [] && Missing([x, x], [x]) == [] && Shared([x, x], [x]) != Shared([x], [x, x])
  {
    assert [x, x][..1] == [x] && [x][..0] == [];
    assert Missing([x], [x]) == [];
    MissingOrShared([x, x], [x]);
    MissingOrShared([x], [x, x]);
  }

  lemma NetOfParts(e: Expectations, g: Expectations, f: Field)
    requires IsSetField(f) && Distinct(ListOf(e, f)) && Distinct(ListOf(g, f))
    ensures NetPart(e, g, Audiences, f) + NetPart(e, g, Issuers, f) + NetPart(e, g, Algorithms, f)
              + NetPart(e, g, RequiredClaims, f) == |ListOf(g, f)| - |ListOf(e, f)|
  {
    NetOfField(e, g, f);
    NetIsGrowth(ListOf(e, f), ListOf(g, f));
  }

  lemma NetOfJWKS(span: Span, from: Consumer, to: Consumer, f: Field)
    requires IsSetField(f)
    ensures Net(JWKSEvents(span, from.jwks, to.jwks, to), f) == 0
  {
    NetOfForeign(JWKSEvents(span, from.jwks, to.jwks, to), f);
  }

  lemma NetOfConsumer(span: Span, from: Consumer, to: Consumer, f: Field)
    requires IsSetField(f)
    requires Distinct(ListOf(from.expects, f)) && Distinct(ListOf(to.expects, f))
    ensures Net(ConsumerEvents(span, from, to), f) == |ListOf(to.expects, f)| - |ListOf(from.expects, f)|
  {
    NetConcat(ExpectEvents(span, from.expects, to.expects, to), JWKSEvents(span, from.jwks, to.jwks, to), f);
    NetOfExpectations(span, from.expects, to.expects, to, f);
    NetOfJWKS(span, from, to, f);
    NetOfParts(from.expects, to.expects, f);
  }

  lemma {:induction false} NetOfForeign(events: seq<ChangeEvent>, f: Field)
    requires forall i :: 0 <= i < |events| ==> events[i].field != f
    ensures Net(events, f) == 0
  {
    if events != [] {
      NetOfForeign(events[..|events| - 1], f);
    }
  }

  // ---- equal hashes ------------------------------------------------------------

  lemma {:induction false} NothingMissing(s: seq<string>, other: seq<string>)
    requires forall x :: x in s ==> x in other
    ensures Missing(s, other) == []
  {
    if s != [] {
      NothingMissing(s[..|s| - 1], other);
    }
  }

  lemma SameListsNoEvents(span: Span, f: Field, from: seq<string>, to: seq<string>, c: Consumer)
    requires Sort(from, LexLess) == Sort(to, LexLess)
    ensures SetEvents(span, f, from, to, c) == []
  {
    LexIsStrictWeak();
    SortSorts(from, LexLess);
    SortSorts(to, LexLess);
    SameMembers(from, to);
    NothingMissing(from, to);
    NothingMissing(to, from);
  }

  lemma SameCanonNoEvents(span: Span, from: Consumer, to: Consumer)
    requires CanonConsumerOf(from) == CanonConsumerOf(to)
    ensures ConsumerEvents(span, from, to) == []
  {
    var e, f := CanonExpectOf(from.expects), CanonExpectOf(to.expects);
    assert e == f;
    assert CanonJWKSOf(from.jwks) == CanonJWKSOf(to.jwks);
    SameListsNoEvents(span, Audiences, from.expects.audiences, to.expects.audiences, to);
    SameListsNoEvents(span, Issuers, from.expects.issuers, to.expects.issuers, to);
    SameListsNoEvents(span, Algorithms, from.expects.algorithms, to.expects.algorithms, to);
    SameListsNoEvents(span, RequiredClaims, from.expects.requiredClaims, to.expects.requiredClaims, to);
    assert JWKSEvents(span, from.jwks, to.jwks, to) == [];
  }

  lemma TwinAt(cs: seq<Consumer>, ds: seq<Consumer>, i: nat) returns (j: nat)
    requires multiset(CanonConsumers(cs)) == multiset(CanonConsumers(ds)) && i < |cs|
    ensures j < |ds| && CanonConsumerOf(ds[j]) == CanonConsumerOf(cs[i]) && ds[j].stableID == cs[i].stableID
  {
    SameMembers(CanonConsumers(cs), CanonConsumers(ds));
    assert CanonConsumers(cs)[i] in CanonConsumers(ds);
    j :| 0 <= j < |ds| && CanonConsumers(ds)[j] == CanonConsumers(cs)[i];
  }

  /** A consumer of one version has a canonical twin in the other. */
  lemma CanonTwin(cs: seq<Consumer>, ds: seq<Consumer>, id: string)
    requires multiset(CanonConsumers(cs)) == multiset(CanonConsumers(ds))
    requires DistinctStableIDs(ds) && id in Index(cs)
    ensures id in Index(ds) && CanonConsumerOf(Index(cs)[id]) == CanonConsumerOf(Index(ds)[id])
  {
    IndexKeys(cs, id);
    IndexKeys(ds, id);
    var i :| 0 <= i < |cs| && cs[i] == Index(cs)[id];
    var j := TwinAt(cs, ds, i);
    var k :| 0 <= k < |ds| && ds[k] == Index(ds)[id];
    assert j == k;
  }

  lemma EqualHashNothingExpected(from: Version, to: Version, c: CanonContract, id: string)
    requires IsCanonical(from, c) && IsCanonical(to, c)
    requires DistinctStableIDs(from.consumers) && DistinctStableIDs(to.consumers)
    ensures Expected(from, to, id) == []
  {
    assert multiset(CanonConsumers(from.consumers)) == multiset(CanonConsumers(to.consumers));
    var f, t := Index(from.consumers), Index(to.consumers);
    if id in f {
      CanonTwin(from.consumers, to.consumers, id);
    }
    if id in t {
      CanonTwin(to.consumers, from.consumers, id);
    }
    if id in f && id in t {
      SameCanonNoEvents(Span(from.id, to.id), f[id], t[id]);
    }
  }

  /** Versions with a canonical form in common, and distinct StableIDs, have the empty
      diff and no other: skipping the comparison when the hashes agree loses nothing. */
  lemma EqualHashNoEvents(from: Version, to: Version, c: CanonContract, events: seq<ChangeEvent>)
    requires IsCanonical(from, c) && IsCanonical(to, c)
    requires DistinctStableIDs(from.consumers) && DistinctStableIDs(to.consumers)
    ensures IsDiff(from, to, events) <==> events == []
  {
    forall id
      ensures Expected(from, to, id) == []
    {
      EqualHashNothingExpected(from, to, c, id);
    }
    if events != [] {
      assert EventsOf(events, events[|events| - 1].consumerID) != [];
    }
  }
}
