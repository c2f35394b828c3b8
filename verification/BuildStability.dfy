/** Build, then canonicalise: the outcome depends on neither order nor volatile fields. */
module BuildStability {
  import opened Prelude
  import opened Ordering
  import opened Domain
  import opened Canon
  import opened ContractBuild
  import opened HashStability

  // ---- equal up to order and volatile fields ------------------------------------

  ghost predicate SameExpects(e: Expectations, f: Expectations) {
    && multiset(e.issuers) == multiset(f.issuers)
    && multiset(e.audiences) == multiset(f.audiences)
    && multiset(e.algorithms) == multiset(f.algorithms)
    && multiset(e.requiredClaims) == multiset(f.requiredClaims)
    && e.clockSkewSec == f.clockSkewSec
  }

  /** Same consumer: IDs, aliases, provenance, confidence, the JWKS URI and the last
      observed refresh may differ, and every inner list may be reordered. */
  ghost predicate SameConsumer(c: Consumer, d: Consumer) {
    && c.stableID == d.stableID && c.kind == d.kind && c.name == d.name
    && c.namespace == d.namespace && c.ownerTeam == d.ownerTeam
    && multiset(c.endpoints) == multiset(d.endpoints)
    && SameExpects(c.expects, d.expects)
    && c.jwks.cacheTTLSec == d.jwks.cacheTTLSec && c.jwks.refreshIntervalSec == d.jwks.refreshIntervalSec
    && c.jwks.refreshesOnUnknownKID == d.jwks.refreshesOnUnknownKID && c.jwks.source == d.jwks.source
    && c.library == d.library && c.probeable == d.probeable
  }

  /** KID, algorithm, use, public key and status of a key: not when it was first seen, in use
      or retired. */
  function KeyFacts(k: Key): (string, string, string, string, string) {
    (k.kid, k.alg, k.use_, k.pem, k.status)
  }

  /** Name and presence rate of a claim: not when it was seen. */
  function ClaimFacts(c: ClaimObs): (string, real) {
    (c.name, c.presenceRate)
  }

  /** Same issuer: the ID and all timestamps may differ, keys and claims may be reordered. */
  ghost predicate SameIssuer(a: Issuer, b: Issuer) {
    && a.name == b.name && a.typ == b.typ && a.url == b.url && a.jwksURI == b.jwksURI
    && a.controlsPrivateKey == b.controlsPrivateKey
    && multiset(Map(KeyFacts, a.keys)) == multiset(Map(KeyFacts, b.keys))
    && multiset(Map(ClaimFacts, a.claims)) == multiset(Map(ClaimFacts, b.claims))
  }

  /** Each consumer of one list has a counterpart in the other. */
  ghost predicate CoveredBy(cs: seq<Consumer>, ds: seq<Consumer>) {
    forall i :: 0 <= i < |cs| ==> exists j :: 0 <= j < |ds| && SameConsumer(cs[i], ds[j])
  }

  ghost predicate IssuersCoveredBy(a: seq<Issuer>, b: seq<Issuer>) {
    forall i :: 0 <= i < |a| ==> exists j :: 0 <= j < |b| && SameIssuer(a[i], b[j])
  }

  /** What tells the parts of an input apart: distinct consumer IDs and StableIDs, distinct
      issuer IDs and URLs, no two different keys of an issuer tying, and fresh UUIDs. */
  ghost predicate WellIdentified(supplied: seq<Issuer>, cs: seq<Consumer>, uuids: nat -> string) {
    && DistinctStableIDs(cs)
    && (forall i, j :: 0 <= i < j < |cs| ==> cs[i].id != cs[j].id)
    && (forall i, j :: 0 <= i < j < |supplied| ==> supplied[i].id != supplied[j].id)
    && (forall i, j :: 0 <= i < j < |supplied| ==> supplied[i].url != supplied[j].url)
    && KeysSeparate(supplied)
    && (forall i: nat, j: nat :: i != j ==> uuids(i) != uuids(j))
    && (forall i: nat, k :: 0 <= k < |supplied| ==> uuids(i) != supplied[k].id)
  }

  // ---- consumers ---------------------------------------------------------------

  lemma SameConsumerSameCanon(c: Consumer, d: Consumer)
    requires SameConsumer(c, d)
    ensures CanonConsumerOf(c) == CanonConsumerOf(d)
  {
    EndpointOrder();
    SortDependsOnBag(c.endpoints, d.endpoints, EndpointLess);
    SameExpectsSameCanon(c.expects, d.expects);
  }

  lemma SameExpectsSameCanon(e: Expectations, f: Expectations)
    requires SameExpects(e, f)
    ensures CanonExpectOf(e) == CanonExpectOf(f)
  {
    SameStrings(e.issuers, f.issuers);
    SameStrings(e.audiences, f.audiences);
    SameStrings(e.algorithms, f.algorithms);
    SameStrings(e.requiredClaims, f.requiredClaims);
  }

  lemma SameStrings(a: seq<string>, b: seq<string>)
    requires multiset(a) == multiset(b)
    ensures Sort(a, LexLess) == Sort(b, LexLess)
  {
    LexIsStrictWeak();
    StringTiesCollapse(a);
    SortDependsOnBag(a, b, LexLess);
  }

  lemma ElemsAppend<T>(s: seq<T>, x: T)
    requires x !in s
    ensures multiset(Elems(s + [x])) == multiset(Elems(s)) + multiset{x}
  {
    assert Elems(s + [x]) == Elems(s) + {x};
  }

  lemma {:induction false} DistinctBag<T>(s: seq<T>)
    requires Distinct(s)
    ensures multiset(s) == multiset(Elems(s))
  {
    if s != [] {
      var init, x := s[..|s| - 1], s[|s| - 1];
      DistinctBag(init);
      assert s == init + [x];
      assert x !in init;
      ElemsAppend(init, x);
    }
  }

  /** Duplicate-free slices with the same elements sort alike. */
  lemma SortDependsOnElems<T(!new)>(a: seq<T>, b: seq<T>, less: (T, T) -> bool)
    requires StrictWeak(less) && TiesCollapse(a, less) && Distinct(a) && Distinct(b)
    requires forall x :: x in a <==> x in b
    ensures Sort(a, less) == Sort(b, less)
  {
    DistinctBag(a);
    DistinctBag(b);
    assert Elems(a) == Elems(b);
    SortDependsOnBag(a, b, less);
  }

  lemma ConsumersSeparate(cs: seq<Consumer>)
    requires DistinctStableIDs(cs)
    ensures TiesCollapse(CanonConsumers(cs), ConsumerLess) && Distinct(CanonConsumers(cs))
  {
    SeparateByID(CanonConsumers(cs));
  }

  lemma SeparateByID(ccs: seq<CanonConsumer>)
    requires forall i, j :: 0 <= i < j < |ccs| ==> ccs[i].stableID != ccs[j].stableID
    ensures TiesCollapse(ccs, ConsumerLess) && Distinct(ccs)
  {
    forall x, y | x in ccs && y in ccs && Tied(x, y, ConsumerLess)
      ensures x == y
    {
      LexTotal(x.stableID, y.stableID);
      var i :| 0 <= i < |ccs| && ccs[i] == x;
      var j :| 0 <= j < |ccs| && ccs[j] == y;
    }
  }

  lemma CoverCanonConsumers(cs: seq<Consumer>, ds: seq<Consumer>)
    requires CoveredBy(cs, ds)
    ensures forall x :: x in CanonConsumers(cs) ==> x in CanonConsumers(ds)
  {
    forall x | x in CanonConsumers(cs)
      ensures x in CanonConsumers(ds)
    {
      var i :| 0 <= i < |cs| && CanonConsumers(cs)[i] == x;
      var j :| 0 <= j < |ds| && SameConsumer(cs[i], ds[j]);
      SameConsumerSameCanon(cs[i], ds[j]);
      assert CanonConsumers(ds)[j] == x;
    }
  }

  // ---- issuers -----------------------------------------------------------------

  /** The projections of keys agree as bags exactly when their facts do. */
  lemma KeyFactsIff(a: seq<Key>, b: seq<Key>)
    ensures multiset(Map(KeyFacts, a)) == multiset(Map(KeyFacts, b)) <==>
            multiset(Map(CanonKeyOf, a)) == multiset(Map(CanonKeyOf, b))
  {
    var there := (f: (string, string, string, string, string)) => CanonKey(f.0, f.1, f.2, f.3, f.4);
    var back := (ck: CanonKey) => (ck.kid, ck.alg, ck.use_, ck.pem, ck.status);
    assert Map(there, Map(KeyFacts, a)) == Map(CanonKeyOf, a) && Map(there, Map(KeyFacts, b)) == Map(CanonKeyOf, b);
    assert Map(back, Map(CanonKeyOf, a)) == Map(KeyFacts, a) && Map(back, Map(CanonKeyOf, b)) == Map(KeyFacts, b);
    if multiset(Map(KeyFacts, a)) == multiset(Map(KeyFacts, b)) {
      MapBag(there, Map(KeyFacts, a), Map(KeyFacts, b));
    }
    if multiset(Map(CanonKeyOf, a)) == multiset(Map(CanonKeyOf, b)) {
      MapBag(back, Map(CanonKeyOf, a), Map(CanonKeyOf, b));
    }
  }

  lemma ClaimFactsIff(a: seq<ClaimObs>, b: seq<ClaimObs>)
    ensures multiset(Map(ClaimFacts, a)) == multiset(Map(ClaimFacts, b)) <==>
            multiset(Map(CanonClaimOf, a)) == multiset(Map(CanonClaimOf, b))
  {
    var there := (f: (string, real)) => CanonClaim(f.0, f.1);
    var back := (cc: CanonClaim) => (cc.name, cc.presenceRate);
    assert Map(there, Map(ClaimFacts, a)) == Map(CanonClaimOf, a) && Map(there, Map(ClaimFacts, b)) == Map(CanonClaimOf, b);
    assert Map(back, Map(CanonClaimOf, a)) == Map(ClaimFacts, a) && Map(back, Map(CanonClaimOf, b)) == Map(ClaimFacts, b);
    if multiset(Map(ClaimFacts, a)) == multiset(Map(ClaimFacts, b)) {
      MapBag(there, Map(ClaimFacts, a), Map(ClaimFacts, b));
    }
    if multiset(Map(CanonClaimOf, a)) == multiset(Map(CanonClaimOf, b)) {
      MapBag(back, Map(CanonClaimOf, a), Map(CanonClaimOf, b));
    }
  }

  lemma SameIssuerSameParts(a: Issuer, b: Issuer)
    requires SameIssuer(a, b)
    ensures multiset(CanonKeys(a)) == multiset(CanonKeys(b)) && multiset(CanonClaims(a)) == multiset(CanonClaims(b))
  {
    KeyFactsIff(a.keys, b.keys);
    ClaimFactsIff(a.claims, b.claims);
  }

  lemma SameIssuerSameCanon(a: Issuer, b: Issuer)
    requires SameIssuer(a, b) && TiesCollapse(CanonKeys(a), KeyLess)
    ensures TheIssuer(a) == TheIssuer(b)
  {
    SameIssuerSameParts(a, b);
    KeyOrder();
    SortDependsOnBag(CanonKeys(a), CanonKeys(b), KeyLess);
    ClaimOrder();
    SortDependsOnBag(CanonClaims(a), CanonClaims(b), ClaimLess);
  }

  ghost predicate DistinctURLs(issuers: seq<Issuer>) {
    forall i, j :: 0 <= i < j < |issuers| ==> issuers[i].url != issuers[j].url
  }

  ghost predicate DistinctIDs(issuers: seq<Issuer>) {
    forall i, j :: 0 <= i < j < |issuers| ==> issuers[i].id != issuers[j].id
  }

  lemma ExtendedIsDistinct(supplied: seq<Issuer>, cs: seq<Consumer>, uuids: nat -> string, issuers: seq<Issuer>)
    requires WellIdentified(supplied, cs, uuids) && Extends(supplied, Trusted(cs), uuids, issuers)
    ensures DistinctURLs(issuers) && DistinctIDs(issuers) && KeysSeparate(issuers)
  {
    var n := |supplied|;
    assert forall k :: 0 <= k < n ==> issuers[k] == supplied[k];
    forall i, j | 0 <= i < j < |issuers|
      ensures issuers[i].url != issuers[j].url && issuers[i].id != issuers[j].id
    {
      if j >= n {
        assert issuers[..j][i] == issuers[i];
        assert issuers[i].url in URLs(issuers[..j]);
        if i >= n {
          assert uuids(i - n) != uuids(j - n);
        }
      }
    }
    forall i | 0 <= i < |issuers|
      ensures TiesCollapse(CanonKeys(issuers[i]), KeyLess)
    {
      if i >= n {
        assert CanonKeys(issuers[i]) == [];
      }
    }
  }

  lemma IssuersSeparate(issuers: seq<Issuer>)
    requires DistinctURLs(issuers)
    ensures TiesCollapse(TheIssuers(issuers), IssuerLess) && Distinct(TheIssuers(issuers))
  {
    var cis := TheIssuers(issuers);
    forall i, j | 0 <= i < |cis| && 0 <= j < |cis| && cis[i].url == cis[j].url
      ensures i == j
    {
      assert issuers[i].url == issuers[j].url;
    }
    TiedURLs(cis);
  }

  lemma TiedURLs(cis: seq<CanonIssuer>)
    requires forall i, j :: 0 <= i < |cis| && 0 <= j < |cis| && cis[i].url == cis[j].url ==> i == j
    ensures TiesCollapse(cis, IssuerLess) && Distinct(cis)
  {
    forall x, y | x in cis && y in cis && Tied(x, y, IssuerLess)
      ensures x == y
    {
      LexTotal(x.url, y.url);
    }
  }

  lemma {:induction false} NamedMembers(urls: seq<string>, u: string)
    ensures u in Named(urls) <==> u in urls && u != ""
  {
    if urls != [] {
      NamedMembers(urls[..|urls| - 1], u);
      assert urls == urls[..|urls| - 1] + [urls[|urls| - 1]];
    }
  }

  ghost predicate SomeTrusts(cs: seq<Consumer>, u: string) {
    exists i :: 0 <= i < |cs| && u in cs[i].expects.issuers
  }

  lemma SomeTrustsAppend(cs: seq<Consumer>, c: Consumer, u: string)
    ensures SomeTrusts(cs + [c], u) <==> SomeTrusts(cs, u) || u in c.expects.issuers
  {
    if i :| 0 <= i < |cs| && u in cs[i].expects.issuers {
      assert (cs + [c])[i] == cs[i];
    }
    assert (cs + [c])[|cs|] == c;
  }

  lemma {:induction false} TrustedMembers(cs: seq<Consumer>, u: string)
    ensures u in Trusted(cs) <==> u != "" && SomeTrusts(cs, u)
  {
    if cs != [] {
      var x := |cs| - 1;
      TrustedMembers(cs[..x], u);
      NamedMembers(cs[x].expects.issuers, u);
      SomeTrustsAppend(cs[..x], cs[x], u);
      assert cs == cs[..x] + [cs[x]];
    }
  }

  lemma CoveredTrust(cs: seq<Consumer>, ds: seq<Consumer>, u: string)
    requires CoveredBy(cs, ds) && u in Trusted(cs)
    ensures u in Trusted(ds)
  {
    TrustedMembers(cs, u);
    TrustedMembers(ds, u);
    var i :| 0 <= i < |cs| && u in cs[i].expects.issuers;
    var j :| 0 <= j < |ds| && SameConsumer(cs[i], ds[j]);
    SameMembers(cs[i].expects.issuers, ds[j].expects.issuers);
  }

  lemma SynthesizedCanon(id: string, url: string)
    ensures TheIssuer(Synthesized(id, url)) == CanonIssuer(url, "generic_oidc", url, "", false, [], [])
  {
    var iss := Synthesized(id, url);
    assert CanonKeys(iss) == [] && CanonClaims(iss) == [];
  }

  /** A URL a supplied issuer of one input covers is covered by a supplied issuer of the other. */
  lemma SuppliedURL(a: seq<Issuer>, b: seq<Issuer>, u: string)
    requires IssuersCoveredBy(a, b) && u in URLs(a)
    ensures u in URLs(b)
  {
    var i :| 0 <= i < |a| && a[i].url == u;
    var j :| 0 <= j < |b| && SameIssuer(a[i], b[j]);
    assert b[j].url == u;
  }

  lemma CoverSupplied(a: seq<Issuer>, as_: seq<Issuer>, b: seq<Issuer>, bs: seq<Issuer>, i: nat)
    requires KeysSeparate(a) && IssuersCoveredBy(a, b) && i < |a| <= |as_| && |b| <= |bs|
    requires as_[..|a|] == a && bs[..|b|] == b
    ensures TheIssuer(as_[i]) in TheIssuers(bs)
  {
    assert as_[i] == as_[..|a|][i] == a[i];
    assert forall k :: 0 <= k < |b| ==> bs[k] == bs[..|b|][k] == b[k];
    var j :| 0 <= j < |b| && SameIssuer(a[i], b[j]);
    SameIssuerSameCanon(a[i], b[j]);
    assert TheIssuers(bs)[j] == TheIssuer(a[i]);
  }

  /** A synthesized issuer has a synthesized counterpart, under another ID. */
  lemma CoverSynthesized(a: seq<Issuer>, b: seq<Issuer>, g: nat -> string, trusted: seq<string>, bs: seq<Issuer>, u: string, id: string)
    requires IssuersCoveredBy(b, a) && Extends(b, trusted, g, bs) && u in trusted && u !in URLs(a)
    ensures TheIssuer(Synthesized(id, u)) in TheIssuers(bs)
  {
    if u in URLs(b) {
      SuppliedURL(b, a, u);
    }
    assert forall k :: 0 <= k < |b| ==> bs[k] == bs[..|b|][k] == b[k];
    var j :| 0 <= j < |bs| && bs[j].url == u;
    assert j >= |b|;
    SynthesizedCanon(id, u);
    SynthesizedCanon(g(j - |b|), u);
    assert TheIssuers(bs)[j] == TheIssuer(bs[j]);
  }

  lemma CoverNew(a: seq<Issuer>, cs: seq<Consumer>, f: nat -> string, as_: seq<Issuer>,
                 b: seq<Issuer>, ds: seq<Consumer>, g: nat -> string, bs: seq<Issuer>, i: nat)
    requires IssuersCoveredBy(b, a) && CoveredBy(cs, ds)
    requires Extends(a, Trusted(cs), f, as_) && Extends(b, Trusted(ds), g, bs) && |a| <= i < |as_|
    ensures TheIssuer(as_[i]) in TheIssuers(bs)
  {
    var u := as_[i].url;
    assert as_[i] == Synthesized(f(i - |a|), u);
    assert u !in URLs(a) by {
      if u in URLs(a) {
        URLsPrefix(a, as_[..i], u);
      }
    }
    CoveredTrust(cs, ds, u);
    CoverSynthesized(a, b, g, Trusted(ds), bs, u, f(i - |a|));
  }

  lemma CoverCanonIssuers(a: seq<Issuer>, cs: seq<Consumer>, f: nat -> string, as_: seq<Issuer>,
                          b: seq<Issuer>, ds: seq<Consumer>, g: nat -> string, bs: seq<Issuer>, x: CanonIssuer)
    requires KeysSeparate(a) && IssuersCoveredBy(a, b) && IssuersCoveredBy(b, a) && CoveredBy(cs, ds)
    requires Extends(a, Trusted(cs), f, as_) && Extends(b, Trusted(ds), g, bs) && x in TheIssuers(as_)
    ensures x in TheIssuers(bs)
  {
    var i :| 0 <= i < |as_| && TheIssuers(as_)[i] == x;
    if i < |a| {
      CoverSupplied(a, as_, b, bs, i);
    } else {
      CoverNew(a, cs, f, as_, b, ds, g, bs, i);
    }
  }

  lemma URLsPrefix(a: seq<Issuer>, more: seq<Issuer>, u: string)
    requires a <= more && u in URLs(a)
    ensures u in URLs(more)
  {
    var k :| 0 <= k < |a| && a[k].url == u;
    assert more[k].url == u;
  }

  // ---- edges -------------------------------------------------------------------

  /** The canonical edges of one consumer, one per URL. */
  function ConsumerEdges(c: Consumer, urls: seq<string>): seq<CanonEdge> {
    if urls == [] then [] else
      ConsumerEdges(c, urls[..|urls| - 1])
        + [CanonEdge(urls[|urls| - 1], c.stableID, CanonExpectOf(c.expects))]
  }

  /** The canonical edges of the derived graph: no IDs are left in them. */
  function FlatEdges(cs: seq<Consumer>): seq<CanonEdge> {
    if cs == [] then [] else
      FlatEdges(cs[..|cs| - 1]) + ConsumerEdges(cs[|cs| - 1], Named(cs[|cs| - 1].expects.issuers))
  }

  lemma {:induction false} LookupID(issuers: seq<Issuer>, url: string, k: nat)
    requires DistinctIDs(issuers) && DistinctURLs(issuers)
    requires k < |issuers| && issuers[k].url == url
    ensures IDOf(issuers, url) == issuers[k].id && URLOf(issuers, issuers[k].id) == url
  {
    var x := |issuers| - 1;
    if k < x {
      LookupID(issuers[..x], url, k);
    }
  }

  lemma {:induction false} LookupStableID(cs: seq<Consumer>, k: nat)
    requires forall i, j :: 0 <= i < j < |cs| ==> cs[i].id != cs[j].id
    requires k < |cs|
    ensures StableIDOf(cs, cs[k].id) == cs[k].stableID
  {
    var x := |cs| - 1;
    if k < x {
      LookupStableID(cs[..x], k);
    }
  }

  lemma {:induction false} CanonOfEdgesFor(issuers: seq<Issuer>, all: seq<Consumer>, c: Consumer, urls: seq<string>)
    requires DistinctIDs(issuers) && DistinctURLs(issuers) && StableIDOf(all, c.id) == c.stableID
    requires forall u :: u in urls ==> u in URLs(issuers)
    ensures Map((e: Edge) => CanonEdgeOf(issuers, all, e), EdgesFor(issuers, c, urls)) == ConsumerEdges(c, urls)
  {
    if urls != [] {
      var x := |urls| - 1;
      CanonOfEdgesFor(issuers, all, c, urls[..x]);
      assert urls[x] in URLs(issuers);
      var k :| 0 <= k < |issuers| && issuers[k].url == urls[x];
      LookupID(issuers, urls[x], k);
    }
  }

  /** With distinct IDs, resolving the derived edges gives back URL and StableID. */
  lemma {:induction false} CanonOfEdges(issuers: seq<Issuer>, all: seq<Consumer>, cs: seq<Consumer>)
    requires DistinctIDs(issuers) && DistinctURLs(issuers)
    requires forall c :: c in cs ==> StableIDOf(all, c.id) == c.stableID
    requires forall u :: u in Trusted(cs) ==> u in URLs(issuers)
    ensures Map((e: Edge) => CanonEdgeOf(issuers, all, e), EdgesOf(issuers, cs)) == FlatEdges(cs)
  {
    if cs != [] {
      var x := |cs| - 1;
      CanonOfEdges(issuers, all, cs[..x]);
      CanonOfEdgesFor(issuers, all, cs[x], Named(cs[x].expects.issuers));
      MapAppend((e: Edge) => CanonEdgeOf(issuers, all, e), EdgesOf(issuers, cs[..x]),
                EdgesFor(issuers, cs[x], Named(cs[x].expects.issuers)));
    }
  }

  /** How often consumer `c` contributes the edge `e`. */
  function Contribution(c: Consumer, e: CanonEdge): nat {
    if c.stableID == e.stableID && CanonExpectOf(c.expects) == e.expects && e.issuerURL != ""
    then multiset(c.expects.issuers)[e.issuerURL] else 0
  }

  lemma {:induction false} NamedCount(urls: seq<string>, u: string)
    requires u != ""
    ensures multiset(Named(urls))[u] == multiset(urls)[u]
  {
    if urls != [] {
      NamedCount(urls[..|urls| - 1], u);
      assert urls == urls[..|urls| - 1] + [urls[|urls| - 1]];
    }
  }

  lemma CountOneMore<T>(s: seq<T>, x: T, e: T)
    ensures multiset(s + [x])[e] == multiset(s)[e] + if x == e then 1 else 0
  {
  }

  lemma {:induction false} ConsumerEdgeCount(c: Consumer, urls: seq<string>, e: CanonEdge)
    ensures multiset(ConsumerEdges(c, urls))[e] ==
            if c.stableID == e.stableID && CanonExpectOf(c.expects) == e.expects
            then multiset(urls)[e.issuerURL] else 0
  {
    if urls != [] {
      var most, last := urls[..|urls| - 1], urls[|urls| - 1];
      ConsumerEdgeCount(c, most, e);
      assert urls == most + [last];
      CountOneMore(most, last, e.issuerURL);
      CountOneMore(ConsumerEdges(c, most), CanonEdge(last, c.stableID, CanonExpectOf(c.expects)), e);
    }
  }

  lemma ContributionIsCount(c: Consumer, e: CanonEdge)
    ensures multiset(ConsumerEdges(c, Named(c.expects.issuers)))[e] == Contribution(c, e)
  {
    ConsumerEdgeCount(c, Named(c.expects.issuers), e);
    NamedMembers(c.expects.issuers, "");
    if e.issuerURL != "" {
      NamedCount(c.expects.issuers, e.issuerURL);
    }
  }

  /** How often the consumers contribute the edge `e` in all. */
  function Total(cs: seq<Consumer>, e: CanonEdge): nat {
    if cs == [] then 0 else Total(cs[..|cs| - 1], e) + Contribution(cs[|cs| - 1], e)
  }

  lemma {:induction false} TotalIsCount(cs: seq<Consumer>, e: CanonEdge)
    ensures multiset(FlatEdges(cs))[e] == Total(cs, e)
  {
    if cs != [] {
      TotalIsCount(cs[..|cs| - 1], e);
      ContributionIsCount(cs[|cs| - 1], e);
    }
  }

  lemma {:induction false} TotalOfStrangers(cs: seq<Consumer>, e: CanonEdge)
    requires forall k :: 0 <= k < |cs| ==> cs[k].stableID != e.stableID
    ensures Total(cs, e) == 0
  {
    if cs != [] {
      TotalOfStrangers(cs[..|cs| - 1], e);
    }
  }

  lemma {:induction false} TotalOfOne(cs: seq<Consumer>, e: CanonEdge, k: nat)
    requires k < |cs| && forall m :: 0 <= m < |cs| && m != k ==> cs[m].stableID != e.stableID
    ensures Total(cs, e) == Contribution(cs[k], e)
  {
    var x := |cs| - 1;
    var most := cs[..x];
    if k < x {
      TotalOfOne(most, e, k);
      assert Contribution(cs[x], e) == 0;
    } else {
      TotalOfStrangers(most, e);
    }
  }

  lemma NoContribution(cs: seq<Consumer>, e: CanonEdge)
    requires forall k :: 0 <= k < |cs| ==> cs[k].stableID != e.stableID
    ensures multiset(FlatEdges(cs))[e] == 0
  {
    TotalIsCount(cs, e);
    TotalOfStrangers(cs, e);
  }

  /** Only the consumer with the edge's StableID contributes it. */
  lemma OneContribution(cs: seq<Consumer>, e: CanonEdge, k: nat)
    requires DistinctStableIDs(cs) && k < |cs| && cs[k].stableID == e.stableID
    ensures multiset(FlatEdges(cs))[e] == Contribution(cs[k], e)
  {
    TotalIsCount(cs, e);
    TotalOfOne(cs, e, k);
  }

  lemma SameContribution(c: Consumer, d: Consumer, e: CanonEdge)
    requires SameConsumer(c, d)
    ensures Contribution(c, e) == Contribution(d, e)
  {
    SameExpectsSameCanon(c.expects, d.expects);
  }

  lemma FlatEdgesCovered(cs: seq<Consumer>, ds: seq<Consumer>, e: CanonEdge)
    requires DistinctStableIDs(cs) && DistinctStableIDs(ds) && CoveredBy(cs, ds)
    ensures multiset(FlatEdges(cs))[e] <= multiset(FlatEdges(ds))[e]
  {
    if exists k :: 0 <= k < |cs| && cs[k].stableID == e.stableID {
      var k :| 0 <= k < |cs| && cs[k].stableID == e.stableID;
      var j :| 0 <= j < |ds| && SameConsumer(cs[k], ds[j]);
      OneContribution(cs, e, k);
      OneContribution(ds, e, j);
      SameContribution(cs[k], ds[j], e);
    } else {
      NoContribution(cs, e);
    }
  }

  lemma EdgesSeparate(cs: seq<Consumer>)
    requires DistinctStableIDs(cs)
    ensures TiesCollapse(FlatEdges(cs), EdgeLess)
  {
    forall e, f | e in FlatEdges(cs) && f in FlatEdges(cs) && Tied(e, f, EdgeLess)
      ensures e == f
    {
      LexTotal(e.issuerURL, f.issuerURL);
      LexTotal(e.stableID, f.stableID);
      assert multiset(FlatEdges(cs))[e] > 0 && multiset(FlatEdges(cs))[f] > 0;
      if k :| 0 <= k < |cs| && cs[k].stableID == e.stableID {
        OneContribution(cs, e, k);
        OneContribution(cs, f, k);
      } else {
        NoContribution(cs, e);
      }
    }
  }

  // ---- the theorem ---------------------------------------------------------------

  lemma BuiltHasNoTies(supplied: seq<Issuer>, cs: seq<Consumer>, uuids: nat -> string, v: Version)
    requires WellIdentified(supplied, cs, uuids) && IsBuilt(supplied, cs, uuids, v)
    ensures NoTies(v) && CanonEdges(v) == FlatEdges(cs)
  {
    ExtendedIsDistinct(supplied, cs, uuids, v.issuers);
    IssuersSeparate(v.issuers);
    ConsumersSeparate(cs);
    forall c | c in cs
      ensures StableIDOf(cs, c.id) == c.stableID
    {
      var k :| 0 <= k < |cs| && cs[k] == c;
      LookupStableID(cs, k);
    }
    CanonOfEdges(v.issuers, cs, cs);
    EdgesSeparate(cs);
    assert CanonEdges(v) == Map((e: Edge) => CanonEdgeOf(v.issuers, cs, e), EdgesOf(v.issuers, cs));
  }

  /** Two builds of the same system have the same hash: permuting consumers, issuers,
      keys, claims, endpoints and inner lists, changing IDs, timestamps, provenance and
      confidence, and drawing other fresh UUIDs, all leave the canonical form alone. */
  lemma BuildIsStable(a: seq<Issuer>, cs: seq<Consumer>, f: nat -> string, v: Version,
                      b: seq<Issuer>, ds: seq<Consumer>, g: nat -> string, w: Version)
    requires WellIdentified(a, cs, f) && WellIdentified(b, ds, g)
    requires IsBuilt(a, cs, f, v) && IsBuilt(b, ds, g, w)
    requires IssuersCoveredBy(a, b) && IssuersCoveredBy(b, a)
    requires CoveredBy(cs, ds) && CoveredBy(ds, cs)
    ensures v.hash == w.hash
    ensures Determined(v) && Determined(w)
  {
    BuiltHasNoTies(a, cs, f, v);
    BuiltHasNoTies(b, ds, g, w);
    HashIsDeterminedIff(v);
    HashIsDeterminedIff(w);
    NoTiesDetermines(v, v.hash.of);
    NoTiesDetermines(w, w.hash.of);
    SameIssuerPart(a, cs, f, v, b, ds, g, w);
    SameConsumerPart(cs, ds);
    SameEdgePart(cs, ds);
  }

  lemma SameIssuerPart(a: seq<Issuer>, cs: seq<Consumer>, f: nat -> string, v: Version,
                       b: seq<Issuer>, ds: seq<Consumer>, g: nat -> string, w: Version)
    requires WellIdentified(a, cs, f) && WellIdentified(b, ds, g)
    requires IsBuilt(a, cs, f, v) && IsBuilt(b, ds, g, w)
    requires IssuersCoveredBy(a, b) && IssuersCoveredBy(b, a) && CoveredBy(cs, ds) && CoveredBy(ds, cs)
    ensures Sort(TheIssuers(v.issuers), IssuerLess) == Sort(TheIssuers(w.issuers), IssuerLess)
  {
    ExtendedIsDistinct(a, cs, f, v.issuers);
    ExtendedIsDistinct(b, ds, g, w.issuers);
    IssuersSeparate(v.issuers);
    IssuersSeparate(w.issuers);
    forall x
      ensures x in TheIssuers(v.issuers) <==> x in TheIssuers(w.issuers)
    {
      if x in TheIssuers(v.issuers) {
        CoverCanonIssuers(a, cs, f, v.issuers, b, ds, g, w.issuers, x);
      }
      if x in TheIssuers(w.issuers) {
        CoverCanonIssuers(b, ds, g, w.issuers, a, cs, f, v.issuers, x);
      }
    }
    IssuerOrder();
    SortDependsOnElems(TheIssuers(v.issuers), TheIssuers(w.issuers), IssuerLess);
  }

  lemma SameConsumerPart(cs: seq<Consumer>, ds: seq<Consumer>)
    requires DistinctStableIDs(cs) && DistinctStableIDs(ds) && CoveredBy(cs, ds) && CoveredBy(ds, cs)
    ensures Sort(CanonConsumers(cs), ConsumerLess) == Sort(CanonConsumers(ds), ConsumerLess)
  {
    ConsumersSeparate(cs);
    ConsumersSeparate(ds);
    CoverCanonConsumers(cs, ds);
    CoverCanonConsumers(ds, cs);
    ConsumerOrder();
    SortDependsOnElems(CanonConsumers(cs), CanonConsumers(ds), ConsumerLess);
  }

  lemma SameEdgeBag(cs: seq<Consumer>, ds: seq<Consumer>)
    requires DistinctStableIDs(cs) && DistinctStableIDs(ds) && CoveredBy(cs, ds) && CoveredBy(ds, cs)
    ensures multiset(FlatEdges(cs)) == multiset(FlatEdges(ds))
  {
    forall e
      ensures multiset(FlatEdges(cs))[e] == multiset(FlatEdges(ds))[e]
    {
      FlatEdgesCovered(cs, ds, e);
      FlatEdgesCovered(ds, cs, e);
    }
  }

  lemma SameEdgePart(cs: seq<Consumer>, ds: seq<Consumer>)
    requires DistinctStableIDs(cs) && DistinctStableIDs(ds) && CoveredBy(cs, ds) && CoveredBy(ds, cs)
    ensures Sort(FlatEdges(cs), EdgeLess) == Sort(FlatEdges(ds), EdgeLess)
  {
    SameEdgeBag(cs, ds);
    EdgesSeparate(cs);
    EdgeOrder();
    SortDependsOnBag(FlatEdges(cs), FlatEdges(ds), EdgeLess);
  }

  // ---- shared issuer IDs -----------------------------------------------------------

  /** The position of the last issuer with a URL. */
  ghost predicate LastWithURL(issuers: seq<Issuer>, url: string, k: nat) {
    && k < |issuers| && issuers[k].url == url
    && forall j :: k < j < |issuers| ==> issuers[j].url != url
  }

  lemma {:induction false} LastWithURLGivesID(issuers: seq<Issuer>, url: string, k: nat)
    requires LastWithURL(issuers, url, k)
    ensures IDOf(issuers, url) == issuers[k].id
  {
    var x := |issuers| - 1;
    if k < x {
      LastWithURLGivesID(issuers[..x], url, k);
    }
  }

  lemma {:induction false} LastWithIDGivesURL(issuers: seq<Issuer>, k: nat)
    requires k < |issuers| && forall j :: k < j < |issuers| ==> issuers[j].id != issuers[k].id
    ensures URLOf(issuers, issuers[k].id) == issuers[k].url
  {
    var x := |issuers| - 1;
    if k < x {
      LastWithIDGivesURL(issuers[..x], k);
    }
  }

  lemma {:induction false} LaterIDWins(issuers: seq<Issuer>, url: string, id: string, k: nat)
    requires k < |issuers| && issuers[k].id == id
    requires forall j :: k <= j < |issuers| ==> issuers[j].url != url
    ensures URLOf(issuers, id) != url
  {
    var x := |issuers| - 1;
    if issuers[x].id != id {
      LaterIDWins(issuers[..x], url, id, k);
    }
  }

  /** A derived edge to `url` is hashed under `url` exactly when no issuer listed after
      the one registered for that URL shares its ID. */
  lemma EdgeResolvesIff(issuers: seq<Issuer>, url: string, k: nat)
    requires LastWithURL(issuers, url, k)
    ensures URLOf(issuers, IDOf(issuers, url)) == url
            <==> forall j :: k < j < |issuers| ==> issuers[j].id != issuers[k].id
  {
    LastWithURLGivesID(issuers, url, k);
    if j :| k < j < |issuers| && issuers[j].id == issuers[k].id {
      LaterIDWins(issuers, url, issuers[k].id, j);
    } else {
      LastWithIDGivesURL(issuers, k);
    }
  }

  lemma {:induction false} LastWithURLExists(issuers: seq<Issuer>, url: string) returns (k: nat)
    requires url in URLs(issuers)
    ensures LastWithURL(issuers, url, k)
  {
    var x := |issuers| - 1;
    if issuers[x].url == url {
      k := x;
    } else {
      var m :| 0 <= m < |issuers| && issuers[m].url == url;
      assert issuers[..x][m].url == url;
      k := LastWithURLExists(issuers[..x], url);
    }
  }

  /** No issuer supplied after the last one for `url` shares its ID. */
  ghost predicate OwnsItsID(supplied: seq<Issuer>, url: string) {
    forall k: nat, j: nat :: LastWithURL(supplied, url, k) && k < j < |supplied| ==> supplied[j].id != supplied[k].id
  }

  lemma LastSuppliedIsLast(supplied: seq<Issuer>, trusted: seq<string>, uuids: nat -> string,
                           issuers: seq<Issuer>, url: string, k: nat)
    requires Extends(supplied, trusted, uuids, issuers) && LastWithURL(supplied, url, k)
    ensures LastWithURL(issuers, url, k)
  {
    assert forall m :: 0 <= m < |supplied| ==> issuers[m] == issuers[..|supplied|][m] == supplied[m];
    forall j | k < j < |issuers|
      ensures issuers[j].url != url
    {
      if j >= |supplied| {
        assert issuers[..j][k].url == url;
      }
    }
  }

  lemma SynthesizedIsLast(supplied: seq<Issuer>, trusted: seq<string>, uuids: nat -> string,
                          issuers: seq<Issuer>, url: string) returns (k: nat)
    requires Extends(supplied, trusted, uuids, issuers) && url in trusted && url !in URLs(supplied)
    ensures LastWithURL(issuers, url, k) && k >= |supplied|
  {
    assert forall m :: 0 <= m < |supplied| ==> issuers[m] == issuers[..|supplied|][m] == supplied[m];
    assert forall m :: 0 <= m < |supplied| ==> issuers[m].url != url;
    k := LastWithURLExists(issuers, url);
  }

  /** In terms of what the caller supplies: with fresh UUIDs, an edge derived for a trusted
      URL is hashed under that URL exactly when nobody supplied an issuer for it, or no issuer
      supplied after the last one for it shares that one's ID. */
  lemma SuppliedEdgeResolvesIff(supplied: seq<Issuer>, trusted: seq<string>, uuids: nat -> string,
                                issuers: seq<Issuer>, url: string)
    requires Extends(supplied, trusted, uuids, issuers) && url in trusted
    requires forall i: nat, j: nat :: i != j ==> uuids(i) != uuids(j)
    requires forall i: nat, k :: 0 <= k < |supplied| ==> uuids(i) != supplied[k].id
    ensures URLOf(issuers, IDOf(issuers, url)) == url <==> url !in URLs(supplied) || OwnsItsID(supplied, url)
  {
    if url in URLs(supplied) {
      var k := LastWithURLExists(supplied, url);
      LastSuppliedIsLast(supplied, trusted, uuids, issuers, url, k);
      EdgeResolvesIff(issuers, url, k);
      SuppliedIDsIff(supplied, trusted, uuids, issuers, k);
      OwnsItsIDIff(supplied, url, k);
    } else {
      var k := SynthesizedIsLast(supplied, trusted, uuids, issuers, url);
      EdgeResolvesIff(issuers, url, k);
      SynthesizedIDsDiffer(supplied, trusted, uuids, issuers, k);
    }
  }

  lemma OwnsItsIDIff(supplied: seq<Issuer>, url: string, k: nat)
    requires LastWithURL(supplied, url, k)
    ensures OwnsItsID(supplied, url) <==> forall j :: k < j < |supplied| ==> supplied[j].id != supplied[k].id
  {
    if !OwnsItsID(supplied, url) {
      var l: nat, j: nat :| LastWithURL(supplied, url, l) && l < j < |supplied| && supplied[j].id == supplied[l].id;
      assert l == k;
    }
  }

  /** Synthesized issuers share no ID with the supplied one at `k`. */
  lemma SuppliedIDsIff(supplied: seq<Issuer>, trusted: seq<string>, uuids: nat -> string, issuers: seq<Issuer>, k: nat)
    requires Extends(supplied, trusted, uuids, issuers) && k < |supplied|
    requires forall i: nat, k :: 0 <= k < |supplied| ==> uuids(i) != supplied[k].id
    ensures (forall j :: k < j < |issuers| ==> issuers[j].id != issuers[k].id) <==>
            (forall j :: k < j < |supplied| ==> supplied[j].id != supplied[k].id)
  {
    assert forall m :: 0 <= m < |supplied| ==> issuers[m] == issuers[..|supplied|][m] == supplied[m];
    assert forall m :: |supplied| <= m < |issuers| ==> issuers[m].id == uuids(m - |supplied|);
  }

  lemma SynthesizedIDsDiffer(supplied: seq<Issuer>, trusted: seq<string>, uuids: nat -> string, issuers: seq<Issuer>, k: nat)
    requires Extends(supplied, trusted, uuids, issuers) && |supplied| <= k < |issuers|
    requires forall i: nat, j: nat :: i != j ==> uuids(i) != uuids(j)
    ensures forall j :: k < j < |issuers| ==> issuers[j].id != issuers[k].id
  {
    assert forall m :: |supplied| <= m < |issuers| ==> issuers[m].id == uuids(m - |supplied|);
  }

  // ---- the derived graph, record by record ---------------------------------------------------------

  /** An edge of the derived graph: from the last issuer with a URL that the consumer trusts. */
  ghost predicate DerivedEdge(issuers: seq<Issuer>, cs: seq<Consumer>, e: Edge) {
    exists c, url, k: nat ::
      && c in cs && url in c.expects.issuers && url != "" && LastWithURL(issuers, url, k)
      && e.issuerID == issuers[k].id && e.consumerID == c.id && e.expects == c.expects && e.verifyState == "unverified"
  }

  ghost predicate EdgeOfUrls(issuers: seq<Issuer>, c: Consumer, urls: seq<string>, e: Edge) {
    exists url :: url in urls && e == EdgeFor(issuers, c, url)
  }

  ghost predicate EdgeOfSome(issuers: seq<Issuer>, cs: seq<Consumer>, e: Edge) {
    exists c :: c in cs && EdgeOfUrls(issuers, c, Named(c.expects.issuers), e)
  }

  lemma {:induction false} EdgesForAre(issuers: seq<Issuer>, c: Consumer, urls: seq<string>, e: Edge)
    ensures e in EdgesFor(issuers, c, urls) <==> EdgeOfUrls(issuers, c, urls, e)
  {
    if urls != [] {
      EdgesForAre(issuers, c, urls[..|urls| - 1], e);
      assert urls == urls[..|urls| - 1] + [urls[|urls| - 1]];
    }
  }

  lemma EdgeOfOneMore(issuers: seq<Issuer>, cs: seq<Consumer>, c: Consumer, e: Edge)
    ensures EdgeOfSome(issuers, cs + [c], e) <==>
            EdgeOfSome(issuers, cs, e) || EdgeOfUrls(issuers, c, Named(c.expects.issuers), e)
  {
    if d :| d in cs && EdgeOfUrls(issuers, d, Named(d.expects.issuers), e) {
      assert d in cs + [c];
    }
    assert c in cs + [c];
  }

  lemma {:induction false} EdgesAre(issuers: seq<Issuer>, cs: seq<Consumer>, e: Edge)
    ensures e in EdgesOf(issuers, cs) <==> EdgeOfSome(issuers, cs, e)
  {
    if cs != [] {
      var init, last := cs[..|cs| - 1], cs[|cs| - 1];
      EdgesAre(issuers, init, e);
      EdgesForAre(issuers, last, Named(last.expects.issuers), e);
      EdgeOfOneMore(issuers, init, last, e);
      assert cs == init + [last];
    }
  }

  /** The derived graph: the supplied issuers, then a minimal record under a fresh ID for each
      other URL some consumer trusts; and an edge for exactly the trusts of a non-empty URL. */
  lemma DerivedGraphIs(supplied: seq<Issuer>, cs: seq<Consumer>, uuids: nat -> string, issuers: seq<Issuer>, edges: seq<Edge>, e: Edge)
    requires IsDerived(supplied, cs, uuids, issuers, edges)
    ensures supplied <= issuers
    ensures forall k :: |supplied| <= k < |issuers| ==>
              var iss := issuers[k];
              && iss.id == uuids(k - |supplied|) && iss.name == iss.url && iss.typ == "generic_oidc" && iss.jwksURI == ""
              && iss.keys == [] && iss.claims == [] && !iss.controlsPrivateKey && iss.url !in URLs(issuers[..k])
              && iss.url != "" && exists i :: 0 <= i < |cs| && iss.url in cs[i].expects.issuers
    ensures e in edges <==> DerivedEdge(issuers, cs, e)
  {
    assert issuers[..|supplied|] == supplied;
    forall k | |supplied| <= k < |issuers|
      ensures issuers[k].url != "" && SomeTrusts(cs, issuers[k].url)
    {
      TrustedMembers(cs, issuers[k].url);
    }
    EdgesAre(issuers, cs, e);
    if e in edges {
      var c :| c in cs && EdgeOfUrls(issuers, c, Named(c.expects.issuers), e);
      var url :| url in Named(c.expects.issuers) && e == EdgeFor(issuers, c, url);
      TrustedHasLast(supplied, cs, uuids, issuers, c, url);
      var k :| LastWithURL(issuers, url, k);
      LastWithURLGivesID(issuers, url, k);
    }
    if c, url, k: nat :|
      && c in cs && url in c.expects.issuers && url != "" && LastWithURL(issuers, url, k)
      && e.issuerID == issuers[k].id && e.consumerID == c.id && e.expects == c.expects && e.verifyState == "unverified" {
      NamedMembers(c.expects.issuers, url);
      LastWithURLGivesID(issuers, url, k);
      assert e == EdgeFor(issuers, c, url);
      assert EdgeOfUrls(issuers, c, Named(c.expects.issuers), e);
    }
  }

  lemma TrustedHasLast(supplied: seq<Issuer>, cs: seq<Consumer>, uuids: nat -> string, issuers: seq<Issuer>, c: Consumer, url: string)
    requires Extends(supplied, Trusted(cs), uuids, issuers) && c in cs && url in Named(c.expects.issuers)
    ensures url in c.expects.issuers && url != "" && exists k: nat :: LastWithURL(issuers, url, k)
  {
    NamedMembers(c.expects.issuers, url);
    var i :| 0 <= i < |cs| && cs[i] == c;
    assert SomeTrusts(cs, url);
    TrustedMembers(cs, url);
    var k := LastWithURLExists(issuers, url);
  }
}
