/** The canonical form of a contract version, under an unstable sort. */
module Canon {
  import opened Prelude
  import opened Ordering
  import opened Domain

  // ---- comparators ----------------------------------------------------------

  predicate KeyLess(a: CanonKey, b: CanonKey) {
    if a.kid != b.kid then LexLess(a.kid, b.kid)
    else if a.alg != b.alg then LexLess(a.alg, b.alg)
    else LexLess(a.status, b.status)
  }

  predicate ClaimLess(a: CanonClaim, b: CanonClaim) {
    if a.name != b.name then LexLess(a.name, b.name) else a.presenceRate < b.presenceRate
  }

  predicate EndpointLess(a: Endpoint, b: Endpoint) {
    if a.url != b.url then LexLess(a.url, b.url)
    else if a.verb != b.verb then LexLess(a.verb, b.verb)
    else LexLess(a.safeProbePath, b.safeProbePath)
  }

  predicate IssuerLess(a: CanonIssuer, b: CanonIssuer) {
    LexLess(a.url, b.url)
  }

  predicate ConsumerLess(a: CanonConsumer, b: CanonConsumer) {
    LexLess(a.stableID, b.stableID)
  }

  predicate EdgeLess(a: CanonEdge, b: CanonEdge) {
    if a.issuerURL != b.issuerURL then LexLess(a.issuerURL, b.issuerURL) else LexLess(a.stableID, b.stableID)
  }

  lemma KeyOrder()
    ensures StrictWeak(KeyLess)
  {
    forall a, b
      ensures KeyLess(a, b) ==> !KeyLess(b, a)
    {
      LexTotal(a.kid, b.kid); LexTotal(a.alg, b.alg); LexTotal(a.status, b.status);
    }
    forall a, b, c
      ensures KeyLess(a, c) ==> KeyLess(a, b) || KeyLess(b, c)
    {
      LexTotal(a.kid, b.kid); LexTotal(a.alg, b.alg);
      LexNegTransitive(a.kid, b.kid, c.kid); LexNegTransitive(a.alg, b.alg, c.alg);
      LexNegTransitive(a.status, b.status, c.status);
      LexTotal(b.kid, c.kid); LexTotal(b.alg, c.alg);
    }
  }

  /** Two keys tie exactly when they share KID, algorithm and status; the use and the
      public key itself are not compared. */
  lemma KeysTie(a: CanonKey, b: CanonKey)
    ensures Tied(a, b, KeyLess) <==> a.kid == b.kid && a.alg == b.alg && a.status == b.status
  {
    LexTotal(a.kid, b.kid); LexTotal(a.alg, b.alg); LexTotal(a.status, b.status);
  }

  lemma ClaimOrder()
    ensures StrictWeak(ClaimLess)
    ensures forall s: seq<CanonClaim> :: TiesCollapse(s, ClaimLess)
  {
    forall a, b
      ensures ClaimLess(a, b) ==> !ClaimLess(b, a)
      ensures Tied(a, b, ClaimLess) ==> a == b
    {
      LexTotal(a.name, b.name);
    }
    forall a, b, c
      ensures ClaimLess(a, c) ==> ClaimLess(a, b) || ClaimLess(b, c)
    {
      LexNegTransitive(a.name, b.name, c.name);
      LexTotal(a.name, b.name); LexTotal(b.name, c.name);
    }
  }

  lemma EndpointOrder()
    ensures StrictWeak(EndpointLess)
    ensures forall s: seq<Endpoint> :: TiesCollapse(s, EndpointLess)
  {
    forall a, b
      ensures EndpointLess(a, b) ==> !EndpointLess(b, a)
      ensures Tied(a, b, EndpointLess) ==> a == b
    {
      LexTotal(a.url, b.url); LexTotal(a.verb, b.verb); LexTotal(a.safeProbePath, b.safeProbePath);
    }
    forall a, b, c
      ensures EndpointLess(a, c) ==> EndpointLess(a, b) || EndpointLess(b, c)
    {
      LexTotal(a.url, b.url); LexTotal(a.verb, b.verb);
      LexNegTransitive(a.url, b.url, c.url); LexNegTransitive(a.verb, b.verb, c.verb);
      LexNegTransitive(a.safeProbePath, b.safeProbePath, c.safeProbePath);
      LexTotal(b.url, c.url); LexTotal(b.verb, c.verb);
    }
  }

  lemma IssuerOrder()
    ensures StrictWeak(IssuerLess)
  {
    forall a: CanonIssuer, b: CanonIssuer
      ensures IssuerLess(a, b) ==> !IssuerLess(b, a)
    {
      LexTotal(a.url, b.url);
    }
    forall a: CanonIssuer, b: CanonIssuer, c: CanonIssuer
      ensures IssuerLess(a, c) ==> IssuerLess(a, b) || IssuerLess(b, c)
    {
      LexNegTransitive(a.url, b.url, c.url);
    }
  }

  lemma ConsumerOrder()
    ensures StrictWeak(ConsumerLess)
  {
    forall a: CanonConsumer, b: CanonConsumer
      ensures ConsumerLess(a, b) ==> !ConsumerLess(b, a)
    {
      LexTotal(a.stableID, b.stableID);
    }
    forall a: CanonConsumer, b: CanonConsumer, c: CanonConsumer
      ensures ConsumerLess(a, c) ==> ConsumerLess(a, b) || ConsumerLess(b, c)
    {
      LexNegTransitive(a.stableID, b.stableID, c.stableID);
    }
  }

  lemma EdgeOrder()
    ensures StrictWeak(EdgeLess)
  {
    forall a, b
      ensures EdgeLess(a, b) ==> !EdgeLess(b, a)
    {
      LexTotal(a.issuerURL, b.issuerURL); LexTotal(a.stableID, b.stableID);
    }
    forall a, b, c
      ensures EdgeLess(a, c) ==> EdgeLess(a, b) || EdgeLess(b, c)
    {
      LexNegTransitive(a.issuerURL, b.issuerURL, c.issuerURL);
      LexTotal(a.issuerURL, b.issuerURL); LexTotal(b.issuerURL, c.issuerURL);
      LexNegTransitive(a.stableID, b.stableID, c.stableID);
    }
  }

  // ---- projections ----------------------------------------------------------

  function CanonExpectOf(e: Expectations): Expectations {
    Expectations(Sort(e.issuers, LexLess), Sort(e.audiences, LexLess), Sort(e.algorithms, LexLess),
                 Sort(e.requiredClaims, LexLess), e.clockSkewSec)
  }

  function CanonJWKSOf(j: JWKSBehavior): CanonJWKS {
    CanonJWKS(j.cacheTTLSec, j.refreshIntervalSec, j.refreshesOnUnknownKID, j.source)
  }

  function CanonConsumerOf(c: Consumer): CanonConsumer {
    CanonConsumer(c.stableID, c.kind, c.name, c.namespace, c.ownerTeam, Sort(c.endpoints, EndpointLess),
                  CanonExpectOf(c.expects), CanonJWKSOf(c.jwks), c.library, c.probeable)
  }

  function CanonKeyOf(k: Key): CanonKey {
    CanonKey(k.kid, k.alg, k.use_, k.pem, k.status)
  }

  function CanonClaimOf(c: ClaimObs): CanonClaim {
    CanonClaim(c.name, c.presenceRate)
  }

  function CanonKeys(iss: Issuer): seq<CanonKey> {
    Map(CanonKeyOf, iss.keys)
  }

  function CanonClaims(iss: Issuer): seq<CanonClaim> {
    Map(CanonClaimOf, iss.claims)
  }

  /** An issuer's projection with its keys in the order `keys`. */
  function CanonIssuerOf(iss: Issuer, keys: seq<CanonKey>): CanonIssuer {
    CanonIssuer(iss.name, iss.typ, iss.url, iss.jwksURI, iss.controlsPrivateKey, keys, Sort(CanonClaims(iss), ClaimLess))
  }

  /** The projections an issuer may get: any order of its keys that sorting may leave. */
  ghost predicate IsCanonIssuer(iss: Issuer, ci: CanonIssuer) {
    IsSortOf(ci.keys, CanonKeys(iss), KeyLess) && ci == CanonIssuerOf(iss, ci.keys)
  }

  /** The URL registered under an issuer ID; the last issuer with that ID wins, and an
      unknown ID gives the empty string. */
  function URLOf(issuers: seq<Issuer>, id: string): string {
    if issuers == [] then ""
    else if issuers[|issuers| - 1].id == id then issuers[|issuers| - 1].url
    else URLOf(issuers[..|issuers| - 1], id)
  }

  function StableIDOf(consumers: seq<Consumer>, id: string): string {
    if consumers == [] then ""
    else if consumers[|consumers| - 1].id == id then consumers[|consumers| - 1].stableID
    else StableIDOf(consumers[..|consumers| - 1], id)
  }

  function CanonConsumers(cs: seq<Consumer>): seq<CanonConsumer> {
    Map(CanonConsumerOf, cs)
  }

  function CanonEdgeOf(issuers: seq<Issuer>, consumers: seq<Consumer>, e: Edge): CanonEdge {
    CanonEdge(URLOf(issuers, e.issuerID), StableIDOf(consumers, e.consumerID), CanonExpectOf(e.expects))
  }

  function CanonEdges(v: Version): seq<CanonEdge> {
    Map((e: Edge) => CanonEdgeOf(v.issuers, v.consumers, e), v.edges)
  }

  ghost predicate AreCanonIssuers(issuers: seq<Issuer>, cis: seq<CanonIssuer>) {
    |cis| == |issuers| && forall i :: 0 <= i < |cis| ==> IsCanonIssuer(issuers[i], cis[i])
  }

  ghost predicate IsCanonIssuers(issuers: seq<Issuer>, out: seq<CanonIssuer>) {
    exists cis :: AreCanonIssuers(issuers, cis) && IsSortOf(out, cis, IssuerLess)
  }

  /** `c` is a canonical form that canonicalising `v` may return. */
  ghost predicate IsCanonical(v: Version, c: CanonContract) {
    && IsCanonIssuers(v.issuers, c.issuers)
    && IsSortOf(c.consumers, CanonConsumers(v.consumers), ConsumerLess)
    && IsSortOf(c.edges, CanonEdges(v), EdgeLess)
  }

  // ---- the methods ------------------------------------------------------------

  method SortedCopy(s: seq<string>) returns (out: seq<string>)
    ensures out == Sort(s, LexLess)
    ensures multiset(out) == multiset(s)
  {
    LexIsStrictWeak();
    out := SortSlice(s, LexLess);
    StringSortIsUnique(out, s);
  }

  method CanonicalExpect(e: Expectations) returns (out: Expectations)
    ensures out == CanonExpectOf(e)
  {
    var issuers := SortedCopy(e.issuers);
    var aud := SortedCopy(e.audiences);
    var alg := SortedCopy(e.algorithms);
    var req := SortedCopy(e.requiredClaims);
    out := Expectations(issuers, aud, alg, req, e.clockSkewSec);
  }

  method CanonicalIssuer(iss: Issuer) returns (ci: CanonIssuer)
    ensures IsCanonIssuer(iss, ci)
  {
    var keys: seq<CanonKey> := [];
    for i := 0 to |iss.keys|
      invariant keys == CanonKeys(iss)[..i]
    {
      keys := keys + [CanonKeyOf(iss.keys[i])];
    }
    assert keys == CanonKeys(iss);
    KeyOrder();
    keys := SortSlice(keys, KeyLess);
    var claims: seq<CanonClaim> := [];
    for i := 0 to |iss.claims|
      invariant claims == CanonClaims(iss)[..i]
    {
      claims := claims + [CanonClaimOf(iss.claims[i])];
    }
    assert claims == CanonClaims(iss);
    ClaimOrder();
    var sorted := SortSlice(claims, ClaimLess);
    SortIs(sorted, claims, ClaimLess);
    ci := CanonIssuer(iss.name, iss.typ, iss.url, iss.jwksURI, iss.controlsPrivateKey, keys, sorted);
  }

  method CanonicalConsumer(c: Consumer) returns (cc: CanonConsumer)
    ensures cc == CanonConsumerOf(c)
  {
    var expects := CanonicalExpect(c.expects);
    EndpointOrder();
    var endpoints := SortSlice(c.endpoints, EndpointLess);
    SortIs(endpoints, c.endpoints, EndpointLess);
    cc := CanonConsumer(c.stableID, c.kind, c.name, c.namespace, c.ownerTeam, endpoints, expects,
                        CanonJWKSOf(c.jwks), c.library, c.probeable);
  }

  method CanonicalIssuers(issuers: seq<Issuer>) returns (out: seq<CanonIssuer>)
    ensures IsCanonIssuers(issuers, out)
  {
    var cis: seq<CanonIssuer> := [];
    for i := 0 to |issuers|
      invariant |cis| == i && forall k :: 0 <= k < i ==> IsCanonIssuer(issuers[k], cis[k])
    {
      var ci := CanonicalIssuer(issuers[i]);
      cis := cis + [ci];
    }
    IssuerOrder();
    out := SortSlice(cis, IssuerLess);
    assert AreCanonIssuers(issuers, cis);
  }

  method CanonicalConsumers(cs: seq<Consumer>) returns (out: seq<CanonConsumer>)
    ensures IsSortOf(out, CanonConsumers(cs), ConsumerLess)
  {
    var ccs: seq<CanonConsumer> := [];
    for i := 0 to |cs|
      invariant ccs == CanonConsumers(cs)[..i]
    {
      var cc := CanonicalConsumer(cs[i]);
      ccs := ccs + [cc];
    }
    assert ccs == CanonConsumers(cs);
    ConsumerOrder();
    out := SortSlice(ccs, ConsumerLess);
  }

  method IssuerURLByID(issuers: seq<Issuer>) returns (m: map<string, string>)
    ensures forall id :: URLOf(issuers, id) == if id in m then m[id] else ""
  {
    m := map[];
    for i := 0 to |issuers|
      invariant forall id :: URLOf(issuers[..i], id) == if id in m then m[id] else ""
    {
      m := m[issuers[i].id := issuers[i].url];
      assert issuers[..i + 1][..i] == issuers[..i];
    }
    assert issuers[..|issuers|] == issuers;
  }

  method StableIDByID(consumers: seq<Consumer>) returns (m: map<string, string>)
    ensures forall id :: StableIDOf(consumers, id) == if id in m then m[id] else ""
  {
    m := map[];
    for i := 0 to |consumers|
      invariant forall id :: StableIDOf(consumers[..i], id) == if id in m then m[id] else ""
    {
      m := m[consumers[i].id := consumers[i].stableID];
      assert consumers[..i + 1][..i] == consumers[..i];
    }
    assert consumers[..|consumers|] == consumers;
  }

  method CanonicalEdges(v: Version) returns (out: seq<CanonEdge>)
    ensures IsSortOf(out, CanonEdges(v), EdgeLess)
  {
    var urls := IssuerURLByID(v.issuers);
    var stableIDs := StableIDByID(v.consumers);
    var ces: seq<CanonEdge> := [];
    for i := 0 to |v.edges|
      invariant ces == CanonEdges(v)[..i]
    {
      var e := v.edges[i];
      var expects := CanonicalExpect(e.expects);
      ces := ces + [CanonEdge(if e.issuerID in urls then urls[e.issuerID] else "",
                              if e.consumerID in stableIDs then stableIDs[e.consumerID] else "",
                              expects)];
    }
    assert ces == CanonEdges(v);
    EdgeOrder();
    out := SortSlice(ces, EdgeLess);
  }

  method Canonicalize(v: Version) returns (c: CanonContract)
    ensures IsCanonical(v, c)
  {
    var issuers := CanonicalIssuers(v.issuers);
    var consumers := CanonicalConsumers(v.consumers);
    var edges := CanonicalEdges(v);
    c := CanonContract(issuers, consumers, edges);
  }

  /** The canonical hash of a version. */
  method Hash(v: Version) returns (h: Digest)
    ensures h.Digest? && IsCanonical(v, h.of)
  {
    var c := Canonicalize(v);
    h := Digest(c);
  }
}
