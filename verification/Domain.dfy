/** The entities of the contract graph, and their hash-stable projections. */
module Domain {
  import opened Prelude

  datatype Expectations = Expectations(
    issuers: seq<string>, audiences: seq<string>, algorithms: seq<string>,
    requiredClaims: seq<string>, clockSkewSec: int)

  datatype JWKSBehavior = JWKSBehavior(
    jwksURI: string, cacheTTLSec: Option<int>, refreshIntervalSec: Option<int>,
    refreshesOnUnknownKID: Option<bool>, lastObservedRefresh: Option<int>, source: string)

  datatype Library = Library(name: string, version: string, lang: string)

  datatype Endpoint = Endpoint(url: string, verb: string, safeProbePath: string)

  datatype Provenance = Provenance(source: string, locator: string, observedAt: int, confidence: real)

  datatype Consumer = Consumer(
    id: string, stableID: string, aliases: seq<string>, kind: string, name: string,
    namespace: string, ownerTeam: string, endpoints: seq<Endpoint>, expects: Expectations,
    jwks: JWKSBehavior, library: Option<Library>, provenance: map<string, seq<Provenance>>,
    confidence: map<string, real>, probeable: bool)

  datatype Key = Key(
    kid: string, alg: string, use_: string, pem: string, status: string,
    firstSeenInJWKS: int, inSigningUseSince: Option<int>, retiredAt: Option<int>)

  datatype ClaimObs = ClaimObs(name: string, firstSeen: int, lastSeen: int, presenceRate: real)

  datatype Issuer = Issuer(
    id: string, name: string, typ: string, url: string, jwksURI: string,
    keys: seq<Key>, controlsPrivateKey: bool, claims: seq<ClaimObs>)

  datatype Edge = Edge(issuerID: string, consumerID: string, expects: Expectations, verifyState: string)

  datatype Version = Version(
    id: string, hash: Digest, createdAt: int, isBaseline: bool,
    issuers: seq<Issuer>, consumers: seq<Consumer>, edges: seq<Edge>,
    triggerKind: string, triggerRef: string)

  // ---- canonical, hash-stable projections -----------------------------------

  datatype CanonKey = CanonKey(kid: string, alg: string, use_: string, pem: string, status: string)

  datatype CanonClaim = CanonClaim(name: string, presenceRate: real)

  datatype CanonIssuer = CanonIssuer(
    name: string, typ: string, url: string, jwksURI: string, controlsPrivateKey: bool,
    keys: seq<CanonKey>, claims: seq<CanonClaim>)

  datatype CanonJWKS = CanonJWKS(
    cacheTTLSec: Option<int>, refreshIntervalSec: Option<int>,
    refreshesOnUnknownKID: Option<bool>, source: string)

  datatype CanonConsumer = CanonConsumer(
    stableID: string, kind: string, name: string, namespace: string, ownerTeam: string,
    endpoints: seq<Endpoint>, expects: Expectations, jwks: CanonJWKS,
    library: Option<Library>, probeable: bool)

  datatype CanonEdge = CanonEdge(issuerURL: string, stableID: string, expects: Expectations)

  datatype CanonContract = CanonContract(
    issuers: seq<CanonIssuer>, consumers: seq<CanonConsumer>, edges: seq<CanonEdge>)

  /** The SHA-256 of a canonical form, taken as collision-free: it identifies the form. */
  datatype Digest = NoDigest | Digest(of: CanonContract)

  ghost predicate DistinctStableIDs(cs: seq<Consumer>) {
    forall i, j :: 0 <= i < j < |cs| ==> cs[i].stableID != cs[j].stableID
  }
}
