/** Each attack of the corpus against a verifier that is right but for one flaw: the attack
    catches it. */
module FlawedVerifiers {
  import opened Prelude
  import opened Jose
  import opened Oracle
  import opened AttackCorpus

  datatype Flaw =
    | TakesUnsigned(alg: string)       // an algorithm that means "no signature"
    | SkipsEmptySignature              // nothing to check if nothing is there
    | IgnoresLastByte                  // compares all of the signature but its last byte
    | KeysHMACWith(secret: Bytes)      // HS256 under the issuer's public key
    | TakesZeroSignature               // ES256 with r and s zero
    | TrustsEmbeddedKey                // the key that the header brings along
    | FetchesKey(param: string, url: string, key: RSAKey)  // the key found at a URL of the header
    | ReadsKeyFile(path: string)       // an empty HMAC secret, read from a path in `kid`
    | NeverExpires | NeverStarts | AnyIssuer | AnyAudience | AnyAudienceList | ExpiryOptional | AudienceOptional
    | TakesMoreSegments | TakesPadding

  // ---- what a flawed verifier lets through ---------------------------------------------------------

  predicate IsCompact(t: Compact) {
    |t| == 3 && t[0].Json? && t[1].Json? && t[2].Raw?
  }

  predicate Names(t: Compact, alg: string)
    requires IsCompact(t)
  {
    "alg" in t[0].o && t[0].o["alg"] == Str(alg)
  }

  /** A signature taken although it is not the issuer's. */
  ghost predicate TakesSignature(cr: Crypto, p: Policy, flaw: Flaw, t: Compact)
    requires IsCompact(t)
  {
    var header, input, sig := t[0].o, [t[0], t[1]], t[2].bytes;
    match flaw
    case TakesUnsigned(alg) => Names(t, alg) && sig == []
    case SkipsEmptySignature => Names(t, "RS256") && sig == []
    case IgnoresLastByte =>
      Names(t, "RS256") && |sig| == |cr.rsa(p.trusted, input)| > 0
      && forall i :: 0 <= i < |sig| - 1 ==> sig[i] == cr.rsa(p.trusted, input)[i]
    case KeysHMACWith(secret) => Names(t, "HS256") && sig == cr.hmac(secret, input)
    case TakesZeroSignature => Names(t, "ES256") && |sig| == 64 && forall i :: 0 <= i < 64 ==> sig[i] == 0
    case TrustsEmbeddedKey => Names(t, "RS256") && exists k :: "jwk" in header && header["jwk"] == Jwk(k) && sig == cr.rsa(k, input)
    case FetchesKey(param, url, key) =>
      Names(t, "RS256") && param in header && header[param] == Str(url) && sig == cr.rsa(key, input)
    case ReadsKeyFile(path) => Names(t, "HS256") && "kid" in header && header["kid"] == Str(path) && sig == cr.hmac([], input)
    case _ => false
  }

  /** Claims taken although one of them is not in order. */
  ghost predicate TakesClaims(p: Policy, now: int, flaw: Flaw, c: Object) {
    && (Unexpired(c, now, p.skew) || flaw.NeverExpires? || (flaw.ExpiryOptional? && "exp" !in c))
    && (Started(c, now, p.skew) || flaw.NeverStarts?)
    && (FromIssuer(c, p.issuer) || flaw.AnyIssuer?)
    && (ForAudience(c, p.audience) || flaw.AnyAudience? || (flaw.AudienceOptional? && "aud" !in c)
        || (flaw.AnyAudienceList? && "aud" in c && c["aud"].Arr?))
    && (HasRequired(c, p.required) || (flaw.ExpiryOptional? && HasRequiredBut(c, p.required, "exp"))
        || (flaw.AudienceOptional? && HasRequiredBut(c, p.required, "aud")))
  }

  predicate HasRequiredBut(c: Object, required: seq<string>, claim: string) {
    forall rc :: rc in required && rc != claim ==> rc in c && c[rc] != Null && c[rc] != Str("")
  }

  function Unpadded(s: Segment): Segment {
    match s
    case Padded(of) => of
    case _ => s
  }

  /** The one flaw lets the token through. */
  ghost predicate Trips(cr: Crypto, p: Policy, clock: int, flaw: Flaw, t: Compact) {
    match flaw
    case TakesMoreSegments => |t| >= 3 && Verify(cr, p, clock, t[..3]) == Accept
    case TakesPadding => |t| == 3 && Verify(cr, p, clock, [Unpadded(t[0]), Unpadded(t[1]), Unpadded(t[2])]) == Accept
    case _ =>
      IsCompact(t) && var now := CheckedAt(p, clock);
                      || (TakesSignature(cr, p, flaw, t) && ValidClaims(p, clock, t[1].o))
                      || (Names(t, "RS256") && t[2].bytes == cr.rsa(p.trusted, [t[0], t[1]]) && TakesClaims(p, now, flaw, t[1].o))
  }

  /** The verifier that differs from the reference only in the flaw. */
  ghost predicate IsFlawed(cr: Crypto, p: Policy, clock: int, flaw: Flaw, verify: Compact -> Verdict) {
    forall t :: verify(t) == if Trips(cr, p, clock, flaw, t) then Accept else Verify(cr, p, clock, t)
  }

  /** Evaluating the verifier reports an attack of this threat that was accepted. */
  ghost predicate Caught(corpus: seq<Token>, verify: Compact -> Verdict, threat: string) {
    exists f :: f in Findings(corpus, verify) && f.token.threatID == threat && f.actual == Accept
  }

  // ---- from a token to a finding ----------------------------------------------------------------------

  lemma {:induction false} DisagreementIsFound(corpus: seq<Token>, verify: Compact -> Verdict, t: Token)
    requires t in corpus && verify(t.jws) != t.want
    ensures AttackCorpus.Finding(t, verify(t.jws)) in Findings(corpus, verify)
  {
    var init, last := corpus[..|corpus| - 1], corpus[|corpus| - 1];
    assert corpus == init + [last];
    if t in init {
      DisagreementIsFound(init, verify, t);
    }
  }

  /** An attack that trips the flaw catches the verifier that has it. */
  lemma TrippingCatches(cr: Crypto, p: Policy, c: Context, clock: int, flaw: Flaw, verify: Compact -> Verdict, t: Token)
    requires IsFlawed(cr, p, clock, flaw, verify) && t in Attacks(cr, c) && Trips(cr, p, clock, flaw, t.jws)
    ensures Caught(Corpus(cr, c), verify, t.threatID)
  {
    AttacksWantRejection(cr, c);
    assert t in Corpus(cr, c);
    DisagreementIsFound(Corpus(cr, c), verify, t);
  }

  // ---- forged tokens --------------------------------------------------------------------------------------

  /** The token carries this header, the base claims and this signature. */
  ghost predicate Carries(c: Context, t: Compact, header: Object, sig: Bytes) {
    t == [Json(header), Json(BaseClaims(c)), Raw(sig)]
  }

  lemma ForgedCarries(c: Context, threat: string, name: string, self: bool, header: Object, signer: Compact -> Bytes)
    ensures Carries(c, Forged(c, threat, name, self, header, signer).jws, header, signer([Json(header), Json(BaseClaims(c))]))
  {
  }

  lemma HeaderHas(alg: string, extra: Object)
    requires "alg" !in extra
    ensures var h := HeaderOf(alg, extra); "alg" in h && h["alg"] == Str(alg) && forall k :: k in extra ==> k in h && h[k] == extra[k]
  {
  }

  /** With valid claims it is the signature alone that must trip. */
  lemma CarriedTrips(cr: Crypto, p: Policy, c: Context, clock: int, flaw: Flaw, t: Compact, header: Object, sig: Bytes)
    requires Matches(p, c) && ControlFits(c, p.skew) && Carries(c, t, header, sig) && TakesSignature(cr, p, flaw, t)
    requires !flaw.TakesMoreSegments? && !flaw.TakesPadding?
    ensures Trips(cr, p, clock, flaw, t)
  {
    BaseIsValidIff(p, c, clock);
  }

  lemma UnsignedTrips(cr: Crypto, p: Policy, c: Context, clock: int, alg: string, t: Token)
    requires Matches(p, c) && ControlFits(c, p.skew)
    requires t.jws == Forged(c, t.threatID, t.name, t.selfContained, HeaderOf(alg, map[]), EmptySig).jws
    ensures Trips(cr, p, clock, TakesUnsigned(alg), t.jws)
    ensures alg == "RS256" ==> Trips(cr, p, clock, SkipsEmptySignature, t.jws)
  {
    var header := HeaderOf(alg, map[]);
    ForgedCarries(c, t.threatID, t.name, t.selfContained, header, EmptySig);
    HeaderHas(alg, map[]);
    CarriedTrips(cr, p, c, clock, TakesUnsigned(alg), t.jws, header, []);
    if alg == "RS256" {
      CarriedTrips(cr, p, c, clock, SkipsEmptySignature, t.jws, header, []);
    }
  }

  lemma TamperedTrips(cr: Crypto, p: Policy, c: Context, clock: int, t: Token)
    requires Matches(p, c) && ControlFits(c, p.skew) && t in Tampered(cr, c)
    ensures Trips(cr, p, clock, IgnoresLastByte, t.jws)
  {
    var header, extra := HeaderOf("RS256", map["kid" := Str("trusted")]), map["kid" := Str("trusted")];
    var sig := cr.rsa(c.trusted, [Json(header), Json(BaseClaims(c))]);
    HeaderHas("RS256", extra);
    assert Sign(cr, c, BaseClaims(c)) == [Json(header), Json(BaseClaims(c)), Raw(sig)];
    assert t.jws == [Json(header), Json(BaseClaims(c)), Raw(Flipped(sig))];
    assert forall i :: 0 <= i < |sig| - 1 ==> Flipped(sig)[i] == Flipped(sig)[..|sig| - 1][i] == sig[..|sig| - 1][i] == sig[i];
    CarriedTrips(cr, p, c, clock, IgnoresLastByte, t.jws, header, Flipped(sig));
  }

  lemma ConfusedTrips(cr: Crypto, p: Policy, c: Context, clock: int)
    requires Matches(p, c) && ControlFits(c, p.skew) && c.trustedPEM != []
    ensures Trips(cr, p, clock, KeysHMACWith(c.trustedPEM), ConfusedHMAC(cr, c)[0].jws)
  {
    var header, signer := HeaderOf("HS256", map[]), (input: Compact) => cr.hmac(c.trustedPEM, input);
    ForgedCarries(c, "ALG-01", "alg_confusion_rs_hs", true, header, signer);
    HeaderHas("HS256", map[]);
    CarriedTrips(cr, p, c, clock, KeysHMACWith(c.trustedPEM), ConfusedHMAC(cr, c)[0].jws, header,
                 signer([Json(header), Json(BaseClaims(c))]));
  }

  lemma PsychicTrips(cr: Crypto, p: Policy, c: Context, clock: int)
    requires Matches(p, c) && ControlFits(c, p.skew)
    ensures Trips(cr, p, clock, TakesZeroSignature, Psychic(c).jws)
  {
    var header := HeaderOf("ES256", map[]);
    ForgedCarries(c, "ALG-04", "psychic_signature_es256", true, header, ZeroSig);
    HeaderHas("ES256", map[]);
    CarriedTrips(cr, p, c, clock, TakesZeroSignature, Psychic(c).jws, header, ZeroSig([Json(header), Json(BaseClaims(c))]));
  }

  lemma AttackerTrips(cr: Crypto, p: Policy, c: Context, clock: int, flaw: Flaw, t: Token, extra: Object)
    requires Matches(p, c) && ControlFits(c, p.skew) && "alg" !in extra
    requires t.jws == AttackerSigned(cr, c, t.threatID, t.name, t.selfContained, HeaderOf("RS256", extra)).jws
    requires (flaw.TrustsEmbeddedKey? && "jwk" in extra && extra["jwk"] == Jwk(c.attacker))
             || (flaw.FetchesKey? && flaw.param in extra && extra[flaw.param] == Str(flaw.url) && flaw.key == c.attacker)
    ensures Trips(cr, p, clock, flaw, t.jws)
  {
    var header, signer := HeaderOf("RS256", extra), (input: Compact) => cr.rsa(c.attacker, input);
    ForgedCarries(c, t.threatID, t.name, t.selfContained, header, signer);
    HeaderHas("RS256", extra);
    CarriedTrips(cr, p, c, clock, flaw, t.jws, header, signer([Json(header), Json(BaseClaims(c))]));
  }

  lemma TraversalTrips(cr: Crypto, p: Policy, c: Context, clock: int, t: Token)
    requires Matches(p, c) && ControlFits(c, p.skew)
    requires t.jws == Forged(c, t.threatID, t.name, t.selfContained, HeaderOf("HS256", map["kid" := Str(TRAVERSAL)]),
                             (input: Compact) => cr.hmac([], input)).jws
    ensures Trips(cr, p, clock, ReadsKeyFile(TRAVERSAL), t.jws)
  {
    var extra: Object := map["kid" := Str(TRAVERSAL)];
    var header, signer := HeaderOf("HS256", extra), (input: Compact) => cr.hmac([], input);
    ForgedCarries(c, t.threatID, t.name, t.selfContained, header, signer);
    HeaderHas("HS256", extra);
    CarriedTrips(cr, p, c, clock, ReadsKeyFile(TRAVERSAL), t.jws, header, signer([Json(header), Json(BaseClaims(c))]));
  }

  // ---- bad claims -------------------------------------------------------------------------------------------

  lemma SignedTrips(cr: Crypto, p: Policy, c: Context, clock: int, flaw: Flaw, claims: Object)
    requires p.trusted == c.trusted && TakesClaims(p, CheckedAt(p, clock), flaw, claims)
    requires !flaw.TakesMoreSegments? && !flaw.TakesPadding?
    ensures Trips(cr, p, clock, flaw, Sign(cr, c, claims))
  {
    HeaderHas("RS256", map["kid" := Str("trusted")]);
    var t := Sign(cr, c, claims);
    assert t == [t[0], t[1], t[2]] && t[0] == Json(HeaderOf("RS256", map["kid" := Str("trusted")])) && t[1] == Json(claims);
  }

  lemma TimesTaken(p: Policy, c: Context, clock: int)
    requires Matches(p, c) && ControlFits(c, p.skew)
    ensures TakesClaims(p, CheckedAt(p, clock), NeverExpires, BaseClaims(c)["exp" := Num(Unix(c.now - HOUR))])
    ensures TakesClaims(p, CheckedAt(p, clock), NeverStarts, NotYetValid(c, BaseClaims(c)))
  {
    BaseIsValidIff(p, c, clock);
    BaseTimes(c);
  }

  lemma PartiesTaken(p: Policy, c: Context, clock: int, aud: Value)
    requires Matches(p, c) && ControlFits(c, p.skew) && aud != Null && aud != Str("")
    ensures TakesClaims(p, CheckedAt(p, clock), AnyIssuer, BaseClaims(c)["iss" := Str(EVIL)])
    ensures TakesClaims(p, CheckedAt(p, clock), AnyAudience, BaseClaims(c)["aud" := aud])
    ensures aud.Arr? ==> TakesClaims(p, CheckedAt(p, clock), AnyAudienceList, BaseClaims(c)["aud" := aud])
  {
    BaseIsValidIff(p, c, clock);
  }

  lemma MissingTaken(p: Policy, c: Context, clock: int)
    requires Matches(p, c) && ControlFits(c, p.skew)
    ensures TakesClaims(p, CheckedAt(p, clock), ExpiryOptional, BaseClaims(c) - {"exp"})
    ensures TakesClaims(p, CheckedAt(p, clock), AudienceOptional, BaseClaims(c) - {"aud"})
  {
    BaseIsValidIff(p, c, clock);
  }

  // ---- encodings ---------------------------------------------------------------------------------------------

  lemma EncodingTrips(cr: Crypto, p: Policy, c: Context, clock: int)
    requires Matches(p, c) && ControlFits(c, p.skew)
    ensures Trips(cr, p, clock, TakesMoreSegments, EncodingAttacks(cr, c)[0].jws)
    ensures Trips(cr, p, clock, TakesPadding, EncodingAttacks(cr, c)[1].jws)
  {
    var t := Sign(cr, c, BaseClaims(c));
    TrustedIsJudgedByClaims(cr, p, c, clock, BaseClaims(c));
    BaseIsValidIff(p, c, clock);
    var more, padded := EncodingAttacks(cr, c)[0].jws, EncodingAttacks(cr, c)[1].jws;
    assert more[..3] == t;
    assert [Unpadded(padded[0]), Unpadded(padded[1]), Unpadded(padded[2])] == t;
  }

  // ---- the theorem -------------------------------------------------------------------------------------------

  /** Which threat catches which flaw. */
  ghost predicate Exposes(c: Context, threat: string, flaw: Flaw) {
    || ExposesSignature(threat, flaw) || ExposesAlgorithm(c, threat, flaw) || ExposesHeader(c, threat, flaw)
    || ExposesClaims(threat, flaw) || ExposesEncoding(threat, flaw) || ExposesAudience(threat, flaw)
  }

  ghost predicate ExposesSignature(threat: string, flaw: Flaw) {
    || (threat == "SIG-01" && flaw == TakesUnsigned("none"))
    || (threat == "SIG-02" && flaw == IgnoresLastByte)
    || (threat == "SIG-03" && flaw == SkipsEmptySignature)
  }

  ghost predicate ExposesAlgorithm(c: Context, threat: string, flaw: Flaw) {
    || (threat == "ALG-01" && c.trustedPEM != [] && flaw == KeysHMACWith(c.trustedPEM))
    || (threat == "ALG-03" && flaw.TakesUnsigned? && flaw.alg in ["None", "NONE", "nOnE", "none "])
    || (threat == "ALG-04" && flaw == TakesZeroSignature)
  }

  ghost predicate ExposesHeader(c: Context, threat: string, flaw: Flaw) {
    || (threat == "HDR-01" && flaw == FetchesKey("jku", "https://attacker.keyway.test/jwks.json", c.attacker))
    || (threat == "HDR-02" && flaw == FetchesKey("x5u", "https://attacker.keyway.test/cert.pem", c.attacker))
    || (threat == "HDR-03" && flaw == TrustsEmbeddedKey)
    || (threat == "HDR-05" && flaw == ReadsKeyFile("../../../../../../dev/null"))
  }

  ghost predicate ExposesClaims(threat: string, flaw: Flaw) {
    || (threat == "CLM-01" && flaw == NeverExpires)
    || (threat == "CLM-02" && flaw == NeverStarts)
    || (threat == "CLM-03" && flaw == AnyIssuer)
    || (threat == "CLM-04" && flaw == AnyAudience)
    || (threat == "CLM-06" && flaw == AnyAudienceList)
    || (threat == "CLM-08" && flaw == ExpiryOptional)
  }

  ghost predicate ExposesEncoding(threat: string, flaw: Flaw) {
    || (threat == "ENC-01" && flaw == TakesMoreSegments)
    || (threat == "ENC-02" && flaw == TakesPadding)
  }

  ghost predicate ExposesAudience(threat: string, flaw: Flaw) {
    || (threat == "MCP-01" && flaw == AnyAudience)
    || (threat == "MCP-02" && flaw == AudienceOptional)
    || (threat == "DEL-02" && flaw == AnyAudience)
  }

  /** Some attack of the threat trips the flaw. */
  ghost predicate HasTrip(cr: Crypto, p: Policy, c: Context, clock: int, flaw: Flaw, threat: string, ts: seq<Token>) {
    exists t :: t in ts && t.threatID == threat && Trips(cr, p, clock, flaw, t.jws)
  }

  lemma SignatureThreats(cr: Crypto, p: Policy, c: Context, clock: int)
    requires Matches(p, c) && ControlFits(c, p.skew) && Unforgeable(cr, c.trusted)
    ensures HasTrip(cr, p, c, clock, TakesUnsigned("none"), "SIG-01", SignatureAttacks(cr, c))
    ensures HasTrip(cr, p, c, clock, SkipsEmptySignature, "SIG-03", SignatureAttacks(cr, c))
    ensures HasTrip(cr, p, c, clock, IgnoresLastByte, "SIG-02", SignatureAttacks(cr, c))
  {
    var attacks := SignatureAttacks(cr, c);
    UnsignedTrips(cr, p, c, clock, "none", attacks[0]);
    UnsignedTrips(cr, p, c, clock, "RS256", attacks[1]);
    assert attacks[0] in attacks && attacks[1] in attacks;
    assert |Tampered(cr, c)| == 1;
    TamperedTrips(cr, p, c, clock, Tampered(cr, c)[0]);
    assert attacks[2] == Tampered(cr, c)[0] && attacks[2] in attacks;
  }

  lemma AlgorithmThreats(cr: Crypto, p: Policy, c: Context, clock: int, i: nat)
    requires Matches(p, c) && ControlFits(c, p.skew) && i < |NONES|
    ensures c.trustedPEM != [] ==> HasTrip(cr, p, c, clock, KeysHMACWith(c.trustedPEM), "ALG-01", AlgorithmAttacks(cr, c))
    ensures HasTrip(cr, p, c, clock, TakesUnsigned(NONES[i]), "ALG-03", AlgorithmAttacks(cr, c))
    ensures HasTrip(cr, p, c, clock, TakesZeroSignature, "ALG-04", AlgorithmAttacks(cr, c))
  {
    var attacks := AlgorithmAttacks(cr, c);
    if c.trustedPEM != [] {
      ConfusedTrips(cr, p, c, clock);
      assert ConfusedHMAC(cr, c)[0] in attacks;
    }
    UnsignedTrips(cr, p, c, clock, NONES[i], NoneVariants(c)[i]);
    assert NoneVariants(c)[i] in attacks;
    PsychicTrips(cr, p, c, clock);
    assert Psychic(c) in attacks;
  }

  lemma KeyThreats(cr: Crypto, p: Policy, c: Context, clock: int)
    requires Matches(p, c) && ControlFits(c, p.skew)
    ensures HasTrip(cr, p, c, clock, TrustsEmbeddedKey, "HDR-03", HeaderAttacks(cr, c))
    ensures HasTrip(cr, p, c, clock, FetchesKey("jku", JKU, c.attacker), "HDR-01", HeaderAttacks(cr, c))
  {
    var attacks := HeaderAttacks(cr, c);
    AttackerTrips(cr, p, c, clock, TrustsEmbeddedKey, attacks[0], map["jwk" := Jwk(c.attacker)]);
    AttackerTrips(cr, p, c, clock, FetchesKey("jku", JKU, c.attacker), attacks[1], map["kid" := Str("attacker"), "jku" := Str(JKU)]);
    assert attacks[0] in attacks && attacks[1] in attacks;
  }

  lemma PathThreats(cr: Crypto, p: Policy, c: Context, clock: int)
    requires Matches(p, c) && ControlFits(c, p.skew)
    ensures HasTrip(cr, p, c, clock, FetchesKey("x5u", X5U, c.attacker), "HDR-02", HeaderAttacks(cr, c))
    ensures HasTrip(cr, p, c, clock, ReadsKeyFile(TRAVERSAL), "HDR-05", HeaderAttacks(cr, c))
  {
    var attacks := HeaderAttacks(cr, c);
    AttackerTrips(cr, p, c, clock, FetchesKey("x5u", X5U, c.attacker), attacks[2], map["x5u" := Str(X5U)]);
    TraversalTrips(cr, p, c, clock, attacks[3]);
    assert attacks[2] in attacks && attacks[3] in attacks;
  }

  lemma SignedHasTrip(cr: Crypto, p: Policy, c: Context, clock: int, flaw: Flaw, ts: seq<Token>, i: nat, threat: string, claims: Object)
    requires p.trusted == c.trusted && TakesClaims(p, CheckedAt(p, clock), flaw, claims)
    requires !flaw.TakesMoreSegments? && !flaw.TakesPadding?
    requires i < |ts| && ts[i].jws == Sign(cr, c, claims) && ts[i].threatID == threat
    ensures HasTrip(cr, p, c, clock, flaw, threat, ts)
  {
    SignedTrips(cr, p, c, clock, flaw, claims);
    assert ts[i] in ts;
  }

  /** The threats of the claim attacks, in order. */
  lemma ClaimThreatIDs(cr: Crypto, c: Context, base: Object)
    ensures var ts := ClaimAttacks(cr, c, base);
            && |ts| == 6 && ts[0].threatID == "CLM-01" && ts[1].threatID == "CLM-02" && ts[2].threatID == "CLM-03"
            && ts[3].threatID == "CLM-04" && ts[4].threatID == "CLM-06" && ts[5].threatID == "CLM-08"
  {
  }

  lemma ResourceThreatIDs(cr: Crypto, c: Context, base: Object)
    ensures var ts := ResourceAttacks(cr, c, base);
            |ts| == 3 && ts[0].threatID == "MCP-01" && ts[1].threatID == "MCP-02" && ts[2].threatID == "DEL-02"
  {
  }

  lemma TimeThreats(cr: Crypto, p: Policy, c: Context, clock: int, ts: seq<Token>)
    requires Matches(p, c) && ControlFits(c, p.skew) && ts == ClaimAttacks(cr, c, BaseClaims(c))
    ensures HasTrip(cr, p, c, clock, NeverExpires, "CLM-01", ts) && HasTrip(cr, p, c, clock, NeverStarts, "CLM-02", ts)
  {
    var bad := BadClaims(c, BaseClaims(c));
    ClaimAttacksSign(cr, c, BaseClaims(c));
    ClaimThreatIDs(cr, c, BaseClaims(c));
    TimesTaken(p, c, clock);
    SignedHasTrip(cr, p, c, clock, NeverExpires, ts, 0, "CLM-01", bad[0]);
    SignedHasTrip(cr, p, c, clock, NeverStarts, ts, 1, "CLM-02", bad[1]);
  }

  lemma ExpiryThreat(cr: Crypto, p: Policy, c: Context, clock: int, ts: seq<Token>)
    requires Matches(p, c) && ControlFits(c, p.skew) && ts == ClaimAttacks(cr, c, BaseClaims(c))
    ensures HasTrip(cr, p, c, clock, ExpiryOptional, "CLM-08", ts)
  {
    var bad := BadClaims(c, BaseClaims(c));
    ClaimAttacksSign(cr, c, BaseClaims(c));
    ClaimThreatIDs(cr, c, BaseClaims(c));
    MissingTaken(p, c, clock);
    SignedHasTrip(cr, p, c, clock, ExpiryOptional, ts, 5, "CLM-08", bad[5]);
  }

  lemma PartyThreats(cr: Crypto, p: Policy, c: Context, clock: int, ts: seq<Token>)
    requires Matches(p, c) && ControlFits(c, p.skew) && ts == ClaimAttacks(cr, c, BaseClaims(c))
    ensures HasTrip(cr, p, c, clock, AnyIssuer, "CLM-03", ts) && HasTrip(cr, p, c, clock, AnyAudience, "CLM-04", ts)
    ensures HasTrip(cr, p, c, clock, AnyAudienceList, "CLM-06", ts)
  {
    var bad := BadClaims(c, BaseClaims(c));
    ClaimAttacksSign(cr, c, BaseClaims(c));
    ClaimThreatIDs(cr, c, BaseClaims(c));
    PartiesTaken(p, c, clock, Str(OTHER));
    PartiesTaken(p, c, clock, Arr([Str(OTHER), Str(ANOTHER)]));
    SignedHasTrip(cr, p, c, clock, AnyIssuer, ts, 2, "CLM-03", bad[2]);
    SignedHasTrip(cr, p, c, clock, AnyAudience, ts, 3, "CLM-04", bad[3]);
    SignedHasTrip(cr, p, c, clock, AnyAudienceList, ts, 4, "CLM-06", bad[4]);
  }

  lemma ResourceThreats(cr: Crypto, p: Policy, c: Context, clock: int, ts: seq<Token>)
    requires Matches(p, c) && ControlFits(c, p.skew) && ts == ResourceAttacks(cr, c, BaseClaims(c))
    ensures HasTrip(cr, p, c, clock, AnyAudience, "MCP-01", ts) && HasTrip(cr, p, c, clock, AudienceOptional, "MCP-02", ts)
    ensures HasTrip(cr, p, c, clock, AnyAudience, "DEL-02", ts)
  {
    var bad := BadAudiences(BaseClaims(c));
    ResourceAttacksSign(cr, c, BaseClaims(c));
    ResourceThreatIDs(cr, c, BaseClaims(c));
    PartiesTaken(p, c, clock, Str(PASSTHROUGH));
    PartiesTaken(p, c, clock, Str(SIBLING));
    MissingTaken(p, c, clock);
    SignedHasTrip(cr, p, c, clock, AnyAudience, ts, 0, "MCP-01", bad[0]);
    SignedHasTrip(cr, p, c, clock, AudienceOptional, ts, 1, "MCP-02", bad[1]);
    SignedHasTrip(cr, p, c, clock, AnyAudience, ts, 2, "DEL-02", bad[2]);
  }

  lemma EncodingThreats(cr: Crypto, p: Policy, c: Context, clock: int)
    requires Matches(p, c) && ControlFits(c, p.skew)
    ensures HasTrip(cr, p, c, clock, TakesMoreSegments, "ENC-01", EncodingAttacks(cr, c))
    ensures HasTrip(cr, p, c, clock, TakesPadding, "ENC-02", EncodingAttacks(cr, c))
  {
    EncodingTrips(cr, p, c, clock);
    var attacks := EncodingAttacks(cr, c);
    assert attacks[0] in attacks && attacks[1] in attacks;
  }

  /** Whatever the keys and the context, as long as the control is valid: a verifier that is
      right but for one of these flaws is caught by the attack made for it. */
  lemma EveryFlawIsCaught(cr: Crypto, p: Policy, c: Context, clock: int, flaw: Flaw, threat: string, verify: Compact -> Verdict)
    requires Matches(p, c) && ControlFits(c, p.skew) && Unforgeable(cr, c.trusted)
    requires Exposes(c, threat, flaw) && IsFlawed(cr, p, clock, flaw, verify)
    ensures Caught(Corpus(cr, c), verify, threat)
  {
    SomeListTrips(cr, p, c, clock, flaw, threat);
    var t :| t in Attacks(cr, c) && t.threatID == threat && Trips(cr, p, clock, flaw, t.jws);
    TrippingCatches(cr, p, c, clock, flaw, verify, t);
  }

  lemma TripInAttacks(cr: Crypto, p: Policy, c: Context, clock: int, flaw: Flaw, threat: string, ts: seq<Token>)
    requires HasTrip(cr, p, c, clock, flaw, threat, ts) && forall t :: t in ts ==> t in Attacks(cr, c)
    ensures HasTrip(cr, p, c, clock, flaw, threat, Attacks(cr, c))
  {
  }

  lemma ListsAreInAttacks(cr: Crypto, c: Context)
    ensures forall t :: t in SignatureAttacks(cr, c) ==> t in Attacks(cr, c)
    ensures forall t :: t in AlgorithmAttacks(cr, c) ==> t in Attacks(cr, c)
    ensures forall t :: t in HeaderAttacks(cr, c) ==> t in Attacks(cr, c)
    ensures forall t :: t in ClaimAttacks(cr, c, BaseClaims(c)) ==> t in Attacks(cr, c)
    ensures forall t :: t in EncodingAttacks(cr, c) ==> t in Attacks(cr, c)
    ensures forall t :: t in ResourceAttacks(cr, c, BaseClaims(c)) ==> t in Attacks(cr, c)
  {
  }

  lemma SignatureListTrips(cr: Crypto, p: Policy, c: Context, clock: int, flaw: Flaw, threat: string)
    requires Matches(p, c) && ControlFits(c, p.skew) && Unforgeable(cr, c.trusted) && ExposesSignature(threat, flaw)
    ensures HasTrip(cr, p, c, clock, flaw, threat, Attacks(cr, c))
  {
    SignatureThreats(cr, p, c, clock);
    ListsAreInAttacks(cr, c);
    TripInAttacks(cr, p, c, clock, flaw, threat, SignatureAttacks(cr, c));
  }

  lemma AlgorithmListTrips(cr: Crypto, p: Policy, c: Context, clock: int, flaw: Flaw, threat: string)
    requires Matches(p, c) && ControlFits(c, p.skew) && Unforgeable(cr, c.trusted) && ExposesAlgorithm(c, threat, flaw)
    ensures HasTrip(cr, p, c, clock, flaw, threat, Attacks(cr, c))
  {
    AlgorithmThreats(cr, p, c, clock, if flaw.TakesUnsigned? && flaw.alg in NONES then IndexIn(NONES, flaw.alg) else 0);
    ListsAreInAttacks(cr, c);
    TripInAttacks(cr, p, c, clock, flaw, threat, AlgorithmAttacks(cr, c));
  }

  lemma HeaderListTrips(cr: Crypto, p: Policy, c: Context, clock: int, flaw: Flaw, threat: string)
    requires Matches(p, c) && ControlFits(c, p.skew) && Unforgeable(cr, c.trusted) && ExposesHeader(c, threat, flaw)
    ensures HasTrip(cr, p, c, clock, flaw, threat, Attacks(cr, c))
  {
    KeyThreats(cr, p, c, clock);
    PathThreats(cr, p, c, clock);
    ListsAreInAttacks(cr, c);
    TripInAttacks(cr, p, c, clock, flaw, threat, HeaderAttacks(cr, c));
  }

  lemma ClaimListTrips(cr: Crypto, p: Policy, c: Context, clock: int, flaw: Flaw, threat: string)
    requires Matches(p, c) && ControlFits(c, p.skew) && Unforgeable(cr, c.trusted) && ExposesClaims(threat, flaw)
    ensures HasTrip(cr, p, c, clock, flaw, threat, Attacks(cr, c))
  {
    var ts := ClaimAttacks(cr, c, BaseClaims(c));
    TimeThreats(cr, p, c, clock, ts);
    ExpiryThreat(cr, p, c, clock, ts);
    PartyThreats(cr, p, c, clock, ts);
    ListsAreInAttacks(cr, c);
    TripInAttacks(cr, p, c, clock, flaw, threat, ts);
  }

  lemma EncodingListTrips(cr: Crypto, p: Policy, c: Context, clock: int, flaw: Flaw, threat: string)
    requires Matches(p, c) && ControlFits(c, p.skew) && Unforgeable(cr, c.trusted) && ExposesEncoding(threat, flaw)
    ensures HasTrip(cr, p, c, clock, flaw, threat, Attacks(cr, c))
  {
    EncodingThreats(cr, p, c, clock);
    ListsAreInAttacks(cr, c);
    TripInAttacks(cr, p, c, clock, flaw, threat, EncodingAttacks(cr, c));
  }

  lemma ResourceListTrips(cr: Crypto, p: Policy, c: Context, clock: int, flaw: Flaw, threat: string)
    requires Matches(p, c) && ControlFits(c, p.skew) && Unforgeable(cr, c.trusted) && ExposesAudience(threat, flaw)
    ensures HasTrip(cr, p, c, clock, flaw, threat, Attacks(cr, c))
  {
    var ts := ResourceAttacks(cr, c, BaseClaims(c));
    ResourceThreats(cr, p, c, clock, ts);
    ListsAreInAttacks(cr, c);
    TripInAttacks(cr, p, c, clock, flaw, threat, ts);
  }

  lemma SomeListTrips(cr: Crypto, p: Policy, c: Context, clock: int, flaw: Flaw, threat: string)
    requires Matches(p, c) && ControlFits(c, p.skew) && Unforgeable(cr, c.trusted) && Exposes(c, threat, flaw)
    ensures HasTrip(cr, p, c, clock, flaw, threat, Attacks(cr, c))
  {
    if ExposesSignature(threat, flaw) {
      SignatureListTrips(cr, p, c, clock, flaw, threat);
    } else if ExposesAlgorithm(c, threat, flaw) {
      AlgorithmListTrips(cr, p, c, clock, flaw, threat);
    } else if ExposesHeader(c, threat, flaw) {
      HeaderListTrips(cr, p, c, clock, flaw, threat);
    } else if ExposesClaims(threat, flaw) {
      ClaimListTrips(cr, p, c, clock, flaw, threat);
    } else if ExposesEncoding(threat, flaw) {
      EncodingListTrips(cr, p, c, clock, flaw, threat);
    } else {
      ResourceListTrips(cr, p, c, clock, flaw, threat);
    }
  }

  function IndexIn<T(==)>(s: seq<T>, x: T): (i: nat)
    requires x in s
    ensures i < |s| && s[i] == x
  {
    if s[0] == x then 0 else 1 + IndexIn(s[1..], x)
  }
}
