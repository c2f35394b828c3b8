/** The generated attack tokens, and when the reference verifier gets all of them right. */
module AttackCorpus {
  import opened Prelude
  import opened Jose
  import opened Oracle

  const MINUTE: int := 60 * SECOND
  const HOUR: int := 60 * MINUTE

  const EVIL: string := "https://evil.keyway.test"
  const OTHER: string := "some-other-service"
  const ANOTHER: string := "and-another"
  const PASSTHROUGH: string := "https://passthrough.keyway.test/other-resource"
  const JKU: string := "https://attacker.keyway.test/jwks.json"
  const X5U: string := "https://attacker.keyway.test/cert.pem"
  const TRAVERSAL: string := "../../../../../../dev/null"
  const SIBLING: string := "https://sibling.keyway.test/api"

  datatype Context = Context(trusted: RSAKey, trustedPEM: Bytes, attacker: RSAKey,
                             issuer: string, audience: string, required: seq<string>, now: int)

  datatype Token = Token(threatID: string, name: string, jws: Compact, want: Verdict, selfContained: bool)

  /** Whole seconds, rounded down. */
  function Unix(t: int): int {
    t / SECOND
  }

  // ---- building tokens --------------------------------------------------------------------------

  function Registered(c: Context): Object {
    map["iss" := Str(c.issuer), "aud" := Str(c.audience), "sub" := Str("user-1"),
        "iat" := Num(Unix(c.now)), "nbf" := Num(Unix(c.now - MINUTE)), "exp" := Num(Unix(c.now + HOUR))]
  }

  function Granted(required: seq<string>): Object {
    map rc | rc in required :: Str("read")
  }

  function BaseClaims(c: Context): Object {
    Registered(c) + Granted(c.required)
  }

  lemma GrantOneMore(base: Object, required: seq<string>, i: nat)
    requires i < |required|
    ensures (base + Granted(required[..i]))[required[i] := Str("read")] == base + Granted(required[..i + 1])
  {
    assert required[..i + 1] == required[..i] + [required[i]];
  }

  method MakeBaseClaims(c: Context) returns (m: Object)
    ensures m == BaseClaims(c)
  {
    m := Registered(c);
    for i := 0 to |c.required|
      invariant m == Registered(c) + Granted(c.required[..i])
    {
      GrantOneMore(Registered(c), c.required, i);
      m := m[c.required[i] := Str("read")];
    }
    assert c.required[..|c.required|] == c.required;
  }

  /** A token signed by the trusted issuer. */
  function Sign(cr: Crypto, c: Context, claims: Object): Compact {
    var input := SigningInput(HeaderOf("RS256", map["kid" := Str("trusted")]), claims);
    Assemble(input, cr.rsa(c.trusted, input))
  }

  function Trusted(cr: Crypto, c: Context, threat: string, name: string, want: Verdict, claims: Object): Token {
    Token(threat, name, Sign(cr, c, claims), want, true)
  }

  /** A token with the base claims under a given header, signed in a given way. */
  function Forged(c: Context, threat: string, name: string, self: bool, header: Object, signer: Compact -> Bytes): Token {
    var input := SigningInput(header, BaseClaims(c));
    Token(threat, name, Assemble(input, signer(input)), Reject, self)
  }

  function EmptySig(input: Compact): Bytes {
    []
  }

  function ZeroSig(input: Compact): Bytes {
    seq(64, _ => 0)
  }

  // ---- the corpus -------------------------------------------------------------------------------

  function Control(cr: Crypto, c: Context): Token {
    Trusted(cr, c, "CONTROL", "valid_token", Accept, BaseClaims(c))
  }

  function Tampered(cr: Crypto, c: Context): seq<Token> {
    var t := Sign(cr, c, BaseClaims(c));
    if t[2].bytes == [] then []
    else [Token("SIG-02", "tampered_signature", t[2 := Raw(Flipped(t[2].bytes))], Reject, true)]
  }

  function SignatureAttacks(cr: Crypto, c: Context): seq<Token> {
    [Forged(c, "SIG-01", "alg_none", true, HeaderOf("none", map[]), EmptySig),
     Forged(c, "SIG-03", "empty_signature_rs256", true, HeaderOf("RS256", map[]), EmptySig)]
    + Tampered(cr, c)
  }

  function ConfusedHMAC(cr: Crypto, c: Context): seq<Token> {
    if c.trustedPEM == [] then []
    else [Forged(c, "ALG-01", "alg_confusion_rs_hs", true, HeaderOf("HS256", map[]),
                 (input: Compact) => cr.hmac(c.trustedPEM, input))]
  }

  const NONES: seq<string> := ["None", "NONE", "nOnE", "none "]

  function NoneVariant(c: Context, alg: string): Token {
    Forged(c, "ALG-03", "alg_none_variant_none", true, HeaderOf(alg, map[]), EmptySig)
  }

  function NoneVariants(c: Context): seq<Token> {
    Map(alg => NoneVariant(c, alg), NONES)
  }

  lemma NoneIsOther(i: nat)
    requires i < |NONES|
    ensures NONES[i] != "RS256"
  {
    assert NONES[i][0] != "RS256"[0];
  }

  function Psychic(c: Context): Token {
    Forged(c, "ALG-04", "psychic_signature_es256", true, HeaderOf("ES256", map[]), ZeroSig)
  }

  function AlgorithmVariants(c: Context): seq<Token> {
    NoneVariants(c) + [Psychic(c)]
  }

  function AlgorithmAttacks(cr: Crypto, c: Context): seq<Token> {
    ConfusedHMAC(cr, c) + AlgorithmVariants(c)
  }

  function AttackerSigned(cr: Crypto, c: Context, threat: string, name: string, self: bool, header: Object): Token {
    Forged(c, threat, name, self, header, (input: Compact) => cr.rsa(c.attacker, input))
  }

  function HeaderAttacks(cr: Crypto, c: Context): seq<Token> {
    [AttackerSigned(cr, c, "HDR-03", "embedded_jwk", true, HeaderOf("RS256", map["jwk" := Jwk(c.attacker)])),
     AttackerSigned(cr, c, "HDR-01", "jku_injection", false,
                    HeaderOf("RS256", map["kid" := Str("attacker"), "jku" := Str(JKU)])),
     AttackerSigned(cr, c, "HDR-02", "x5u_injection", false, HeaderOf("RS256", map["x5u" := Str(X5U)])),
     Forged(c, "HDR-05", "kid_path_traversal", true,
            HeaderOf("HS256", map["kid" := Str(TRAVERSAL)]), (input: Compact) => cr.hmac([], input))]
  }

  function NotYetValid(c: Context, base: Object): Object {
    base["nbf" := Num(Unix(c.now + HOUR))]["exp" := Num(Unix(c.now + 2 * HOUR))]
  }

  function ClaimAttacks(cr: Crypto, c: Context, base: Object): seq<Token> {
    [Trusted(cr, c, "CLM-01", "expired", Reject, base["exp" := Num(Unix(c.now - HOUR))]),
     Trusted(cr, c, "CLM-02", "not_yet_valid", Reject, NotYetValid(c, base)),
     Trusted(cr, c, "CLM-03", "wrong_issuer", Reject, base["iss" := Str(EVIL)]),
     Trusted(cr, c, "CLM-04", "wrong_audience", Reject, base["aud" := Str(OTHER)]),
     Trusted(cr, c, "CLM-06", "aud_array_confusion", Reject, base["aud" := Arr([Str(OTHER), Str(ANOTHER)])]),
     Trusted(cr, c, "CLM-08", "missing_exp", Reject, base - {"exp"})]
  }

  function EncodingAttacks(cr: Crypto, c: Context): seq<Token> {
    var t := Sign(cr, c, BaseClaims(c));
    [Token("ENC-01", "extra_segments", t + [Raw([0x65, 0x78, 0x74, 0x72, 0x61])], Reject, true),
     Token("ENC-02", "non_base64url", t[1 := Padded(t[1])], Reject, true)]
  }

  function ResourceAttacks(cr: Crypto, c: Context, base: Object): seq<Token> {
    [Trusted(cr, c, "MCP-01", "resource_passthrough", Reject, base["aud" := Str(PASSTHROUGH)]),
     Trusted(cr, c, "MCP-02", "unbound_audience", Reject, base - {"aud"}),
     Trusted(cr, c, "DEL-02", "sibling_resource", Reject, base["aud" := Str(SIBLING)])]
  }

  function Attacks(cr: Crypto, c: Context): seq<Token> {
    SignatureAttacks(cr, c) + AlgorithmAttacks(cr, c) + HeaderAttacks(cr, c)
    + ClaimAttacks(cr, c, BaseClaims(c)) + EncodingAttacks(cr, c) + ResourceAttacks(cr, c, BaseClaims(c))
  }

  function Corpus(cr: Crypto, c: Context): seq<Token> {
    [Control(cr, c)] + Attacks(cr, c)
  }

  method MakeClaimAttacks(cr: Crypto, c: Context, base: Object) returns (out: seq<Token>)
    ensures out == ClaimAttacks(cr, c, base)
  {
    var expired := base["exp" := Num(Unix(c.now - HOUR))];
    out := [Trusted(cr, c, "CLM-01", "expired", Reject, expired)];
    var future := base["nbf" := Num(Unix(c.now + HOUR))];
    future := future["exp" := Num(Unix(c.now + 2 * HOUR))];
    out := out + [Trusted(cr, c, "CLM-02", "not_yet_valid", Reject, future)];
    var wrongIss := base["iss" := Str(EVIL)];
    out := out + [Trusted(cr, c, "CLM-03", "wrong_issuer", Reject, wrongIss)];
    var wrongAud := base["aud" := Str(OTHER)];
    out := out + [Trusted(cr, c, "CLM-04", "wrong_audience", Reject, wrongAud)];
    var audArr := base["aud" := Arr([Str(OTHER), Str(ANOTHER)])];
    out := out + [Trusted(cr, c, "CLM-06", "aud_array_confusion", Reject, audArr)];
    var noExp := base - {"exp"};
    out := out + [Trusted(cr, c, "CLM-08", "missing_exp", Reject, noExp)];
  }

  method MakeCorpus(cr: Crypto, c: Context) returns (out: seq<Token>)
    ensures out == Corpus(cr, c)
  {
    var base := MakeBaseClaims(c);
    out := [Control(cr, c)];
    out := out + SignatureAttacks(cr, c);
    out := out + AlgorithmAttacks(cr, c);
    out := out + HeaderAttacks(cr, c);
    var bad := MakeClaimAttacks(cr, c, base);
    out := out + bad;
    out := out + EncodingAttacks(cr, c);
    out := out + ResourceAttacks(cr, c, base);
  }

  // ---- evaluating -----------------------------------------------------------------------------

  datatype Finding = Finding(token: Token, actual: Verdict)

  function Findings(corpus: seq<Token>, verify: Compact -> Verdict): seq<Finding> {
    if corpus == [] then [] else
      var t := corpus[|corpus| - 1];
      Findings(corpus[..|corpus| - 1], verify) + if verify(t.jws) != t.want then [Finding(t, verify(t.jws))] else []
  }

  /** A verifier that fails to decide stops the evaluation with its first error. */
  method Evaluate<E>(corpus: seq<Token>, verify: Compact -> Result<Verdict, E>) returns (r: Result<seq<Finding>, E>)
    ensures r.Ok? <==> forall t :: t in corpus ==> verify(t.jws).Ok?
    ensures r.Ok? ==> r.value == Findings(corpus, j => if verify(j).Ok? then verify(j).value else Reject)
    ensures r.Err? ==> exists i :: 0 <= i < |corpus| && verify(corpus[i].jws) == Err(r.error)
                                   && forall j :: 0 <= j < i ==> verify(corpus[j].jws).Ok?
  {
    ghost var decide := j => if verify(j).Ok? then verify(j).value else Reject;
    var findings := [];
    for i := 0 to |corpus|
      invariant forall j :: 0 <= j < i ==> verify(corpus[j].jws).Ok?
      invariant findings == Findings(corpus[..i], decide)
    {
      var t := corpus[i];
      assert corpus[..i + 1][..i] == corpus[..i];
      var actual := verify(t.jws);
      if actual.Err? {
        assert t in corpus;
        return Err(actual.error);
      }
      if actual.value != t.want {
        findings := findings + [Finding(t, actual.value)];
      }
    }
    assert corpus[..|corpus|] == corpus;
    return Ok(findings);
  }

  predicate Right(t: Token, verify: Compact -> Verdict) {
    verify(t.jws) == t.want
  }

  ghost predicate AllRight(corpus: seq<Token>, verify: Compact -> Verdict) {
    forall t :: t in corpus ==> Right(t, verify)
  }

  lemma {:induction false} NoFindingsIff(corpus: seq<Token>, verify: Compact -> Verdict)
    ensures Findings(corpus, verify) == [] <==> AllRight(corpus, verify)
  {
    if corpus != [] {
      var init, last := corpus[..|corpus| - 1], corpus[|corpus| - 1];
      NoFindingsIff(init, verify);
      assert corpus == init + [last];
      AllRightJoins(init, [last], verify);
      assert last in [last];
    }
  }

  // ---- the oracle on the corpus -----------------------------------------------------------------

  /** The policy of a verifier that expects exactly what the context makes. */
  ghost predicate Matches(p: Policy, c: Context) {
    p.trusted == c.trusted && p.issuer == c.issuer && p.audience == c.audience && p.required == c.required
      && p.now == Some(c.now)
  }

  /** Nanoseconds into the current second. */
  function Fraction(c: Context): (f: int)
    ensures 0 <= f < SECOND && Unix(c.now) * SECOND == c.now - f
  {
    c.now % SECOND
  }

  lemma UnixShifts(t: int, k: int)
    ensures Unix(t + k * SECOND) == Unix(t) + k
  {
  }

  lemma TrustedIsJudgedByClaims(cr: Crypto, p: Policy, c: Context, clock: int, claims: Object)
    requires p.trusted == c.trusted
    ensures Verify(cr, p, clock, Sign(cr, c, claims)) == if ValidClaims(p, clock, claims) then Accept else Reject
  {
    var t := Sign(cr, c, claims);
    assert t[..2] == SigningInput(HeaderOf("RS256", map["kid" := Str("trusted")]), claims);
  }

  /** A forged token is rejected for its algorithm or for its signature. */
  lemma ForgedIsRejected(cr: Crypto, p: Policy, c: Context, clock: int, header: Object, claims: Object, sig: Bytes)
    requires Claim(header, "alg") != Str("RS256") || sig != cr.rsa(p.trusted, SigningInput(header, claims))
    ensures Verify(cr, p, clock, Assemble(SigningInput(header, claims), sig)) == Reject
  {
    var t := Assemble(SigningInput(header, claims), sig);
    assert t[..2] == SigningInput(header, claims);
  }

  /** When the control is accepted. */
  ghost predicate ControlFits(c: Context, skew: int) {
    && "exp" !in c.required && skew >= Fraction(c) - HOUR
    && ("nbf" in c.required || skew >= -MINUTE - Fraction(c))
    && (c.issuer == "" || "iss" !in c.required || c.issuer == "read")
    && (c.audience == "" || "aud" !in c.required || c.audience == "read")
  }

  lemma BaseTimes(c: Context)
    ensures Unix(c.now + HOUR) * SECOND == c.now - Fraction(c) + HOUR
    ensures Unix(c.now + 2 * HOUR) * SECOND == c.now - Fraction(c) + 2 * HOUR
    ensures Unix(c.now - HOUR) * SECOND == c.now - Fraction(c) - HOUR
    ensures Unix(c.now - MINUTE) * SECOND == c.now - Fraction(c) - MINUTE
  {
    UnixShifts(c.now, 3600);
    UnixShifts(c.now, 7200);
    UnixShifts(c.now, -3600);
    UnixShifts(c.now, -60);
  }

  lemma BaseIsValidIff(p: Policy, c: Context, clock: int)
    requires Matches(p, c)
    ensures ValidClaims(p, clock, BaseClaims(c)) <==> ControlFits(c, p.skew)
    ensures HasRequired(BaseClaims(c), c.required)
  {
    BaseTimes(c);
  }

  /** When every bad claim is caught. */
  ghost predicate ClaimsFit(c: Context, skew: int) {
    && skew < HOUR - Fraction(c)
    && c.issuer != "" && c.issuer != EVIL
    && c.audience !in {"", OTHER, ANOTHER}
  }

  lemma ExpiredIff(p: Policy, c: Context, clock: int)
    requires Matches(p, c) && ControlFits(c, p.skew)
    ensures ValidClaims(p, clock, BaseClaims(c)["exp" := Num(Unix(c.now - HOUR))]) <==> p.skew >= HOUR + Fraction(c)
  {
    BaseTimes(c);
    BaseIsValidIff(p, c, clock);
  }

  lemma NotYetValidIff(p: Policy, c: Context, clock: int)
    requires Matches(p, c) && ControlFits(c, p.skew)
    ensures ValidClaims(p, clock, NotYetValid(c, BaseClaims(c))) <==> p.skew >= HOUR - Fraction(c)
  {
    BaseTimes(c);
    BaseIsValidIff(p, c, clock);
  }

  lemma WrongIssuerIff(p: Policy, c: Context, clock: int)
    requires Matches(p, c) && ControlFits(c, p.skew)
    ensures ValidClaims(p, clock, BaseClaims(c)["iss" := Str(EVIL)]) <==> c.issuer == "" || c.issuer == EVIL
  {
    BaseIsValidIff(p, c, clock);
  }

  lemma OtherAudienceIff(p: Policy, c: Context, clock: int, aud: Value)
    requires Matches(p, c) && ControlFits(c, p.skew) && aud != Null && aud != Str("")
    ensures ValidClaims(p, clock, BaseClaims(c)["aud" := aud]) <==> c.audience == "" || AudienceContains(aud, c.audience)
  {
    BaseIsValidIff(p, c, clock);
  }

  lemma UnboundIsInvalid(p: Policy, c: Context, clock: int)
    requires Matches(p, c) && c.audience != ""
    ensures !ValidClaims(p, clock, BaseClaims(c) - {"aud"})
  {
  }

  function OracleOf(cr: Crypto, p: Policy, clock: int): Compact -> Verdict {
    (t: Compact) => Verify(cr, p, clock, t)
  }

  // What the corpus needs of a verifier, without the rest of the verifier.

  ghost predicate PinsAlgorithm(verify: Compact -> Verdict) {
    forall header, claims, sig :: Claim(header, "alg") != Str("RS256") ==>
      verify(Assemble(SigningInput(header, claims), sig)) == Reject
  }

  ghost predicate PinsKey(cr: Crypto, key: RSAKey, verify: Compact -> Verdict) {
    forall header, claims, sig :: sig != cr.rsa(key, SigningInput(header, claims)) ==>
      verify(Assemble(SigningInput(header, claims), sig)) == Reject
  }

  /** Of the tokens the trusted issuer signs, those with good claims are accepted. */
  ghost predicate JudgesClaims(cr: Crypto, c: Context, verify: Compact -> Verdict, good: Object -> bool) {
    forall claims :: verify(Sign(cr, c, claims)) == if good(claims) then Accept else Reject
  }

  lemma OraclePins(cr: Crypto, p: Policy, c: Context, clock: int)
    requires p.trusted == c.trusted
    ensures PinsAlgorithm(OracleOf(cr, p, clock)) && PinsKey(cr, c.trusted, OracleOf(cr, p, clock))
    ensures JudgesClaims(cr, c, OracleOf(cr, p, clock), (claims: Object) => ValidClaims(p, clock, claims))
  {
    var oracle := OracleOf(cr, p, clock);
    forall header, claims, sig | Claim(header, "alg") != Str("RS256") || sig != cr.rsa(c.trusted, SigningInput(header, claims))
      ensures oracle(Assemble(SigningInput(header, claims), sig)) == Reject
    {
      ForgedIsRejected(cr, p, c, clock, header, claims, sig);
    }
    forall claims
      ensures oracle(Sign(cr, c, claims)) == if ValidClaims(p, clock, claims) then Accept else Reject
    {
      TrustedIsJudgedByClaims(cr, p, c, clock, claims);
    }
  }

  lemma ForgedIsRight(cr: Crypto, c: Context, verify: Compact -> Verdict, t: Token, header: Object, signer: Compact -> Bytes)
    requires PinsAlgorithm(verify) && PinsKey(cr, c.trusted, verify)
    requires t.want == Reject && t.jws == Forged(c, t.threatID, t.name, t.selfContained, header, signer).jws
    requires Claim(header, "alg") != Str("RS256")
             || signer(SigningInput(header, BaseClaims(c))) != cr.rsa(c.trusted, SigningInput(header, BaseClaims(c)))
    ensures Right(t, verify)
  {
  }

  lemma SignatureAttacksFail(cr: Crypto, c: Context, verify: Compact -> Verdict)
    requires PinsAlgorithm(verify) && PinsKey(cr, c.trusted, verify) && Unforgeable(cr, c.trusted)
    ensures AllRight(SignatureAttacks(cr, c), verify)
  {
    var attacks := SignatureAttacks(cr, c);
    ForgedIsRight(cr, c, verify, attacks[0], HeaderOf("none", map[]), EmptySig);
    ForgedIsRight(cr, c, verify, attacks[1], HeaderOf("RS256", map[]), EmptySig);
    TamperedIsRight(cr, c, verify, BaseClaims(c));
  }

  lemma TamperedIsRight(cr: Crypto, c: Context, verify: Compact -> Verdict, base: Object)
    requires PinsKey(cr, c.trusted, verify) && Unforgeable(cr, c.trusted)
    ensures var t := Sign(cr, c, base); t[2].bytes != [] && verify(t[2 := Raw(Flipped(t[2].bytes))]) == Reject
  {
    var header := HeaderOf("RS256", map["kid" := Str("trusted")]);
    var sig := cr.rsa(c.trusted, SigningInput(header, base));
    assert Sign(cr, c, base)[2 := Raw(Flipped(sig))] == Assemble(SigningInput(header, base), Flipped(sig));
  }

  lemma ConfusedHMACFails(cr: Crypto, c: Context, verify: Compact -> Verdict)
    requires PinsAlgorithm(verify) && PinsKey(cr, c.trusted, verify)
    ensures AllRight(ConfusedHMAC(cr, c), verify)
  {
    var attacks := ConfusedHMAC(cr, c);
    if attacks != [] {
      ForgedIsRight(cr, c, verify, attacks[0], HeaderOf("HS256", map[]), (input: Compact) => cr.hmac(c.trustedPEM, input));
    }
  }

  lemma OtherAlgorithmIsRight(c: Context, verify: Compact -> Verdict, t: Token, alg: string, extra: Object, signer: Compact -> Bytes)
    requires PinsAlgorithm(verify) && alg != "RS256" && "alg" !in extra
    requires t.want == Reject && t.jws == Forged(c, t.threatID, t.name, t.selfContained, HeaderOf(alg, extra), signer).jws
    ensures AllRight([t], verify)
  {
    assert Claim(HeaderOf(alg, extra), "alg") == Str(alg);
    assert Right(t, verify);
  }

  lemma AttackerIsRight(cr: Crypto, c: Context, verify: Compact -> Verdict, t: Token, header: Object)
    requires PinsKey(cr, c.trusted, verify) && Unforgeable(cr, c.trusted) && c.attacker != c.trusted
    requires t.want == Reject && t.jws == AttackerSigned(cr, c, t.threatID, t.name, t.selfContained, header).jws
    ensures AllRight([t], verify)
  {
    assert Right(t, verify);
  }

  lemma NoneVariantsFail(c: Context, verify: Compact -> Verdict)
    requires PinsAlgorithm(verify)
    ensures AllRight(NoneVariants(c), verify)
  {
    forall t | t in NoneVariants(c)
      ensures Right(t, verify)
    {
      var i: nat :| i < |NONES| && NoneVariants(c)[i] == t;
      NoneIsOther(i);
      OtherAlgorithmIsRight(c, verify, t, NONES[i], map[], EmptySig);
      assert t in [t];
    }
  }

  lemma FourAreRight(ts: seq<Token>, verify: Compact -> Verdict)
    requires |ts| == 4 && forall i :: 0 <= i < 4 ==> AllRight([ts[i]], verify)
    ensures AllRight(ts, verify)
  {
    forall t | t in ts
      ensures Right(t, verify)
    {
      var i :| 0 <= i < 4 && ts[i] == t;
      assert t in [ts[i]];
    }
  }

  lemma VariantsFail(cr: Crypto, c: Context, verify: Compact -> Verdict)
    requires PinsAlgorithm(verify)
    ensures AllRight(AlgorithmVariants(c), verify)
  {
    NoneVariantsFail(c, verify);
    OtherAlgorithmIsRight(c, verify, Psychic(c), "ES256", map[], ZeroSig);
    AllRightJoins(NoneVariants(c), [Psychic(c)], verify);
  }

  lemma HeaderAttacksFail(cr: Crypto, c: Context, verify: Compact -> Verdict)
    requires PinsAlgorithm(verify) && PinsKey(cr, c.trusted, verify) && Unforgeable(cr, c.trusted) && c.attacker != c.trusted
    ensures AllRight(HeaderAttacks(cr, c), verify)
  {
    var attacks := HeaderAttacks(cr, c);
    AttackerIsRight(cr, c, verify, attacks[0], HeaderOf("RS256", map["jwk" := Jwk(c.attacker)]));
    AttackerIsRight(cr, c, verify, attacks[1], HeaderOf("RS256", map["kid" := Str("attacker"), "jku" := Str(JKU)]));
    AttackerIsRight(cr, c, verify, attacks[2], HeaderOf("RS256", map["x5u" := Str(X5U)]));
    OtherAlgorithmIsRight(c, verify, attacks[3], "HS256", map["kid" := Str(TRAVERSAL)], (input: Compact) => cr.hmac([], input));
    FourAreRight(attacks, verify);
  }

  /** A verifier that pins algorithm and key rejects every forgery. */
  lemma ForgeriesFail(cr: Crypto, c: Context, verify: Compact -> Verdict)
    requires PinsAlgorithm(verify) && PinsKey(cr, c.trusted, verify) && Unforgeable(cr, c.trusted) && c.attacker != c.trusted
    ensures AllRight(SignatureAttacks(cr, c), verify) && AllRight(AlgorithmAttacks(cr, c), verify)
    ensures AllRight(HeaderAttacks(cr, c), verify)
  {
    SignatureAttacksFail(cr, c, verify);
    ConfusedHMACFails(cr, c, verify);
    VariantsFail(cr, c, verify);
    AllRightJoins(ConfusedHMAC(cr, c), AlgorithmVariants(c), verify);
    HeaderAttacksFail(cr, c, verify);
  }

  lemma EncodingAttacksFail(cr: Crypto, p: Policy, c: Context, clock: int)
    ensures AllRight(EncodingAttacks(cr, c), OracleOf(cr, p, clock))
  {
  }

  /** `ts` are tokens to reject that the trusted issuer signs over these claims. */
  ghost predicate SignsBad(cr: Crypto, c: Context, ts: seq<Token>, bad: seq<Object>) {
    |ts| == |bad| && forall i :: 0 <= i < |ts| ==> ts[i].jws == Sign(cr, c, bad[i]) && ts[i].want == Reject
  }

  lemma BadClaimsRightIff(cr: Crypto, c: Context, verify: Compact -> Verdict, good: Object -> bool,
                          ts: seq<Token>, bad: seq<Object>)
    requires JudgesClaims(cr, c, verify, good) && SignsBad(cr, c, ts, bad)
    ensures AllRight(ts, verify) <==> forall i :: 0 <= i < |bad| ==> !good(bad[i])
  {
    forall i | 0 <= i < |ts|
      ensures Right(ts[i], verify) <==> !good(bad[i])
    {
      assert verify(Sign(cr, c, bad[i])) == if good(bad[i]) then Accept else Reject;
    }
    assert forall i :: 0 <= i < |ts| ==> ts[i] in ts;
  }

  /** The claims of the claim attacks, in order. */
  function BadClaims(c: Context, base: Object): seq<Object> {
    [base["exp" := Num(Unix(c.now - HOUR))], NotYetValid(c, base), base["iss" := Str(EVIL)], base["aud" := Str(OTHER)],
     base["aud" := Arr([Str(OTHER), Str(ANOTHER)])], base - {"exp"}]
  }

  lemma ClaimAttacksSign(cr: Crypto, c: Context, base: Object)
    ensures SignsBad(cr, c, ClaimAttacks(cr, c, base), BadClaims(c, base))
  {
  }

  function BadAudiences(base: Object): seq<Object> {
    [base["aud" := Str(PASSTHROUGH)], base - {"aud"}, base["aud" := Str(SIBLING)]]
  }

  lemma ResourceAttacksSign(cr: Crypto, c: Context, base: Object)
    ensures SignsBad(cr, c, ResourceAttacks(cr, c, base), BadAudiences(base))
  {
  }

  lemma ClaimListIff(cr: Crypto, c: Context, verify: Compact -> Verdict, good: Object -> bool, base: Object)
    requires JudgesClaims(cr, c, verify, good)
    ensures AllRight(ClaimAttacks(cr, c, base), verify) <==>
              && !good(base["exp" := Num(Unix(c.now - HOUR))])
              && !good(NotYetValid(c, base))
              && !good(base["iss" := Str(EVIL)])
              && !good(base["aud" := Str(OTHER)])
              && !good(base["aud" := Arr([Str(OTHER), Str(ANOTHER)])])
              && !good(base - {"exp"})
  {
    ClaimAttacksSign(cr, c, base);
    BadClaimsRightIff(cr, c, verify, good, ClaimAttacks(cr, c, base), BadClaims(c, base));
    SixHold(BadClaims(c, base), (claims: Object) => !good(claims));
  }

  lemma SixHold(s: seq<Object>, p: Object -> bool)
    requires |s| == 6
    ensures (forall i :: 0 <= i < 6 ==> p(s[i])) <==> p(s[0]) && p(s[1]) && p(s[2]) && p(s[3]) && p(s[4]) && p(s[5])
  {
  }

  lemma ThreeHold(s: seq<Object>, p: Object -> bool)
    requires |s| == 3
    ensures (forall i :: 0 <= i < 3 ==> p(s[i])) <==> p(s[0]) && p(s[1]) && p(s[2])
  {
  }

  lemma ClaimAttacksFailIff(cr: Crypto, p: Policy, c: Context, clock: int, base: Object)
    requires Matches(p, c) && ControlFits(c, p.skew) && base == BaseClaims(c)
    ensures AllRight(ClaimAttacks(cr, c, base), OracleOf(cr, p, clock)) <==> ClaimsFit(c, p.skew)
  {
    ExpiredIff(p, c, clock);
    NotYetValidIff(p, c, clock);
    WrongIssuerIff(p, c, clock);
    OtherAudienceIff(p, c, clock, Str(OTHER));
    OtherAudienceIff(p, c, clock, Arr([Str(OTHER), Str(ANOTHER)]));
    OraclePins(cr, p, c, clock);
    ClaimListIff(cr, c, OracleOf(cr, p, clock), (claims: Object) => ValidClaims(p, clock, claims), base);
    assert !Unexpired(base - {"exp"}, c.now, p.skew);
  }

  lemma ResourceListIff(cr: Crypto, c: Context, verify: Compact -> Verdict, good: Object -> bool, base: Object)
    requires JudgesClaims(cr, c, verify, good)
    ensures AllRight(ResourceAttacks(cr, c, base), verify) <==>
              && !good(base["aud" := Str(PASSTHROUGH)])
              && !good(base - {"aud"})
              && !good(base["aud" := Str(SIBLING)])
  {
    ResourceAttacksSign(cr, c, base);
    BadClaimsRightIff(cr, c, verify, good, ResourceAttacks(cr, c, base), BadAudiences(base));
    ThreeHold(BadAudiences(base), (claims: Object) => !good(claims));
  }

  lemma ResourceAttacksFailIff(cr: Crypto, p: Policy, c: Context, clock: int, base: Object)
    requires Matches(p, c) && ControlFits(c, p.skew) && base == BaseClaims(c)
    ensures AllRight(ResourceAttacks(cr, c, base), OracleOf(cr, p, clock)) <==> c.audience !in {"", PASSTHROUGH, SIBLING}
  {
    OtherAudienceIff(p, c, clock, Str(PASSTHROUGH));
    OtherAudienceIff(p, c, clock, Str(SIBLING));
    if c.audience != "" {
      UnboundIsInvalid(p, c, clock);
    }
    OraclePins(cr, p, c, clock);
    ResourceListIff(cr, c, OracleOf(cr, p, clock), (claims: Object) => ValidClaims(p, clock, claims), base);
  }

  lemma AllRightJoins(a: seq<Token>, b: seq<Token>, verify: Compact -> Verdict)
    ensures AllRight(a + b, verify) <==> AllRight(a, verify) && AllRight(b, verify)
  {
    assert forall t :: t in a + b <==> t in a || t in b;
  }

  lemma ControlIsRightIff(cr: Crypto, p: Policy, c: Context, clock: int)
    requires Matches(p, c)
    ensures AllRight([Control(cr, c)], OracleOf(cr, p, clock)) <==> ControlFits(c, p.skew)
  {
    TrustedIsJudgedByClaims(cr, p, c, clock, BaseClaims(c));
    BaseIsValidIff(p, c, clock);
    assert Control(cr, c) in [Control(cr, c)];
  }

  /** The verifier gets all attacks right exactly when it gets each list of them right. */
  lemma AttacksAreRightIff(cr: Crypto, c: Context, verify: Compact -> Verdict)
    ensures AllRight(Attacks(cr, c), verify) <==>
              && AllRight(SignatureAttacks(cr, c), verify) && AllRight(AlgorithmAttacks(cr, c), verify)
              && AllRight(HeaderAttacks(cr, c), verify) && AllRight(ClaimAttacks(cr, c, BaseClaims(c)), verify)
              && AllRight(EncodingAttacks(cr, c), verify) && AllRight(ResourceAttacks(cr, c, BaseClaims(c)), verify)
  {
    var s2 := SignatureAttacks(cr, c) + AlgorithmAttacks(cr, c);
    var s3 := s2 + HeaderAttacks(cr, c);
    var s4 := s3 + ClaimAttacks(cr, c, BaseClaims(c));
    var s5 := s4 + EncodingAttacks(cr, c);
    AllRightJoins(SignatureAttacks(cr, c), AlgorithmAttacks(cr, c), verify);
    AllRightJoins(s2, HeaderAttacks(cr, c), verify);
    AllRightJoins(s3, ClaimAttacks(cr, c, BaseClaims(c)), verify);
    AllRightJoins(s4, EncodingAttacks(cr, c), verify);
    AllRightJoins(s5, ResourceAttacks(cr, c, BaseClaims(c)), verify);
  }

  /** The corpus validates itself, leaving no finding for the reference verifier, exactly when
      the required claims do not spoil the registered ones, issuer and audience are set and
      none of the attack values, and the tolerated skew stays below an hour less the fraction
      of the second at which the tokens were made. */
  lemma CorpusIsValidIff(cr: Crypto, p: Policy, c: Context, clock: int)
    requires Matches(p, c) && Unforgeable(cr, c.trusted) && c.attacker != c.trusted
    ensures Findings(Corpus(cr, c), OracleOf(cr, p, clock)) == [] <==>
              ControlFits(c, p.skew) && ClaimsFit(c, p.skew) && c.audience !in {PASSTHROUGH, SIBLING}
  {
    var oracle := OracleOf(cr, p, clock);
    NoFindingsIff(Corpus(cr, c), oracle);
    AllRightJoins([Control(cr, c)], Attacks(cr, c), oracle);
    AttacksAreRightIff(cr, c, oracle);
    OraclePins(cr, p, c, clock);
    ForgeriesFail(cr, c, oracle);
    EncodingAttacksFail(cr, p, c, clock);
    ControlIsRightIff(cr, p, c, clock);
    if ControlFits(c, p.skew) {
      ClaimAttacksFailIff(cr, p, c, clock, BaseClaims(c));
      ResourceAttacksFailIff(cr, p, c, clock, BaseClaims(c));
    }
  }

  // ---- what the corpus asks for ------------------------------------------------------------------

  ghost predicate AllReject(ts: seq<Token>) {
    forall t :: t in ts ==> t.want == Reject
  }

  lemma AttacksWantRejection(cr: Crypto, c: Context)
    ensures AllReject(Attacks(cr, c))
  {
    assert AllReject(SignatureAttacks(cr, c)) && AllReject(HeaderAttacks(cr, c)) && AllReject(EncodingAttacks(cr, c));
    AlgorithmsWantRejection(cr, c);
    ClaimAttacksSign(cr, c, BaseClaims(c));
    ResourceAttacksSign(cr, c, BaseClaims(c));
    SixReject(SignatureAttacks(cr, c), AlgorithmAttacks(cr, c), HeaderAttacks(cr, c),
              ClaimAttacks(cr, c, BaseClaims(c)), EncodingAttacks(cr, c), ResourceAttacks(cr, c, BaseClaims(c)));
  }

  lemma AlgorithmsWantRejection(cr: Crypto, c: Context)
    ensures AllReject(AlgorithmAttacks(cr, c))
  {
    assert AllReject(ConfusedHMAC(cr, c)) && AllReject(NoneVariants(c)) && AllReject([Psychic(c)]);
    assert AllReject(AlgorithmVariants(c));
  }

  lemma SixReject(a: seq<Token>, b: seq<Token>, c: seq<Token>, d: seq<Token>, e: seq<Token>, f: seq<Token>)
    requires AllReject(a) && AllReject(b) && AllReject(c) && AllReject(d) && AllReject(e) && AllReject(f)
    ensures AllReject(a + b + c + d + e + f)
  {
  }

  /** None of `ts` is the token `control`. */
  ghost predicate AllOther(ts: seq<Token>, control: Compact) {
    forall t :: t in ts ==> t.jws != control
  }

  lemma AllOtherJoins(a: seq<Token>, b: seq<Token>, control: Compact)
    ensures AllOther(a + b, control) <==> AllOther(a, control) && AllOther(b, control)
  {
    assert forall t :: t in a + b <==> t in a || t in b;
  }

  ghost predicate OtherHeader(header: Object) {
    header != HeaderOf("RS256", map["kid" := Str("trusted")])
  }

  lemma ForgedIsOther(cr: Crypto, c: Context, header: Object, t: Token, signer: Compact -> Bytes)
    requires OtherHeader(header) && t.jws == Forged(c, t.threatID, t.name, t.selfContained, header, signer).jws
    ensures t.jws != Control(cr, c).jws
  {
    var control := Control(cr, c).jws;
    assert t.jws[0] == Json(header) && control[0] == Json(HeaderOf("RS256", map["kid" := Str("trusted")]));
  }

  lemma OtherAlgorithm(cr: Crypto, c: Context, t: Token, alg: string, extra: Object, signer: Compact -> Bytes)
    requires alg != "RS256" && "alg" !in extra
    requires t.jws == Forged(c, t.threatID, t.name, t.selfContained, HeaderOf(alg, extra), signer).jws
    ensures t.jws != Control(cr, c).jws
  {
    assert HeaderOf(alg, extra)["alg"] == Str(alg);
    assert HeaderOf("RS256", map["kid" := Str("trusted")])["alg"] == Str("RS256");
    ForgedIsOther(cr, c, HeaderOf(alg, extra), t, signer);
  }

  lemma OtherKid(cr: Crypto, c: Context, t: Token, extra: Object, signer: Compact -> Bytes)
    requires "kid" in extra ==> extra["kid"] != Str("trusted")
    requires t.jws == Forged(c, t.threatID, t.name, t.selfContained, HeaderOf("RS256", extra), signer).jws
    ensures t.jws != Control(cr, c).jws
  {
    var header := HeaderOf("RS256", extra);
    assert HeaderOf("RS256", map["kid" := Str("trusted")])["kid"] == Str("trusted");
    assert "kid" in header ==> header["kid"] == extra["kid"];
    ForgedIsOther(cr, c, header, t, signer);
  }

  lemma SignatureAttacksAreOther(cr: Crypto, c: Context)
    ensures AllOther(SignatureAttacks(cr, c), Control(cr, c).jws)
  {
    var attacks := SignatureAttacks(cr, c);
    OtherAlgorithm(cr, c, attacks[0], "none", map[], EmptySig);
    OtherKid(cr, c, attacks[1], map[], EmptySig);
    TamperedIsOther(cr, c);
    AllOtherJoins([attacks[0], attacks[1]], Tampered(cr, c), Control(cr, c).jws);
  }

  lemma TamperedIsOther(cr: Crypto, c: Context)
    ensures AllOther(Tampered(cr, c), Control(cr, c).jws)
  {
    var t := Control(cr, c).jws;
    if t[2].bytes != [] {
      assert t[2 := Raw(Flipped(t[2].bytes))][2] != t[2];
    }
  }

  lemma AlgorithmAttacksAreOther(cr: Crypto, c: Context)
    ensures AllOther(AlgorithmAttacks(cr, c), Control(cr, c).jws)
  {
    if c.trustedPEM != [] {
      OtherAlgorithm(cr, c, ConfusedHMAC(cr, c)[0], "HS256", map[], (input: Compact) => cr.hmac(c.trustedPEM, input));
    }
    VariantsAreOther(cr, c);
    AllOtherJoins(ConfusedHMAC(cr, c), AlgorithmVariants(c), Control(cr, c).jws);
  }

  lemma NoneVariantsAreOther(cr: Crypto, c: Context)
    ensures AllOther(NoneVariants(c), Control(cr, c).jws)
  {
    forall t | t in NoneVariants(c)
      ensures t.jws != Control(cr, c).jws
    {
      var i: nat :| i < |NONES| && NoneVariants(c)[i] == t;
      NoneIsOther(i);
      OtherAlgorithm(cr, c, t, NONES[i], map[], EmptySig);
    }
  }

  lemma VariantsAreOther(cr: Crypto, c: Context)
    ensures AllOther(AlgorithmVariants(c), Control(cr, c).jws)
  {
    NoneVariantsAreOther(cr, c);
    OtherAlgorithm(cr, c, Psychic(c), "ES256", map[], ZeroSig);
    AllOtherJoins(NoneVariants(c), [Psychic(c)], Control(cr, c).jws);
  }

  lemma HeaderAttacksAreOther(cr: Crypto, c: Context)
    ensures AllOther(HeaderAttacks(cr, c), Control(cr, c).jws)
  {
    var attacks := HeaderAttacks(cr, c);
    var attacker := (input: Compact) => cr.rsa(c.attacker, input);
    OtherKid(cr, c, attacks[0], map["jwk" := Jwk(c.attacker)], attacker);
    OtherKid(cr, c, attacks[1], map["kid" := Str("attacker"), "jku" := Str(JKU)], attacker);
    OtherKid(cr, c, attacks[2], map["x5u" := Str(X5U)], attacker);
    OtherAlgorithm(cr, c, attacks[3], "HS256", map["kid" := Str(TRAVERSAL)], (input: Compact) => cr.hmac([], input));
  }

  lemma EncodingAttacksAreOther(cr: Crypto, c: Context)
    ensures AllOther(EncodingAttacks(cr, c), Control(cr, c).jws)
  {
    var t := Control(cr, c).jws;
    assert t[1 := Padded(t[1])][1] != t[1];
  }

  lemma SignedIsOtherIff(cr: Crypto, c: Context, t: Token, claims: Object)
    requires t.jws == Sign(cr, c, claims)
    ensures t.jws != Control(cr, c).jws <==> claims != BaseClaims(c)
  {
    assert t.jws[1] == Json(claims) && Control(cr, c).jws[1] == Json(BaseClaims(c));
  }

  lemma Rewritten(base: Object, key: string, v: Value)
    requires key in base
    ensures base[key := v] == base <==> base[key] == v
    ensures base - {key} != base
  {
    assert base[key := v][key] == v;
    assert base[key] == v ==> base[key := v] == base;
    assert key !in base - {key};
  }

  /** The registered claims that a required claim may have overridden. */
  lemma BaseHas(c: Context)
    ensures var base := BaseClaims(c);
            && {"iss", "aud", "nbf", "exp"} <= base.Keys
            && base["iss"] == (if "iss" in c.required then Str("read") else Str(c.issuer))
            && base["aud"] == (if "aud" in c.required then Str("read") else Str(c.audience))
            && (base["nbf"] == Str("read") || base["nbf"] == Num(Unix(c.now - MINUTE)))
            && (base["exp"] == Str("read") || base["exp"] == Num(Unix(c.now + HOUR)))
  {
  }

  lemma SignedAreOtherIff(cr: Crypto, c: Context, ts: seq<Token>, bad: seq<Object>)
    requires SignsBad(cr, c, ts, bad)
    ensures AllOther(ts, Control(cr, c).jws) <==> forall i :: 0 <= i < |bad| ==> bad[i] != BaseClaims(c)
  {
    forall i | 0 <= i < |ts|
      ensures ts[i].jws != Control(cr, c).jws <==> bad[i] != BaseClaims(c)
    {
      SignedIsOtherIff(cr, c, ts[i], bad[i]);
    }
    assert forall i :: 0 <= i < |ts| ==> ts[i] in ts;
  }

  lemma ClaimAttacksAreOtherIff(cr: Crypto, c: Context, base: Object)
    requires base == BaseClaims(c)
    ensures AllOther(ClaimAttacks(cr, c, base), Control(cr, c).jws) <==>
              base["iss"] != Str(EVIL) && base["aud"] != Str(OTHER)
  {
    ClaimAttacksSign(cr, c, base);
    SignedAreOtherIff(cr, c, ClaimAttacks(cr, c, base), BadClaims(c, base));
    BadClaimsAreOtherIff(c, base);
  }

  lemma BadClaimsAreOtherIff(c: Context, base: Object)
    requires base == BaseClaims(c)
    ensures (forall i :: 0 <= i < 6 ==> BadClaims(c, base)[i] != base) <==> base["iss"] != Str(EVIL) && base["aud"] != Str(OTHER)
  {
    TimesAreOther(c, base);
    BaseHas(c);
    Rewritten(base, "iss", Str(EVIL));
    Rewritten(base, "aud", Str(OTHER));
    Rewritten(base, "aud", Arr([Str(OTHER), Str(ANOTHER)]));
    SixHold(BadClaims(c, base), (claims: Object) => claims != base);
  }

  lemma TimesAreOther(c: Context, base: Object)
    requires base == BaseClaims(c)
    ensures base["exp" := Num(Unix(c.now - HOUR))] != base && NotYetValid(c, base) != base && base - {"exp"} != base
  {
    BaseTimes(c);
    BaseHas(c);
    Rewritten(base, "exp", Num(Unix(c.now - HOUR)));
    assert NotYetValid(c, base)["nbf"] == Num(Unix(c.now + HOUR)) != base["nbf"];
  }

  lemma ResourceAttacksAreOtherIff(cr: Crypto, c: Context, base: Object)
    requires base == BaseClaims(c)
    ensures AllOther(ResourceAttacks(cr, c, base), Control(cr, c).jws) <==>
              base["aud"] != Str(PASSTHROUGH) && base["aud"] != Str(SIBLING)
  {
    ResourceAttacksSign(cr, c, base);
    SignedAreOtherIff(cr, c, ResourceAttacks(cr, c, base), BadAudiences(base));
    BaseHas(c);
    Rewritten(base, "aud", Str(PASSTHROUGH));
    Rewritten(base, "aud", Str(SIBLING));
    ThreeHold(BadAudiences(base), (claims: Object) => claims != base);
  }

  /** No attack is the control in disguise. */
  ghost predicate AttacksDiffer(c: Context) {
    && ("iss" in c.required || c.issuer != EVIL)
    && ("aud" in c.required || c.audience !in {OTHER, PASSTHROUGH, SIBLING})
  }

  lemma AllAreOtherIff(cr: Crypto, c: Context, control: Compact)
    ensures AllOther(Attacks(cr, c), control) <==>
              && AllOther(SignatureAttacks(cr, c), control) && AllOther(AlgorithmAttacks(cr, c), control)
              && AllOther(HeaderAttacks(cr, c), control) && AllOther(ClaimAttacks(cr, c, BaseClaims(c)), control)
              && AllOther(EncodingAttacks(cr, c), control) && AllOther(ResourceAttacks(cr, c, BaseClaims(c)), control)
  {
    var s2 := SignatureAttacks(cr, c) + AlgorithmAttacks(cr, c);
    var s3 := s2 + HeaderAttacks(cr, c);
    var s4 := s3 + ClaimAttacks(cr, c, BaseClaims(c));
    var s5 := s4 + EncodingAttacks(cr, c);
    AllOtherJoins(SignatureAttacks(cr, c), AlgorithmAttacks(cr, c), control);
    AllOtherJoins(s2, HeaderAttacks(cr, c), control);
    AllOtherJoins(s3, ClaimAttacks(cr, c, BaseClaims(c)), control);
    AllOtherJoins(s4, EncodingAttacks(cr, c), control);
    AllOtherJoins(s5, ResourceAttacks(cr, c, BaseClaims(c)), control);
  }

  lemma AttackListsDifferIff(cr: Crypto, c: Context, base: Object)
    requires base == BaseClaims(c)
    ensures AllOther(Attacks(cr, c), Control(cr, c).jws) <==>
              base["iss"] != Str(EVIL) && base["aud"] !in {Str(OTHER), Str(PASSTHROUGH), Str(SIBLING)}
  {
    SignatureAttacksAreOther(cr, c);
    AlgorithmAttacksAreOther(cr, c);
    HeaderAttacksAreOther(cr, c);
    ClaimAttacksAreOtherIff(cr, c, base);
    EncodingAttacksAreOther(cr, c);
    ResourceAttacksAreOtherIff(cr, c, base);
    AllAreOtherIff(cr, c, Control(cr, c).jws);
  }

  /** Every attack differs from the control, whatever the keys and signature schemes, exactly
      when issuer and audience are none of the values the attacks put there, or a required
      claim overrides them. */
  lemma AttacksDifferIff(cr: Crypto, c: Context)
    ensures AllOther(Attacks(cr, c), Control(cr, c).jws) <==> AttacksDiffer(c)
  {
    AttackListsDifferIff(cr, c, BaseClaims(c));
    BaseIsTakenIff(c, BaseClaims(c));
  }

  lemma BaseIsTakenIff(c: Context, base: Object)
    requires base == BaseClaims(c)
    ensures {"iss", "aud"} <= base.Keys
    ensures base["iss"] != Str(EVIL) && base["aud"] !in {Str(OTHER), Str(PASSTHROUGH), Str(SIBLING)} <==> AttacksDiffer(c)
  {
    BaseHas(c);
  }

  /** The control is the one token of the corpus to accept. */
  lemma OnlyTheControlIsGood(cr: Crypto, c: Context)
    ensures Corpus(cr, c)[0] == Control(cr, c)
    ensures forall i :: 0 <= i < |Corpus(cr, c)| ==> (Corpus(cr, c)[i].want == Accept <==> i == 0)
  {
    AttacksWantRejection(cr, c);
    forall i | 0 < i < |Corpus(cr, c)|
      ensures Corpus(cr, c)[i].want == Reject
    {
      assert Corpus(cr, c)[i] in Attacks(cr, c);
    }
  }

  /** Some verifier, however it works, gets all of the corpus right. */
  ghost predicate Passable(corpus: seq<Token>) {
    exists verify :: Findings(corpus, verify) == []
  }

  /** A corpus can be got right exactly when no token to reject is the one to accept. */
  lemma ConsistentIff(control: Token, attacks: seq<Token>)
    requires control.want == Accept && AllReject(attacks)
    ensures Passable([control] + attacks) <==> AllOther(attacks, control.jws)
  {
    var corpus := [control] + attacks;
    if AllOther(attacks, control.jws) {
      var verify := (t: Compact) => if t == control.jws then Accept else Reject;
      NoFindingsIff(corpus, verify);
      assert Findings(corpus, verify) == [];
    } else {
      var t :| t in attacks && t.jws == control.jws;
      forall verify
        ensures Findings(corpus, verify) != []
      {
        NoFindingsIff(corpus, verify);
        assert t in corpus && control in corpus;
      }
    }
  }

  /** Some verifier, however it works, gets the whole corpus right exactly when no attack is
      the control in disguise. */
  lemma PassableIff(cr: Crypto, c: Context)
    ensures Passable(Corpus(cr, c)) <==> AttacksDiffer(c)
  {
    AttacksDifferIff(cr, c);
    AttacksWantRejection(cr, c);
    ConsistentIff(Control(cr, c), Attacks(cr, c));
  }
}
