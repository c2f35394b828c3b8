/** The reference verifier: a pinned algorithm, one trusted key, and every claim checked. */
module Oracle {
  import opened Prelude
  import opened Jose

  const SECOND: int := 1_000_000_000

  datatype Verdict = Reject | Accept

  /** Times are in nanoseconds; `now` is absent when the policy leaves it to the clock. */
  datatype Policy = Policy(trusted: RSAKey, issuer: string, audience: string, required: seq<string>,
                           now: Option<int>, skew: int)

  function NumClaim(c: Object, key: string): Option<int> {
    if key in c && c[key].Num? then Some(c[key].n) else None
  }

  predicate AudienceContains(aud: Value, want: string) {
    match aud
    case Str(s) => s == want
    case Arr(items) => Str(want) in items
    case _ => false
  }

  function Claim(c: Object, key: string): Value {
    if key in c then c[key] else Null
  }

  predicate Unexpired(c: Object, now: int, skew: int) {
    NumClaim(c, "exp").Some? && now <= NumClaim(c, "exp").value * SECOND + skew
  }

  predicate Started(c: Object, now: int, skew: int) {
    NumClaim(c, "nbf").Some? ==> now >= NumClaim(c, "nbf").value * SECOND - skew
  }

  predicate FromIssuer(c: Object, issuer: string) {
    issuer != "" ==> Claim(c, "iss") == Str(issuer)
  }

  predicate ForAudience(c: Object, audience: string) {
    audience != "" ==> AudienceContains(Claim(c, "aud"), audience)
  }

  predicate HasRequired(c: Object, required: seq<string>) {
    forall rc :: rc in required ==> rc in c && c[rc] != Null && c[rc] != Str("")
  }

  predicate ValidClaims(p: Policy, clock: int, c: Object) {
    var now := if p.now.Some? then p.now.value else clock;
    && Unexpired(c, now, p.skew) && Started(c, now, p.skew)
    && FromIssuer(c, p.issuer) && ForAudience(c, p.audience) && HasRequired(c, p.required)
  }

  /** What parsing with only RS256 allowed lets through: three well-encoded parts, the first
      an object naming exactly that algorithm. */
  predicate Parses(t: Compact) {
    && |t| == 3 && t[0].Json? && !t[1].Padded? && t[2].Raw?
    && Claim(t[0].o, "alg") == Str("RS256")
  }

  function Verify(cr: Crypto, p: Policy, clock: int, t: Compact): Verdict {
    if !Parses(t) then Reject
    else if t[2].bytes != cr.rsa(p.trusted, t[..2]) then Reject
    else if !t[1].Json? then Reject
    else if ValidClaims(p, clock, t[1].o) then Accept else Reject
  }

  /** The oracle accepts only what the trusted key signed, and of that exactly the tokens
      with valid claims; nothing in the header but the algorithm matters. */
  lemma AcceptsOnlySigned(cr: Crypto, p: Policy, clock: int, t: Compact)
    ensures Verify(cr, p, clock, t) == Accept ==>
              exists header, claims ::
                && t == Assemble(SigningInput(header, claims), cr.rsa(p.trusted, SigningInput(header, claims)))
                && Claim(header, "alg") == Str("RS256") && ValidClaims(p, clock, claims)
  {
    if Verify(cr, p, clock, t) == Accept {
      var header, claims := t[0].o, t[1].o;
      assert t[..2] == SigningInput(header, claims);
      assert t == Assemble(SigningInput(header, claims), t[2].bytes);
    }
  }

  /** The time the claims are checked at. */
  function CheckedAt(p: Policy, clock: int): int {
    match p.now
    case Some(t) => t
    case None => clock
  }

  /** The token's claims, one by one: it has an expiry that has not passed, no start that has
      not come, the issuer and the audience if the policy names them, and every required claim
      with something in it. */
  ghost predicate InOrder(p: Policy, now: int, c: Object) {
    && (exists exp :: "exp" in c && c["exp"] == Num(exp) && now <= exp * 1_000_000_000 + p.skew)
    && (forall nbf :: "nbf" in c && c["nbf"] == Num(nbf) ==> now >= nbf * 1_000_000_000 - p.skew)
    && (p.issuer == "" || ("iss" in c && c["iss"] == Str(p.issuer)))
    && (p.audience == "" || ("aud" in c && (c["aud"] == Str(p.audience)
                                            || exists items :: c["aud"] == Arr(items) && Str(p.audience) in items)))
    && forall k :: 0 <= k < |p.required| ==>
         p.required[k] in c && c[p.required[k]] != Null && c[p.required[k]] != Str("")
  }

  lemma InOrderIsValid(p: Policy, clock: int, c: Object)
    ensures ValidClaims(p, clock, c) <==> InOrder(p, CheckedAt(p, clock), c)
  {
    if ValidClaims(p, clock, c) {
      assert c["exp"] == Num(c["exp"].n);
    }
    if InOrder(p, CheckedAt(p, clock), c) {
      assert "nbf" in c && c["nbf"].Num? ==> c["nbf"] == Num(c["nbf"].n);
    }
  }

  /** The oracle accepts exactly the tokens of three well-encoded parts whose header names
      RS256, which the trusted key signed, and whose claims are in order. */
  lemma AcceptsIff(cr: Crypto, p: Policy, clock: int, t: Compact)
    ensures Verify(cr, p, clock, t) == Accept <==>
              exists header, claims ::
                && t == [Json(header), Json(claims), Raw(cr.rsa(p.trusted, [Json(header), Json(claims)]))]
                && "alg" in header && header["alg"] == Str("RS256") && InOrder(p, CheckedAt(p, clock), claims)
  {
    if Verify(cr, p, clock, t) == Accept {
      var header, claims := t[0].o, t[1].o;
      assert t[..2] == [Json(header), Json(claims)];
      InOrderIsValid(p, clock, claims);
      assert t == [Json(header), Json(claims), Raw(cr.rsa(p.trusted, [Json(header), Json(claims)]))];
    }
    if header, claims :|
      && t == [Json(header), Json(claims), Raw(cr.rsa(p.trusted, [Json(header), Json(claims)]))]
      && "alg" in header && header["alg"] == Str("RS256") && InOrder(p, CheckedAt(p, clock), claims) {
      assert t[..2] == [Json(header), Json(claims)];
      InOrderIsValid(p, clock, claims);
    }
  }
}
