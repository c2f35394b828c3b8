/** Compact tokens, with symbolic encodings and signatures. */
module Jose {
  import opened Prelude

  type RSAKey = nat

  /** JSON values; `Jwk` is a public key written out as an object. */
  datatype Value = Null | Str(s: string) | Num(n: int) | Arr(items: seq<Value>) | Jwk(of: RSAKey)

  type Object = map<string, Value>

  /** One dot-separated part of a token: base64url of an object or of bytes, or such a part
      with a padding character appended, which strict decoding refuses. */
  datatype Segment = Json(o: Object) | Raw(bytes: Bytes) | Padded(of: Segment)

  type Compact = seq<Segment>

  /** The signature schemes, as functions of key and signing input. */
  datatype Crypto = Crypto(rsa: (RSAKey, Compact) -> Bytes, hmac: (Bytes, Compact) -> Bytes)

  /** Nobody without `key` makes its signatures, and these are longer than 64 bytes. */
  ghost predicate Unforgeable(cr: Crypto, key: RSAKey) {
    && (forall input :: |cr.rsa(key, input)| > 64)
    && (forall other, input :: other != key ==> cr.rsa(other, input) != cr.rsa(key, input))
    && forall secret, input :: cr.hmac(secret, input) != cr.rsa(key, input)
  }

  function SigningInput(header: Object, claims: Object): Compact {
    [Json(header), Json(claims)]
  }

  function Assemble(input: Compact, sig: Bytes): Compact {
    input + [Raw(sig)]
  }

  function HeaderOf(alg: string, extra: Object): Object {
    map["alg" := Str(alg), "typ" := Str("JWT")] + extra
  }

  // ---- spoiling a signature -------------------------------------------------------------------

  function Flipped(sig: Bytes): (r: Bytes)
    requires sig != []
    ensures |r| == |sig| && r != sig
    ensures r[..|r| - 1] == sig[..|sig| - 1] && r[|r| - 1] == !sig[|sig| - 1]
  {
    var last := sig[|sig| - 1];
    assert last ^ 0xFF != last;
    var r := sig[|sig| - 1 := last ^ 0xFF];
    assert r[|sig| - 1] != sig[|sig| - 1];
    r
  }

  datatype TokenError = NotCompact | Undecodable | EmptySignature

  method TamperSignature(token: Compact) returns (r: Result<Compact, TokenError>)
    ensures |token| != 3 ==> r == Err(NotCompact)
    ensures |token| == 3 && token[2].Raw? && token[2].bytes != [] ==> r == Ok(token[2 := Raw(Flipped(token[2].bytes))])
    ensures |token| == 3 && token[2] == Raw([]) ==> r == Err(EmptySignature)
    ensures |token| == 3 && !token[2].Raw? ==> r == Err(Undecodable)
  {
    if |token| != 3 {
      return Err(NotCompact);
    }
    if !token[2].Raw? {
      return Err(Undecodable);
    }
    var bytes := token[2].bytes;
    if |bytes| == 0 {
      return Err(EmptySignature);
    }
    var sig := new bv8[|bytes|](i requires 0 <= i < |bytes| => bytes[i]);
    sig[sig.Length - 1] := sig[sig.Length - 1] ^ 0xFF;
    assert sig[..] == Flipped(bytes);
    return Ok(token[2 := Raw(sig[..])]);
  }
}
