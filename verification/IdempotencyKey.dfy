/** The pre-image the middleware hashes to bind a client's key to a request: the raw
    key, the method and the path, each followed by a NUL byte, and then the body. */
module IdempotencyKey {
  import opened Prelude

  datatype Request = Request(rawKey: Bytes, method_: Bytes, path: Bytes, body: Bytes)

  const NUL: Bytes := [0]

  function PreImage(r: Request): Bytes {
    r.rawKey + NUL + (r.method_ + NUL + (r.path + NUL + r.body))
  }

  lemma SplitAtFirstNul(a: Bytes, x: Bytes, b: Bytes, y: Bytes)
    requires 0 !in a && 0 !in b && a + NUL + x == b + NUL + y
    ensures a == b && x == y
  {
    var s := a + NUL + x;
    assert s[|a|] == 0 && s[|b|] == 0;
    assert forall i :: 0 <= i < |a| ==> s[i] == a[i] != 0;
    assert forall i :: 0 <= i < |b| ==> s[i] == b[i] != 0;
    assert a == s[..|a|] == b;
    assert x == s[|a| + 1..] == y;
  }

  /** Without a NUL in key, method or path, equal pre-images come from equal requests. */
  lemma PreImageSeparates(r: Request, q: Request)
    requires 0 !in r.rawKey && 0 !in r.method_ && 0 !in r.path
    requires 0 !in q.rawKey && 0 !in q.method_ && 0 !in q.path
    ensures PreImage(r) == PreImage(q) <==> r == q
  {
    if PreImage(r) == PreImage(q) {
      SplitAtFirstNul(r.rawKey, r.method_ + NUL + (r.path + NUL + r.body),
                      q.rawKey, q.method_ + NUL + (q.path + NUL + q.body));
      SplitAtFirstNul(r.method_, r.path + NUL + r.body, q.method_, q.path + NUL + q.body);
      SplitAtFirstNul(r.path, r.body, q.path, q.body);
    }
  }

  /** The method of every request the middleware hashes. */
  const POST: Bytes := [0x50, 0x4F, 0x53, 0x54]

  /** A request the middleware hashes: a POST whose key header is set. A header has no NUL. */
  predicate Hashed(r: Request) {
    r.method_ == POST && r.rawKey != [] && 0 !in r.rawKey
  }

  /** No other request that is hashed has the same pre-image. */
  ghost predicate Unambiguous(r: Request) {
    forall q :: Hashed(q) && PreImage(q) == PreImage(r) ==> q == r
  }

  function Nuls(b: Bytes): (n: nat)
    ensures n == 0 <==> 0 !in b
  {
    if b == [] then 0 else (if b[0] == 0 then 1 else 0) + Nuls(b[1..])
  }

  lemma {:induction false} NulsConcat(a: Bytes, b: Bytes)
    ensures Nuls(a + b) == Nuls(a) + Nuls(b)
  {
    if a == [] {
      assert a + b == b;
    } else {
      NulsConcat(a[1..], b);
      assert (a + b)[1..] == a[1..] + b;
    }
  }

  lemma NulsAround(a: Bytes, b: Bytes)
    ensures Nuls(a + NUL + b) == Nuls(a) + 1 + Nuls(b)
  {
    NulsConcat(a + NUL, b);
    NulsConcat(a, NUL);
  }

  /** What two hashed requests with one pre-image share. */
  lemma SameKeySameRest(r: Request, q: Request)
    requires Hashed(r) && Hashed(q) && PreImage(q) == PreImage(r)
    ensures q.rawKey == r.rawKey && q.path + NUL + q.body == r.path + NUL + r.body
  {
    SplitAtFirstNul(q.rawKey, q.method_ + NUL + (q.path + NUL + q.body), r.rawKey, r.method_ + NUL + (r.path + NUL + r.body));
    SplitAtFirstNul(q.method_, q.path + NUL + q.body, r.method_, r.path + NUL + r.body);
  }

  /** Among the requests the middleware hashes, one shares its pre-image with no other
      exactly when neither its path, which is percent-decoded, nor its body has a NUL. */
  lemma UnambiguousIffNoNul(r: Request)
    requires Hashed(r)
    ensures Unambiguous(r) <==> 0 !in r.path && 0 !in r.body
  {
    if 0 !in r.path && 0 !in r.body {
      forall q | Hashed(q) && PreImage(q) == PreImage(r)
        ensures q == r
      {
        SameKeySameRest(r, q);
        NulsAround(q.path, q.body);
        NulsAround(r.path, r.body);
        SplitAtFirstNul(q.path, q.body, r.path, r.body);
      }
    } else {
      var q := Collision(r);
    }
  }

  /** Moving the separator to a NUL of the path, or of the body: the same key on another
      path, with another body, has the same pre-image. */
  lemma Collision(r: Request) returns (q: Request)
    requires Hashed(r) && (0 in r.path || 0 in r.body)
    ensures Hashed(q) && q.rawKey == r.rawKey && q.path != r.path && q.body != r.body && PreImage(q) == PreImage(r)
  {
    if 0 in r.path {
      var a, b := Halves(r.path);
      q := r.(path := a, body := b + NUL + r.body);
      assert |q.body| > |r.body|;
      assert r.path + NUL + r.body == q.path + NUL + q.body;
    } else {
      var a, b := Halves(r.body);
      q := r.(path := r.path + NUL + a, body := b);
      assert |q.path| > |r.path|;
      assert r.path + NUL + r.body == q.path + NUL + q.body;
    }
  }

  lemma Halves(s: Bytes) returns (a: Bytes, b: Bytes)
    requires 0 in s
    ensures s == a + NUL + b && |a| < |s| && |b| < |s|
  {
    var i :| 0 <= i < |s| && s[i] == 0;
    a, b := s[..i], s[i + 1..];
  }
}
