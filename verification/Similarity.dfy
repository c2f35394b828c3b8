/** Configs, their feature tokens, and Jaccard similarity as an exact rational. */
module Similarity {
  import opened Prelude

  datatype Config = Config(issuers: seq<string>, audiences: seq<string>, algorithms: seq<string>, claims: seq<string>)

  /** The four string normalisers. What they do inside strings is library behaviour;
      nothing here depends on it. */
  datatype Norms = Norms(issuer: string -> string, audience: string -> string,
                         algorithm: string -> string, claim: string -> string)

  function Mapped(prefix: string, xs: seq<string>, fn: string -> string): set<string> {
    set x | x in xs :: prefix + fn(x)
  }

  function Tokens(n: Norms, c: Config): set<string> {
    Mapped("iss:", c.issuers, n.issuer) + Mapped("aud:", c.audiences, n.audience)
      + Mapped("alg:", c.algorithms, n.algorithm) + Mapped("claim:", c.claims, n.claim)
  }

  function Jaccard(a: set<string>, b: set<string>): real {
    if a == {} && b == {} then 1.0 else |a * b| as real / |a + b| as real
  }

  lemma UnionSize(a: set<string>, b: set<string>)
    ensures |a + b| == |a| + |b| - |a * b|
    ensures |a * b| <= |a + b|
    ensures |a * b| == |a + b| ==> a == b
    ensures a + b != {} ==> |a + b| > 0
  {
    var common, rest := a * b, (a + b) - a * b;
    assert a + b == common + rest;
    assert a + b == a + (b - common);
    assert b == (b - common) + common;
    if rest == {} {
      assert a == common == b;
    }
  }

  lemma CountOneMore(a: set<string>, b: set<string>, todo: set<string>, t: string)
    requires t in todo && todo <= a
    ensures |(a - (todo - {t})) * b| == |(a - todo) * b| + if t in b then 1 else 0
  {
    if t in b {
      assert (a - (todo - {t})) * b == (a - todo) * b + {t};
    } else {
      assert (a - (todo - {t})) * b == (a - todo) * b;
    }
  }

  /** The loop of the daemon: count the shared tokens, and derive the union's size. */
  method ComputeJaccard(a: set<string>, b: set<string>) returns (j: real)
    ensures j == Jaccard(a, b)
  {
    if a == {} && b == {} {
      return 1.0;
    }
    var inter := CountShared(a, b);
    UnionSize(a, b);
    var union := |a| + |b| - inter;
    j := inter as real / union as real;
  }

  method CountShared(a: set<string>, b: set<string>) returns (inter: nat)
    ensures inter == |a * b|
  {
    inter := 0;
    var todo := a;
    while todo != {}
      invariant todo <= a
      invariant inter == |(a - todo) * b|
    {
      var t :| t in todo;
      CountOneMore(a, b, todo, t);
      if t in b {
        inter := inter + 1;
      }
      todo := todo - {t};
    }
    assert (a - todo) * b == a * b;
  }

  lemma JaccardIsSymmetric(a: set<string>, b: set<string>)
    ensures Jaccard(a, b) == Jaccard(b, a)
  {
    assert a * b == b * a && a + b == b + a;
  }

  /** Jaccard lies in [0, 1], and is 1 exactly for equal token sets. */
  lemma JaccardRange(a: set<string>, b: set<string>)
    ensures 0.0 <= Jaccard(a, b) <= 1.0
    ensures Jaccard(a, b) == 1.0 <==> a == b
  {
    UnionSize(a, b);
    if a + b != {} {
      DivBounds(|a * b|, |a + b|);
      assert a == b ==> a * b == a + b;
    }
  }

  lemma DivBounds(i: nat, u: nat)
    requires u > 0 && i <= u
    ensures 0.0 <= i as real / u as real <= 1.0
    ensures i as real / u as real == 1.0 <==> i == u
  {
  }

  /** How far two token sets are apart. */
  function Distance(a: set<string>, b: set<string>): real {
    1.0 - Jaccard(a, b)
  }

  /** The tokens only one side has. */
  function Difference(a: set<string>, b: set<string>): set<string> {
    (a - b) + (b - a)
  }

  lemma DifferenceSize(a: set<string>, b: set<string>)
    ensures |Difference(a, b)| == |a + b| - |a * b|
  {
    assert a + b == Difference(a, b) + a * b;
  }

  /** The distance is the share of the united tokens that only one side has. */
  lemma DistanceIsShare(a: set<string>, b: set<string>)
    requires a + b != {}
    ensures |a + b| > 0 && Distance(a, b) == |Difference(a, b)| as real / |a + b| as real
  {
    UnionSize(a, b);
    DifferenceSize(a, b);
    OneLess(|a * b|, |a + b|);
  }

  lemma OneLess(i: nat, u: nat)
    requires u > 0
    ensures 1.0 - i as real / u as real == (u - i) as real / u as real
  {
    Whole(i as real, (u - i) as real, u as real);
  }

  lemma Whole(x: real, y: real, w: real)
    requires w > 0.0 && x + y == w
    ensures 1.0 - x / w == y / w
  {
    assert x / w + y / w == (x + y) / w == 1.0;
  }

  lemma Compare(x: real, y: real, w: real)
    requires w > 0.0 && x * w <= y * w
    ensures x <= y
  {
  }

  /** Adding the same to a part and to the whole makes the part no smaller a share. */
  lemma MoreOfBoth(part: real, whole: real, more: real)
    requires 0.0 <= part <= whole && whole > 0.0 && more >= 0.0
    ensures part / whole <= (part + more) / (whole + more)
  {
    var x, y := part / whole, (part + more) / (whole + more);
    assert x * whole == part && y * (whole + more) == part + more;
    Compare(x, 1.0, whole);
    assert x * more <= 1.0 * more;
    assert x * (whole + more) == x * whole + x * more;
    Compare(x, y, whole + more);
  }

  lemma ShareOfMore(part: real, whole: real, more: real)
    requires 0.0 <= part && 0.0 < whole <= more
    ensures part / more <= part / whole
  {
    var x, y := part / more, part / whole;
    assert x * more == part && y * whole == part;
    Compare(0.0, y, whole);
    assert y * whole <= y * more;
    Compare(x, y, more);
  }

  lemma SharesAdd(a: real, b: real, c: real, whole: real)
    requires whole > 0.0 && a <= b + c
    ensures a / whole <= b / whole + c / whole
  {
    assert b / whole + c / whole == (b + c) / whole;
    assert (b + c) / whole * whole == b + c && a / whole * whole == a;
    Compare(a / whole, (b + c) / whole, whole);
  }

  /** The detour, in numbers. */
  lemma Detour(ac: real, wholeAC: real, ab: real, wholeAB: real, bc: real, wholeBC: real, more: real, all: real)
    requires 0.0 <= ac <= wholeAC && wholeAC > 0.0 && more >= 0.0 && all == wholeAC + more
    requires 0.0 <= ab && 0.0 < wholeAB <= all && 0.0 <= bc && 0.0 < wholeBC <= all && ac + more <= ab + bc
    ensures ac / wholeAC <= ab / wholeAB + bc / wholeBC
  {
    MoreOfBoth(ac, wholeAC, more);
    SharesAdd(ac + more, ab, bc, all);
    ShareOfMore(ab, wholeAB, all);
    ShareOfMore(bc, wholeBC, all);
  }

  /** A token outside `a` and `c` but in `b` tells `b` from both; one in only one of `a` and `c`
      tells `b` from one of them. */
  lemma DifferencesCover(a: set<string>, b: set<string>, c: set<string>)
    ensures |Difference(a, c)| + |b - (a + c)| <= |Difference(a, b)| + |Difference(b, c)|
  {
    var ab, bc, ac, only := Difference(a, b), Difference(b, c), Difference(a, c), b - (a + c);
    UnionSize(ab, bc);
    assert only <= ab * bc;
    assert ac <= ab + bc && ac !! only && only <= ab + bc;
    assert |ac + only| == |ac| + |only|;
    Subset(ac + only, ab + bc);
    Subset(only, ab * bc);
  }

  lemma Subset<T>(a: set<T>, b: set<T>)
    requires a <= b
    ensures |a| <= |b|
  {
    assert b == a + (b - a);
  }

  /** The distance is a metric: it is symmetric, zero only between equal sets, and no detour
      is shorter. */
  lemma DistanceIsMetric(a: set<string>, b: set<string>, c: set<string>)
    ensures Distance(a, b) == Distance(b, a) >= 0.0
    ensures Distance(a, b) == 0.0 <==> a == b
    ensures Distance(a, c) <= Distance(a, b) + Distance(b, c)
  {
    JaccardIsSymmetric(a, b);
    JaccardRange(a, b);
    JaccardRange(b, c);
    JaccardRange(a, c);
    if a != c && a != b && b != c {
      NoShortDetour(a, b, c);
    }
  }

  lemma NoShortDetour(a: set<string>, b: set<string>, c: set<string>)
    requires a + b != {} && b + c != {} && a + c != {}
    ensures Distance(a, c) <= Distance(a, b) + Distance(b, c)
  {
    DistanceIsShare(a, b);
    DistanceIsShare(b, c);
    DistanceIsShare(a, c);
    DifferencesCover(a, b, c);
    Sizes(a, b, c);
    Detour(|Difference(a, c)| as real, |a + c| as real, |Difference(a, b)| as real, |a + b| as real,
           |Difference(b, c)| as real, |b + c| as real, |b - (a + c)| as real, |a + b + c| as real);
  }

  lemma Sizes(a: set<string>, b: set<string>, c: set<string>)
    ensures |a + b + c| == |a + c| + |b - (a + c)| && |Difference(a, c)| <= |a + c|
    ensures |a + b| <= |a + b + c| && |b + c| <= |a + b + c|
  {
    assert a + b + c == (a + c) + (b - (a + c));
    Subset(Difference(a, c), a + c);
    Subset(a + b, a + b + c);
    Subset(b + c, a + b + c);
  }

  /** The prefixes keep the four kinds of token apart: equal token sets mean equal
      normalised issuers, audiences, algorithms and claims. */
  lemma PrefixesSeparate(n: Norms, a: Config, b: Config)
    ensures Tokens(n, a) == Tokens(n, b) <==>
            && Mapped("", a.issuers, n.issuer) == Mapped("", b.issuers, n.issuer)
            && Mapped("", a.audiences, n.audience) == Mapped("", b.audiences, n.audience)
            && Mapped("", a.algorithms, n.algorithm) == Mapped("", b.algorithms, n.algorithm)
            && Mapped("", a.claims, n.claim) == Mapped("", b.claims, n.claim)
  {
    if Tokens(n, a) == Tokens(n, b) {
      FieldFromTokens(n, a, b);
      FieldFromTokens(n, b, a);
    } else {
      PrefixedFromPlain("iss:", a.issuers, b.issuers, n.issuer);
      PrefixedFromPlain("aud:", a.audiences, b.audiences, n.audience);
      PrefixedFromPlain("alg:", a.algorithms, b.algorithms, n.algorithm);
      PrefixedFromPlain("claim:", a.claims, b.claims, n.claim);
    }
  }

  lemma PrefixedFromPlain(prefix: string, xs: seq<string>, ys: seq<string>, fn: string -> string)
    ensures Mapped("", xs, fn) == Mapped("", ys, fn) ==> Mapped(prefix, xs, fn) == Mapped(prefix, ys, fn)
  {
    if Mapped("", xs, fn) == Mapped("", ys, fn) {
      Prefixed(prefix, xs, fn);
      Prefixed(prefix, ys, fn);
    }
  }

  lemma Prefixed(prefix: string, xs: seq<string>, fn: string -> string)
    ensures Mapped(prefix, xs, fn) == set t | t in Mapped("", xs, fn) :: prefix + t
  {
    forall x | x in xs
      ensures fn(x) in Mapped("", xs, fn)
    {
      assert "" + fn(x) == fn(x);
    }
    forall t | t in Mapped("", xs, fn)
      ensures prefix + t in Mapped(prefix, xs, fn)
    {
      var x :| x in xs && t == "" + fn(x);
      assert t == fn(x);
    }
  }

  /** A token carries its kind: no token with one prefix is a token with another. */
  lemma TokenKind(prefix: string, t: string, n: Norms, c: Config)
    requires prefix in {"iss:", "aud:", "alg:", "claim:"} && prefix + t in Tokens(n, c)
    ensures prefix == "iss:" ==> t in Mapped("", c.issuers, n.issuer)
    ensures prefix == "aud:" ==> t in Mapped("", c.audiences, n.audience)
    ensures prefix == "alg:" ==> t in Mapped("", c.algorithms, n.algorithm)
    ensures prefix == "claim:" ==> t in Mapped("", c.claims, n.claim)
  {
    var full := prefix + t;
    assert full[0] == prefix[0] && full[1] == prefix[1] && t == full[|prefix|..];
    if x :| x in c.issuers && full == "iss:" + n.issuer(x) {
      assert full[0] == 'i' && "" + n.issuer(x) == full[4..];
    } else if x :| x in c.audiences && full == "aud:" + n.audience(x) {
      assert full[0] == 'a' && full[1] == 'u' && "" + n.audience(x) == full[4..];
    } else if x :| x in c.algorithms && full == "alg:" + n.algorithm(x) {
      assert full[0] == 'a' && full[1] == 'l' && "" + n.algorithm(x) == full[4..];
    } else {
      var x :| x in c.claims && full == "claim:" + n.claim(x);
      assert full[0] == 'c' && "" + n.claim(x) == full[6..];
    }
  }

  lemma FieldFromTokens(n: Norms, a: Config, b: Config)
    requires Tokens(n, a) == Tokens(n, b)
    ensures Mapped("", a.issuers, n.issuer) <= Mapped("", b.issuers, n.issuer)
    ensures Mapped("", a.audiences, n.audience) <= Mapped("", b.audiences, n.audience)
    ensures Mapped("", a.algorithms, n.algorithm) <= Mapped("", b.algorithms, n.algorithm)
    ensures Mapped("", a.claims, n.claim) <= Mapped("", b.claims, n.claim)
  {
    Prefixed("iss:", a.issuers, n.issuer);
    Prefixed("aud:", a.audiences, n.audience);
    Prefixed("alg:", a.algorithms, n.algorithm);
    Prefixed("claim:", a.claims, n.claim);
    forall t | t in Mapped("", a.issuers, n.issuer)
      ensures t in Mapped("", b.issuers, n.issuer)
    {
      TokenKind("iss:", t, n, b);
    }
    forall t | t in Mapped("", a.audiences, n.audience)
      ensures t in Mapped("", b.audiences, n.audience)
    {
      TokenKind("aud:", t, n, b);
    }
    forall t | t in Mapped("", a.algorithms, n.algorithm)
      ensures t in Mapped("", b.algorithms, n.algorithm)
    {
      TokenKind("alg:", t, n, b);
    }
    forall t | t in Mapped("", a.claims, n.claim)
      ensures t in Mapped("", b.claims, n.claim)
    {
      TokenKind("claim:", t, n, b);
    }
  }
}
