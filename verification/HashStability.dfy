/** When the canonical form, and with it the hash, is a function of the version. */
module HashStability {
  import opened Prelude
  import opened Ordering
  import opened Domain
  import opened Canon

  /** Canonicalising `v` has one outcome, whatever the sorts do with ties. */
  ghost predicate Determined(v: Version) {
    forall c, d :: IsCanonical(v, c) && IsCanonical(v, d) ==> c == d
  }

  /** An issuer's projection when sorting its keys leaves no choice. */
  function TheIssuer(iss: Issuer): CanonIssuer {
    CanonIssuerOf(iss, Sort(CanonKeys(iss), KeyLess))
  }

  function TheIssuers(issuers: seq<Issuer>): seq<CanonIssuer> {
    Map(TheIssuer, issuers)
  }

  function TheCanonical(v: Version): CanonContract {
    CanonContract(Sort(TheIssuers(v.issuers), IssuerLess),
                  Sort(CanonConsumers(v.consumers), ConsumerLess),
                  Sort(CanonEdges(v), EdgeLess))
  }

  ghost predicate KeysSeparate(issuers: seq<Issuer>) {
    forall i :: 0 <= i < |issuers| ==> TiesCollapse(CanonKeys(issuers[i]), KeyLess)
  }

  /** Whatever two sorts could exchange is the same anyway: keys of one issuer with one
      KID, algorithm and status; issuers with one URL; consumers with one StableID;
      edges between one issuer URL and one StableID. */
  ghost predicate NoTies(v: Version) {
    && KeysSeparate(v.issuers)
    && TiesCollapse(TheIssuers(v.issuers), IssuerLess)
    && TiesCollapse(CanonConsumers(v.consumers), ConsumerLess)
    && TiesCollapse(CanonEdges(v), EdgeLess)
  }

  lemma TheIssuerIsCanonical(iss: Issuer)
    ensures IsCanonIssuer(iss, TheIssuer(iss))
  {
    KeyOrder();
    SortSorts(CanonKeys(iss), KeyLess);
  }

  lemma TheCanonicalIsCanonical(v: Version)
    ensures AreCanonIssuers(v.issuers, TheIssuers(v.issuers))
    ensures IsCanonical(v, TheCanonical(v))
  {
    forall i | 0 <= i < |v.issuers|
      ensures IsCanonIssuer(v.issuers[i], TheIssuers(v.issuers)[i])
    {
      TheIssuerIsCanonical(v.issuers[i]);
    }
    IssuerOrder();
    ConsumerOrder();
    EdgeOrder();
    SortSorts(TheIssuers(v.issuers), IssuerLess);
    SortSorts(CanonConsumers(v.consumers), ConsumerLess);
    SortSorts(CanonEdges(v), EdgeLess);
  }

  lemma SeparateKeysSortOneWay(issuers: seq<Issuer>, cis: seq<CanonIssuer>)
    requires KeysSeparate(issuers) && AreCanonIssuers(issuers, cis)
    ensures cis == TheIssuers(issuers)
  {
    KeyOrder();
    forall i | 0 <= i < |cis|
      ensures cis[i] == TheIssuer(issuers[i])
    {
      assert IsCanonIssuer(issuers[i], cis[i]);
      SortIs(cis[i].keys, CanonKeys(issuers[i]), KeyLess);
    }
  }

  /** Without ties the canonical form is the one the sort function gives. */
  lemma NoTiesDetermines(v: Version, c: CanonContract)
    requires NoTies(v) && IsCanonical(v, c)
    ensures c == TheCanonical(v)
  {
    var cis :| AreCanonIssuers(v.issuers, cis) && IsSortOf(c.issuers, cis, IssuerLess);
    SeparateKeysSortOneWay(v.issuers, cis);
    IssuerOrder();
    ConsumerOrder();
    EdgeOrder();
    SortIs(c.issuers, TheIssuers(v.issuers), IssuerLess);
    SortIs(c.consumers, CanonConsumers(v.consumers), ConsumerLess);
    SortIs(c.edges, CanonEdges(v), EdgeLess);
  }

  lemma BagPoint<T>(s: seq<T>, i: int, x: T, y: T)
    requires 0 <= i < |s| && multiset(s[i := x]) == multiset(s[i := y])
    ensures x == y
  {
    assert s == s[..i] + [s[i]] + s[i + 1..];
    assert s[i := x] == s[..i] + [x] + s[i + 1..];
    assert s[i := y] == s[..i] + [y] + s[i + 1..];
    var rest := multiset(s[..i]) + multiset(s[i + 1..]);
    assert multiset(s[i := x]) == rest + multiset{x};
    assert multiset(s[i := y]) == rest + multiset{y};
    assert (rest + multiset{x})[x] == rest[x] + 1;
  }

  lemma TwoIssuerListsSplit(v: Version, a: seq<CanonIssuer>, b: seq<CanonIssuer>)
    requires IsCanonIssuers(v.issuers, a) && IsCanonIssuers(v.issuers, b) && a != b
    ensures !Determined(v)
  {
    TheCanonicalIsCanonical(v);
    var t := TheCanonical(v);
    var c, d := CanonContract(a, t.consumers, t.edges), CanonContract(b, t.consumers, t.edges);
    assert IsCanonical(v, c) && IsCanonical(v, d);
  }

  /** `cis` with one issuer's keys in another order sorting may leave. */
  lemma KeyOrderIsFree(issuers: seq<Issuer>, i: int, keys: seq<CanonKey>)
    requires 0 <= i < |issuers| && IsSortOf(keys, CanonKeys(issuers[i]), KeyLess)
    ensures var cis := TheIssuers(issuers)[i := CanonIssuerOf(issuers[i], keys)];
            IsCanonIssuers(issuers, Sort(cis, IssuerLess)) && multiset(Sort(cis, IssuerLess)) == multiset(cis)
  {
    var cis := TheIssuers(issuers)[i := CanonIssuerOf(issuers[i], keys)];
    forall k | 0 <= k < |issuers|
      ensures IsCanonIssuer(issuers[k], cis[k])
    {
      TheIssuerIsCanonical(issuers[k]);
    }
    IssuerOrder();
    SortSorts(cis, IssuerLess);
    assert AreCanonIssuers(issuers, cis);
  }

  /** Two keys that tie without being equal give two canonical forms. */
  lemma TiedKeysSplit(v: Version, i: int)
    requires 0 <= i < |v.issuers| && !TiesCollapse(CanonKeys(v.issuers[i]), KeyLess)
    ensures !Determined(v)
  {
    var iss, keys := v.issuers[i], CanonKeys(v.issuers[i]);
    KeyOrder();
    UniqueIffTiesCollapse(keys, KeyLess);
    var a, b :| IsSortOf(a, keys, KeyLess) && IsSortOf(b, keys, KeyLess) && a != b;
    KeyOrderIsFree(v.issuers, i, a);
    KeyOrderIsFree(v.issuers, i, b);
    var cis := TheIssuers(v.issuers);
    var x, y := CanonIssuerOf(iss, a), CanonIssuerOf(iss, b);
    if Sort(cis[i := x], IssuerLess) == Sort(cis[i := y], IssuerLess) {
      BagPoint(cis, i, x, y);
      assert false;
    }
    TwoIssuerListsSplit(v, Sort(cis[i := x], IssuerLess), Sort(cis[i := y], IssuerLess));
  }

  lemma TiedIssuersSplit(v: Version)
    requires !TiesCollapse(TheIssuers(v.issuers), IssuerLess)
    ensures !Determined(v)
  {
    var cis := TheIssuers(v.issuers);
    IssuerOrder();
    UniqueIffTiesCollapse(cis, IssuerLess);
    var a, b :| IsSortOf(a, cis, IssuerLess) && IsSortOf(b, cis, IssuerLess) && a != b;
    TheCanonicalIsCanonical(v);
    assert AreCanonIssuers(v.issuers, cis);
    TwoIssuerListsSplit(v, a, b);
  }

  lemma TiedConsumersSplit(v: Version)
    requires !TiesCollapse(CanonConsumers(v.consumers), ConsumerLess)
    ensures !Determined(v)
  {
    ConsumerOrder();
    UniqueIffTiesCollapse(CanonConsumers(v.consumers), ConsumerLess);
    var a, b :| IsSortOf(a, CanonConsumers(v.consumers), ConsumerLess)
                && IsSortOf(b, CanonConsumers(v.consumers), ConsumerLess) && a != b;
    TheCanonicalIsCanonical(v);
    var c, d := TheCanonical(v).(consumers := a), TheCanonical(v).(consumers := b);
    assert IsCanonical(v, c) && IsCanonical(v, d);
  }

  lemma TiedEdgesSplit(v: Version)
    requires !TiesCollapse(CanonEdges(v), EdgeLess)
    ensures !Determined(v)
  {
    EdgeOrder();
    UniqueIffTiesCollapse(CanonEdges(v), EdgeLess);
    var a, b :| IsSortOf(a, CanonEdges(v), EdgeLess) && IsSortOf(b, CanonEdges(v), EdgeLess) && a != b;
    TheCanonicalIsCanonical(v);
    var c, d := TheCanonical(v).(edges := a), TheCanonical(v).(edges := b);
    assert IsCanonical(v, c) && IsCanonical(v, d);
  }

  /** The hash of a version is determined exactly when no two different things tie. */
  lemma HashIsDeterminedIff(v: Version)
    ensures Determined(v) <==> NoTies(v)
  {
    if NoTies(v) {
      forall c, d | IsCanonical(v, c) && IsCanonical(v, d)
        ensures c == d
      {
        NoTiesDetermines(v, c);
        NoTiesDetermines(v, d);
      }
    } else if !KeysSeparate(v.issuers) {
      var i :| 0 <= i < |v.issuers| && !TiesCollapse(CanonKeys(v.issuers[i]), KeyLess);
      TiedKeysSplit(v, i);
    } else if !TiesCollapse(TheIssuers(v.issuers), IssuerLess) {
      TiedIssuersSplit(v);
    } else if !TiesCollapse(CanonConsumers(v.consumers), ConsumerLess) {
      TiedConsumersSplit(v);
    } else {
      TiedEdgesSplit(v);
    }
  }

  /** Two published keys that differ only in key material, under one KID, algorithm and
      status: the version has two canonical forms, so its hash depends on the sort. */
  lemma SameKidDifferentKeyIsUnstable(v: Version, i: int, j: int, k: int)
    requires 0 <= i < |v.issuers| && 0 <= j < |v.issuers[i].keys| && 0 <= k < |v.issuers[i].keys|
    requires var a, b := v.issuers[i].keys[j], v.issuers[i].keys[k];
             a.kid == b.kid && a.alg == b.alg && a.status == b.status && a.pem != b.pem
    ensures !Determined(v)
  {
    var keys := CanonKeys(v.issuers[i]);
    KeysTie(keys[j], keys[k]);
    assert keys[j] in keys && keys[k] in keys && keys[j] != keys[k];
    TiedKeysSplit(v, i);
  }
}
