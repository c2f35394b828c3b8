/** What the canonical hash means: two versions share a canonical form exactly when they are
    the same up to order and volatile fields. */
module HashMeaning {
  import opened Prelude
  import opened Ordering
  import opened Domain
  import opened Canon
  import opened HashStability
  import opened BuildStability

  // ---- the same version, told on the records themselves --------------------------------------

  /** Issuers correspond one to one. */
  ghost predicate IssuersAgree(a: seq<Issuer>, b: seq<Issuer>) {
    exists c :: PairedIssuers(a, c) && multiset(c) == multiset(b)
  }

  ghost predicate PairedIssuers(a: seq<Issuer>, c: seq<Issuer>) {
    |c| == |a| && forall i :: 0 <= i < |a| ==> SameIssuer(a[i], c[i])
  }

  ghost predicate ConsumersAgree(a: seq<Consumer>, b: seq<Consumer>) {
    exists c :: PairedConsumers(a, c) && multiset(c) == multiset(b)
  }

  ghost predicate PairedConsumers(a: seq<Consumer>, c: seq<Consumer>) {
    |c| == |a| && forall i :: 0 <= i < |a| ==> SameConsumer(a[i], c[i])
  }

  /** The issuer ID stands for `url`: that of the last issuer with the ID, or nothing. */
  ghost predicate NamesURL(issuers: seq<Issuer>, id: string, url: string) {
    || (exists k :: LastNamed(issuers, id, k) && issuers[k].url == url)
    || (url == "" && forall k :: 0 <= k < |issuers| ==> issuers[k].id != id)
  }

  ghost predicate LastNamed(issuers: seq<Issuer>, id: string, k: int) {
    0 <= k < |issuers| && issuers[k].id == id && forall j :: k < j < |issuers| ==> issuers[j].id != id
  }

  ghost predicate NamesStableID(cs: seq<Consumer>, id: string, stableID: string) {
    || (exists k :: LastConsumer(cs, id, k) && cs[k].stableID == stableID)
    || (stableID == "" && forall k :: 0 <= k < |cs| ==> cs[k].id != id)
  }

  ghost predicate LastConsumer(cs: seq<Consumer>, id: string, k: int) {
    0 <= k < |cs| && cs[k].id == id && forall j :: k < j < |cs| ==> cs[j].id != id
  }

  /** The edges run between the same issuer URL and StableID, with the same expectations. */
  ghost predicate SameEdge(v: Version, e: Edge, w: Version, f: Edge) {
    && (exists url :: NamesURL(v.issuers, e.issuerID, url) && NamesURL(w.issuers, f.issuerID, url))
    && (exists id :: NamesStableID(v.consumers, e.consumerID, id) && NamesStableID(w.consumers, f.consumerID, id))
    && SameExpects(e.expects, f.expects)
  }

  ghost predicate PairedEdges(v: Version, w: Version, c: seq<Edge>) {
    |c| == |v.edges| && forall i :: 0 <= i < |c| ==> SameEdge(v, v.edges[i], w, c[i])
  }

  ghost predicate EdgesAgree(v: Version, w: Version) {
    exists c :: PairedEdges(v, w, c) && multiset(c) == multiset(w.edges)
  }

  /** The versions differ at most in order, volatile IDs, timestamps, provenance, confidence
      and what else is an observation. */
  ghost predicate SameVersion(v: Version, w: Version) {
    IssuersAgree(v.issuers, w.issuers) && ConsumersAgree(v.consumers, w.consumers) && EdgesAgree(v, w)
  }

  ghost predicate SharesForm(v: Version, w: Version) {
    exists c :: IsCanonical(v, c) && IsCanonical(w, c)
  }

  // ---- what a projection tells ----------------------------------------------------------------

  lemma SortTellsBag<T(!new)>(a: seq<T>, b: seq<T>, less: (T, T) -> bool)
    requires StrictWeak(less) && Sort(a, less) == Sort(b, less)
    ensures multiset(a) == multiset(b)
  {
    SortSorts(a, less);
    SortSorts(b, less);
  }

  lemma StringsTell(a: seq<string>, b: seq<string>)
    requires Sort(a, LexLess) == Sort(b, LexLess)
    ensures multiset(a) == multiset(b)
  {
    LexIsStrictWeak();
    SortTellsBag(a, b, LexLess);
  }

  lemma ExpectsTell(e: Expectations, f: Expectations)
    ensures CanonExpectOf(e) == CanonExpectOf(f) <==> SameExpects(e, f)
  {
    if CanonExpectOf(e) == CanonExpectOf(f) {
      StringsTell(e.issuers, f.issuers);
      StringsTell(e.audiences, f.audiences);
      StringsTell(e.algorithms, f.algorithms);
      StringsTell(e.requiredClaims, f.requiredClaims);
    }
    if SameExpects(e, f) {
      SameExpectsSameCanon(e, f);
    }
  }

  lemma ConsumerTells(c: Consumer, d: Consumer)
    ensures CanonConsumerOf(c) == CanonConsumerOf(d) <==> SameConsumer(c, d)
  {
    if CanonConsumerOf(c) == CanonConsumerOf(d) {
      EndpointOrder();
      SortTellsBag(c.endpoints, d.endpoints, EndpointLess);
      ExpectsTell(c.expects, d.expects);
    }
    if SameConsumer(c, d) {
      SameConsumerSameCanon(c, d);
    }
  }

  /** Issuers that may get one projection are the same, and the same issuers may. */
  lemma IssuerTells(a: Issuer, b: Issuer, ci: CanonIssuer)
    requires IsCanonIssuer(a, ci)
    ensures IsCanonIssuer(b, ci) <==> SameIssuer(a, b)
  {
    ClaimOrder();
    KeyFactsIff(a.keys, b.keys);
    ClaimFactsIff(a.claims, b.claims);
    if IsCanonIssuer(b, ci) {
      SortTellsBag(CanonClaims(a), CanonClaims(b), ClaimLess);
    }
    if SameIssuer(a, b) {
      SortDependsOnBag(CanonClaims(a), CanonClaims(b), ClaimLess);
    }
  }

  lemma {:induction false} URLOfIsNamed(issuers: seq<Issuer>, id: string)
    ensures NamesURL(issuers, id, URLOf(issuers, id))
  {
    if issuers != [] {
      var n := |issuers| - 1;
      var init := issuers[..n];
      if issuers[n].id == id {
        assert LastNamed(issuers, id, n);
      } else {
        URLOfIsNamed(init, id);
        if k :| LastNamed(init, id, k) && init[k].url == URLOf(init, id) {
          assert LastNamed(issuers, id, k);
        }
      }
    }
  }

  lemma {:induction false} StableIDOfIsNamed(cs: seq<Consumer>, id: string)
    ensures NamesStableID(cs, id, StableIDOf(cs, id))
  {
    if cs != [] {
      var n := |cs| - 1;
      var init := cs[..n];
      if cs[n].id == id {
        assert LastConsumer(cs, id, n);
      } else {
        StableIDOfIsNamed(init, id);
        if k :| LastConsumer(init, id, k) && init[k].stableID == StableIDOf(init, id) {
          assert LastConsumer(cs, id, k);
        }
      }
    }
  }

  lemma URLIsOne(issuers: seq<Issuer>, id: string, a: string, b: string)
    requires NamesURL(issuers, id, a) && NamesURL(issuers, id, b)
    ensures a == b
  {
    if k :| LastNamed(issuers, id, k) && issuers[k].url == a {
      if l :| LastNamed(issuers, id, l) && issuers[l].url == b {
      }
    }
  }

  lemma StableIDIsOne(cs: seq<Consumer>, id: string, a: string, b: string)
    requires NamesStableID(cs, id, a) && NamesStableID(cs, id, b)
    ensures a == b
  {
    if k :| LastConsumer(cs, id, k) && cs[k].stableID == a {
      if l :| LastConsumer(cs, id, l) && cs[l].stableID == b {
      }
    }
  }

  lemma SameURLIff(v: seq<Issuer>, i: string, w: seq<Issuer>, j: string)
    ensures URLOf(v, i) == URLOf(w, j) <==> exists url :: NamesURL(v, i, url) && NamesURL(w, j, url)
  {
    URLOfIsNamed(v, i);
    URLOfIsNamed(w, j);
    if url :| NamesURL(v, i, url) && NamesURL(w, j, url) {
      URLIsOne(v, i, url, URLOf(v, i));
      URLIsOne(w, j, url, URLOf(w, j));
    }
  }

  lemma SameStableIDIff(v: seq<Consumer>, i: string, w: seq<Consumer>, j: string)
    ensures StableIDOf(v, i) == StableIDOf(w, j) <==> exists id :: NamesStableID(v, i, id) && NamesStableID(w, j, id)
  {
    StableIDOfIsNamed(v, i);
    StableIDOfIsNamed(w, j);
    if id :| NamesStableID(v, i, id) && NamesStableID(w, j, id) {
      StableIDIsOne(v, i, id, StableIDOf(v, i));
      StableIDIsOne(w, j, id, StableIDOf(w, j));
    }
  }

  lemma EdgeTells(v: Version, e: Edge, w: Version, f: Edge)
    ensures CanonEdgeOf(v.issuers, v.consumers, e) == CanonEdgeOf(w.issuers, w.consumers, f) <==> SameEdge(v, e, w, f)
  {
    SameURLIff(v.issuers, e.issuerID, w.issuers, f.issuerID);
    SameStableIDIff(v.consumers, e.consumerID, w.consumers, f.consumerID);
    ExpectsTell(e.expects, f.expects);
  }

  // ---- the three parts ----------------------------------------------------------------------------

  lemma ConsumersShareIff(a: seq<Consumer>, b: seq<Consumer>)
    ensures multiset(CanonConsumers(a)) == multiset(CanonConsumers(b)) <==> ConsumersAgree(a, b)
  {
    if multiset(CanonConsumers(a)) == multiset(CanonConsumers(b)) {
      var c := BagMatch(CanonConsumerOf, a, CanonConsumerOf, b);
      forall i | 0 <= i < |a|
        ensures SameConsumer(a[i], c[i])
      {
        ConsumerTells(a[i], c[i]);
      }
      assert PairedConsumers(a, c);
    }
    if c :| PairedConsumers(a, c) && multiset(c) == multiset(b) {
      forall i | 0 <= i < |a|
        ensures CanonConsumerOf(a[i]) == CanonConsumerOf(c[i])
      {
        ConsumerTells(a[i], c[i]);
      }
      assert CanonConsumers(a) == CanonConsumers(c);
      MapBag(CanonConsumerOf, c, b);
    }
  }

  function EdgeIn(v: Version): Edge -> CanonEdge {
    (e: Edge) => CanonEdgeOf(v.issuers, v.consumers, e)
  }

  lemma EdgesMatch(v: Version, w: Version)
    requires multiset(CanonEdges(v)) == multiset(CanonEdges(w))
    ensures EdgesAgree(v, w)
  {
    assert CanonEdges(v) == Map(EdgeIn(v), v.edges) && CanonEdges(w) == Map(EdgeIn(w), w.edges);
    var c := BagMatch(EdgeIn(v), v.edges, EdgeIn(w), w.edges);
    forall i | 0 <= i < |c|
      ensures SameEdge(v, v.edges[i], w, c[i])
    {
      EdgeTells(v, v.edges[i], w, c[i]);
    }
    assert PairedEdges(v, w, c);
  }

  lemma EdgesShareIff(v: Version, w: Version)
    ensures multiset(CanonEdges(v)) == multiset(CanonEdges(w)) <==> EdgesAgree(v, w)
  {
    if multiset(CanonEdges(v)) == multiset(CanonEdges(w)) {
      EdgesMatch(v, w);
    }
    if c :| PairedEdges(v, w, c) && multiset(c) == multiset(w.edges) {
      PairedEdgesShare(v, w, c);
    }
  }

  lemma PairedEdgesShare(v: Version, w: Version, c: seq<Edge>)
    requires PairedEdges(v, w, c) && multiset(c) == multiset(w.edges)
    ensures multiset(CanonEdges(v)) == multiset(CanonEdges(w))
  {
    forall i | 0 <= i < |c|
      ensures EdgeIn(v)(v.edges[i]) == EdgeIn(w)(c[i])
    {
      EdgeTells(v, v.edges[i], w, c[i]);
    }
    assert Map(EdgeIn(v), v.edges) == Map(EdgeIn(w), c);
    MapBag(EdgeIn(w), c, w.edges);
    assert CanonEdges(v) == Map(EdgeIn(v), v.edges) && CanonEdges(w) == Map(EdgeIn(w), w.edges);
  }

  /** Projections of `b`, in the order of those of `a`: the issuers of `b` in that order. */
  lemma SharedIssuersAgree(a: seq<Issuer>, b: seq<Issuer>, as_: seq<CanonIssuer>, bs: seq<CanonIssuer>)
    requires AreCanonIssuers(a, as_) && AreCanonIssuers(b, bs) && multiset(as_) == multiset(bs)
    ensures IssuersAgree(a, b)
  {
    var zs := Zip(b, bs);
    assert Seconds(zs) == bs && Firsts(zs) == b;
    var out := Realign(zs, as_);
    FirstsBag(out, zs);
    var c := Firsts(out);
    assert |out| == |Seconds(out)| == |as_|;
    SameMembers(out, zs);
    forall i | 0 <= i < |a|
      ensures SameIssuer(a[i], c[i])
    {
      assert out[i] in zs && out[i].1 == Seconds(out)[i] == as_[i];
      IssuerTells(a[i], c[i], as_[i]);
    }
    assert PairedIssuers(a, c);
  }

  lemma AgreedIssuersShare(a: seq<Issuer>, b: seq<Issuer>, c: seq<Issuer>, as_: seq<CanonIssuer>) returns (bs: seq<CanonIssuer>)
    requires PairedIssuers(a, c) && multiset(c) == multiset(b) && AreCanonIssuers(a, as_)
    ensures AreCanonIssuers(b, bs) && multiset(bs) == multiset(as_)
  {
    var zs := Zip(as_, c);
    assert Seconds(zs) == c && Firsts(zs) == as_;
    var out := Realign(zs, b);
    FirstsBag(out, zs);
    bs := Firsts(out);
    assert |out| == |Seconds(out)| == |b|;
    SameMembers(out, zs);
    forall i | 0 <= i < |b|
      ensures IsCanonIssuer(b[i], bs[i])
    {
      assert out[i] in zs && out[i].1 == Seconds(out)[i] == b[i];
      var k :| 0 <= k < |zs| && zs[k] == out[i];
      IssuerTells(a[k], c[k], as_[k]);
    }
  }

  ghost predicate IssuersShare(a: seq<Issuer>, b: seq<Issuer>) {
    exists out :: IsCanonIssuers(a, out) && IsCanonIssuers(b, out)
  }

  lemma IssuersShareIff(a: seq<Issuer>, b: seq<Issuer>)
    ensures IssuersShare(a, b) <==> IssuersAgree(a, b)
  {
    if out :| IsCanonIssuers(a, out) && IsCanonIssuers(b, out) {
      var as_ :| AreCanonIssuers(a, as_) && IsSortOf(out, as_, IssuerLess);
      var bs :| AreCanonIssuers(b, bs) && IsSortOf(out, bs, IssuerLess);
      SharedIssuersAgree(a, b, as_, bs);
    }
    if c :| PairedIssuers(a, c) && multiset(c) == multiset(b) {
      AgreedShare(a, b, c);
    }
  }

  lemma AgreedShare(a: seq<Issuer>, b: seq<Issuer>, c: seq<Issuer>)
    requires PairedIssuers(a, c) && multiset(c) == multiset(b)
    ensures IssuersShare(a, b)
  {
    var as_ := TheIssuers(a);
    forall i | 0 <= i < |a|
      ensures IsCanonIssuer(a[i], as_[i])
    {
      TheIssuerIsCanonical(a[i]);
    }
    var bs := AgreedIssuersShare(a, b, c, as_);
    IssuerOrder();
    SortSorts(as_, IssuerLess);
    var out := Sort(as_, IssuerLess);
    assert IsSortOf(out, as_, IssuerLess) && IsSortOf(out, bs, IssuerLess);
    assert IsCanonIssuers(a, out) && IsCanonIssuers(b, out);
  }

  // ---- the theorem -----------------------------------------------------------------------------------

  lemma FormsShare(v: Version, w: Version)
    requires IssuersShare(v.issuers, w.issuers)
    requires multiset(CanonConsumers(v.consumers)) == multiset(CanonConsumers(w.consumers))
    requires multiset(CanonEdges(v)) == multiset(CanonEdges(w))
    ensures SharesForm(v, w)
  {
    var issuers :| IsCanonIssuers(v.issuers, issuers) && IsCanonIssuers(w.issuers, issuers);
    ConsumerOrder();
    EdgeOrder();
    SortSorts(CanonConsumers(v.consumers), ConsumerLess);
    SortSorts(CanonEdges(v), EdgeLess);
    var c := CanonContract(issuers, Sort(CanonConsumers(v.consumers), ConsumerLess), Sort(CanonEdges(v), EdgeLess));
    assert IsCanonical(v, c) && IsCanonical(w, c);
  }

  /** Two versions share a canonical form exactly when they are the same up to order and
      volatile fields, whatever ties. */
  lemma SharesFormIff(v: Version, w: Version)
    ensures SharesForm(v, w) <==> SameVersion(v, w)
  {
    IssuersShareIff(v.issuers, w.issuers);
    ConsumersShareIff(v.consumers, w.consumers);
    EdgesShareIff(v, w);
    if c :| IsCanonical(v, c) && IsCanonical(w, c) {
      assert IssuersShare(v.issuers, w.issuers);
    }
    if SameVersion(v, w) {
      FormsShare(v, w);
    }
  }

  /** The hash is that of one of the version's canonical forms. */
  ghost predicate IsHashed(v: Version) {
    v.hash.Digest? && IsCanonical(v, v.hash.of)
  }

  /** Equal hashes mean the same version up to order and volatile fields; and where nothing
      different ties, the same version has an equal hash. */
  lemma EqualHashIff(v: Version, w: Version)
    requires IsHashed(v) && IsHashed(w)
    ensures v.hash == w.hash ==> SameVersion(v, w)
    ensures NoTies(v) && NoTies(w) ==> (v.hash == w.hash <==> SameVersion(v, w))
  {
    SharesFormIff(v, w);
    if NoTies(v) && NoTies(w) && SameVersion(v, w) {
      var c :| IsCanonical(v, c) && IsCanonical(w, c);
      NoTiesDetermines(v, c);
      NoTiesDetermines(w, c);
      NoTiesDetermines(v, v.hash.of);
      NoTiesDetermines(w, w.hash.of);
    }
  }
}
