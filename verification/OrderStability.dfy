/** When the canonical hash of a version ignores the order its parts are listed in. */
module OrderStability {
  import opened Prelude
  import opened Ordering
  import opened Domain
  import opened Canon
  import opened HashStability
  import opened BuildStability

  // ---- the same version in another order ----------------------------------------------

  ghost predicate SameIssuers(a: seq<Issuer>, b: seq<Issuer>) {
    |a| == |b| && forall i :: 0 <= i < |a| ==> SameIssuer(a[i], b[i]) && a[i].id == b[i].id
  }

  ghost predicate SameConsumers(a: seq<Consumer>, b: seq<Consumer>) {
    |a| == |b| && forall i :: 0 <= i < |a| ==> SameConsumer(a[i], b[i]) && a[i].id == b[i].id
  }

  ghost predicate SameEdges(a: seq<Edge>, b: seq<Edge>) {
    |a| == |b| && forall i :: 0 <= i < |a| ==>
      a[i].issuerID == b[i].issuerID && a[i].consumerID == b[i].consumerID && SameExpects(a[i].expects, b[i].expects)
  }

  ghost predicate IssuersRearranged(a: seq<Issuer>, b: seq<Issuer>) {
    exists c :: SameIssuers(a, c) && multiset(c) == multiset(b)
  }

  ghost predicate ConsumersRearranged(a: seq<Consumer>, b: seq<Consumer>) {
    exists c :: SameConsumers(a, c) && multiset(c) == multiset(b)
  }

  ghost predicate EdgesRearranged(a: seq<Edge>, b: seq<Edge>) {
    exists c :: SameEdges(a, c) && multiset(c) == multiset(b)
  }

  /** Issuers, consumers and edges are listed in another order, and so may be the keys,
      claims, endpoints and expectations inside each; IDs stay, volatile fields may change. */
  ghost predicate Rearranged(v: Version, w: Version) {
    IssuersRearranged(v.issuers, w.issuers) && ConsumersRearranged(v.consumers, w.consumers) && EdgesRearranged(v.edges, w.edges)
  }

  /** However `v` is rearranged and whatever the sorts do with ties: one canonical form. */
  ghost predicate OrderFree(v: Version) {
    forall w, c, d :: Rearranged(v, w) && IsCanonical(v, c) && IsCanonical(w, d) ==> c == d
  }

  /** Issuers that share an ID some edge uses share the URL. */
  ghost predicate UsedIssuersAgree(v: Version) {
    forall e, x, y :: e in v.edges && x in v.issuers && y in v.issuers && x.id == y.id == e.issuerID ==>
      x.url == y.url
  }

  /** Consumers that share an ID some edge uses share the StableID. */
  ghost predicate UsedConsumersAgree(v: Version) {
    forall e, x, y :: e in v.edges && x in v.consumers && y in v.consumers && x.id == y.id == e.consumerID ==>
      x.stableID == y.stableID
  }

  ghost predicate UsedIDsAgree(v: Version) {
    UsedIssuersAgree(v) && UsedConsumersAgree(v)
  }

  // ---- the last entry of a name ----------------------------------------------------------

  datatype Entry = Entry(id: string, value: string)

  function Last(es: seq<Entry>, id: string): string {
    if es == [] then ""
    else if es[|es| - 1].id == id then es[|es| - 1].value
    else Last(es[..|es| - 1], id)
  }

  function URLEntry(iss: Issuer): Entry {
    Entry(iss.id, iss.url)
  }

  function StableIDEntry(c: Consumer): Entry {
    Entry(c.id, c.stableID)
  }

  lemma {:induction false} URLOfIsLast(issuers: seq<Issuer>, id: string)
    ensures URLOf(issuers, id) == Last(Map(URLEntry, issuers), id)
  {
    if issuers != [] {
      URLOfIsLast(issuers[..|issuers| - 1], id);
      assert Map(URLEntry, issuers)[..|issuers| - 1] == Map(URLEntry, issuers[..|issuers| - 1]);
    }
  }

  lemma {:induction false} StableIDOfIsLast(cs: seq<Consumer>, id: string)
    ensures StableIDOf(cs, id) == Last(Map(StableIDEntry, cs), id)
  {
    if cs != [] {
      StableIDOfIsLast(cs[..|cs| - 1], id);
      assert Map(StableIDEntry, cs)[..|cs| - 1] == Map(StableIDEntry, cs[..|cs| - 1]);
    }
  }

  lemma {:induction false} LastIsListed(es: seq<Entry>, id: string)
    ensures (exists x :: x in es && x.id == id) ==> Entry(id, Last(es, id)) in es
    ensures (forall x :: x in es ==> x.id != id) ==> Last(es, id) == ""
  {
    if es != [] {
      LastIsListed(es[..|es| - 1], id);
      assert es == es[..|es| - 1] + [es[|es| - 1]];
    }
  }

  /** Where the entries of a name agree, order does not matter. */
  lemma LastIgnoresOrder(a: seq<Entry>, b: seq<Entry>, id: string)
    requires multiset(a) == multiset(b)
    requires forall x, y :: x in a && y in a && x.id == y.id == id ==> x.value == y.value
    ensures Last(a, id) == Last(b, id)
  {
    SameMembers(a, b);
    LastIsListed(a, id);
    LastIsListed(b, id);
    if x :| x in a && x.id == id {
      assert Entry(id, Last(a, id)) in a && Entry(id, Last(b, id)) in a;
    }
  }

  /** `s` with the element at `k` listed last. */
  function MovedLast<T>(s: seq<T>, k: nat): seq<T>
    requires k < |s|
  {
    s[..k] + s[k + 1..] + [s[k]]
  }

  lemma MovedLastBag<T>(s: seq<T>, k: nat)
    requires k < |s|
    ensures multiset(MovedLast(s, k)) == multiset(s)
  {
    assert s == s[..k] + [s[k]] + s[k + 1..];
  }

  lemma {:induction false} LastWithout(es: seq<Entry>, k: nat, id: string)
    requires k < |es| && es[k].id != id
    ensures Last(es[..k] + es[k + 1..], id) == Last(es, id)
  {
    var n := |es| - 1;
    var rest := es[..k] + es[k + 1..];
    if k < n {
      LastWithout(es[..n], k, id);
      assert rest[|rest| - 1] == es[n] && rest[..|rest| - 1] == es[..n][..k] + es[..n][k + 1..];
    } else {
      assert rest == es[..n];
    }
  }

  lemma LastOfMoved(es: seq<Entry>, k: nat, id: string)
    requires k < |es|
    ensures Last(MovedLast(es, k), id) == if es[k].id == id then es[k].value else Last(es, id)
  {
    var moved := MovedLast(es, k);
    assert moved[|moved| - 1] == es[k] && moved[..|moved| - 1] == es[..k] + es[k + 1..];
    if es[k].id != id {
      LastWithout(es, k, id);
    }
  }

  /** Entries of one name that disagree: listing one of them last changes the answer. */
  lemma DisagreeingMoves(es: seq<Entry>, x: Entry, y: Entry) returns (k: nat)
    requires x in es && y in es && x.id == y.id && x.value != y.value
    ensures k < |es| && es[k].id == x.id && es[k].value != Last(es, x.id)
  {
    var i :| 0 <= i < |es| && es[i] == x;
    var j :| 0 <= j < |es| && es[j] == y;
    k := if x.value != Last(es, x.id) then i else j;
  }

  // ---- enough ----------------------------------------------------------------------------------

  lemma SameKeysSeparate(a: Issuer, b: Issuer)
    requires SameIssuer(a, b) && TiesCollapse(CanonKeys(a), KeyLess)
    ensures TiesCollapse(CanonKeys(b), KeyLess)
  {
    SameIssuerSameParts(a, b);
    SameMembers(CanonKeys(a), CanonKeys(b));
  }

  lemma SameIssuersSameCanon(a: seq<Issuer>, b: seq<Issuer>)
    requires SameIssuers(a, b) && KeysSeparate(a)
    ensures KeysSeparate(b) && TheIssuers(a) == TheIssuers(b) && Map(URLEntry, a) == Map(URLEntry, b)
  {
    forall i | 0 <= i < |a|
      ensures TheIssuer(a[i]) == TheIssuer(b[i]) && TiesCollapse(CanonKeys(b[i]), KeyLess)
    {
      SameKeysSeparate(a[i], b[i]);
      SameIssuerSameCanon(a[i], b[i]);
    }
  }

  lemma KeysStaySeparate(a: seq<Issuer>, b: seq<Issuer>)
    requires multiset(a) == multiset(b) && KeysSeparate(a)
    ensures KeysSeparate(b)
  {
    SameMembers(a, b);
    forall i | 0 <= i < |b|
      ensures TiesCollapse(CanonKeys(b[i]), KeyLess)
    {
      assert b[i] in a;
      var j :| 0 <= j < |a| && a[j] == b[i];
    }
  }

  lemma RearrangedIssuers(a: seq<Issuer>, b: seq<Issuer>)
    requires IssuersRearranged(a, b) && KeysSeparate(a)
    ensures KeysSeparate(b) && multiset(TheIssuers(a)) == multiset(TheIssuers(b))
    ensures multiset(Map(URLEntry, a)) == multiset(Map(URLEntry, b))
  {
    var c :| SameIssuers(a, c) && multiset(c) == multiset(b);
    SameIssuersSameCanon(a, c);
    KeysStaySeparate(c, b);
    MapBag(TheIssuer, c, b);
    MapBag(URLEntry, c, b);
  }

  lemma SameConsumersSameCanon(a: seq<Consumer>, b: seq<Consumer>)
    requires SameConsumers(a, b)
    ensures CanonConsumers(a) == CanonConsumers(b) && Map(StableIDEntry, a) == Map(StableIDEntry, b)
  {
    forall i | 0 <= i < |a|
      ensures CanonConsumerOf(a[i]) == CanonConsumerOf(b[i])
    {
      SameConsumerSameCanon(a[i], b[i]);
    }
  }

  lemma RearrangedConsumers(a: seq<Consumer>, b: seq<Consumer>)
    requires ConsumersRearranged(a, b)
    ensures multiset(CanonConsumers(a)) == multiset(CanonConsumers(b))
    ensures multiset(Map(StableIDEntry, a)) == multiset(Map(StableIDEntry, b))
  {
    var c :| SameConsumers(a, c) && multiset(c) == multiset(b);
    SameConsumersSameCanon(a, c);
    MapBag(CanonConsumerOf, c, b);
    MapBag(StableIDEntry, c, b);
  }

  lemma URLStays(a: seq<Issuer>, b: seq<Issuer>, id: string)
    requires multiset(Map(URLEntry, a)) == multiset(Map(URLEntry, b))
    requires forall x, y :: x in a && y in a && x.id == y.id == id ==> x.url == y.url
    ensures URLOf(a, id) == URLOf(b, id)
  {
    URLOfIsLast(a, id);
    URLOfIsLast(b, id);
    LastIgnoresOrder(Map(URLEntry, a), Map(URLEntry, b), id);
  }

  lemma StableIDStays(a: seq<Consumer>, b: seq<Consumer>, id: string)
    requires multiset(Map(StableIDEntry, a)) == multiset(Map(StableIDEntry, b))
    requires forall x, y :: x in a && y in a && x.id == y.id == id ==> x.stableID == y.stableID
    ensures StableIDOf(a, id) == StableIDOf(b, id)
  {
    StableIDOfIsLast(a, id);
    StableIDOfIsLast(b, id);
    LastIgnoresOrder(Map(StableIDEntry, a), Map(StableIDEntry, b), id);
  }

  /** Under `w` the edges of `v` resolve as under `v`. */
  ghost predicate ResolveAlike(v: Version, w: Version) {
    forall e :: e in v.edges ==>
      && URLOf(v.issuers, e.issuerID) == URLOf(w.issuers, e.issuerID)
      && StableIDOf(v.consumers, e.consumerID) == StableIDOf(w.consumers, e.consumerID)
  }

  lemma UsedResolveAlike(v: Version, w: Version)
    requires UsedIDsAgree(v)
    requires multiset(Map(URLEntry, v.issuers)) == multiset(Map(URLEntry, w.issuers))
    requires multiset(Map(StableIDEntry, v.consumers)) == multiset(Map(StableIDEntry, w.consumers))
    ensures ResolveAlike(v, w)
  {
    forall e | e in v.edges
      ensures URLOf(v.issuers, e.issuerID) == URLOf(w.issuers, e.issuerID)
      ensures StableIDOf(v.consumers, e.consumerID) == StableIDOf(w.consumers, e.consumerID)
    {
      URLStays(v.issuers, w.issuers, e.issuerID);
      StableIDStays(v.consumers, w.consumers, e.consumerID);
    }
  }

  lemma SameEdgesSameCanon(v: Version, w: Version, edges: seq<Edge>)
    requires ResolveAlike(v, w) && SameEdges(v.edges, edges)
    ensures CanonEdges(v) == Map((e: Edge) => CanonEdgeOf(w.issuers, w.consumers, e), edges)
  {
    forall i | 0 <= i < |edges|
      ensures CanonEdges(v)[i] == CanonEdgeOf(w.issuers, w.consumers, edges[i])
    {
      assert v.edges[i] in v.edges;
      SameExpectsSameCanon(v.edges[i].expects, edges[i].expects);
    }
  }

  lemma RearrangedEdges(v: Version, w: Version)
    requires ResolveAlike(v, w) && EdgesRearranged(v.edges, w.edges)
    ensures multiset(CanonEdges(v)) == multiset(CanonEdges(w))
  {
    var edges :| SameEdges(v.edges, edges) && multiset(edges) == multiset(w.edges);
    SameEdgesSameCanon(v, w, edges);
    MapBag((e: Edge) => CanonEdgeOf(w.issuers, w.consumers, e), edges, w.edges);
  }

  lemma BagKeepsTies<T>(a: seq<T>, b: seq<T>, less: (T, T) -> bool)
    requires multiset(a) == multiset(b) && TiesCollapse(a, less)
    ensures TiesCollapse(b, less)
  {
    SameMembers(a, b);
  }

  lemma RearrangedHasOneForm(v: Version, w: Version)
    requires Rearranged(v, w) && NoTies(v) && UsedIDsAgree(v)
    ensures NoTies(w) && TheCanonical(v) == TheCanonical(w)
  {
    RearrangedIssuers(v.issuers, w.issuers);
    RearrangedConsumers(v.consumers, w.consumers);
    UsedResolveAlike(v, w);
    RearrangedEdges(v, w);
    SameBagsSameForm(v, w);
  }

  lemma SameBagsSameForm(v: Version, w: Version)
    requires NoTies(v) && KeysSeparate(w.issuers)
    requires multiset(TheIssuers(v.issuers)) == multiset(TheIssuers(w.issuers))
    requires multiset(CanonConsumers(v.consumers)) == multiset(CanonConsumers(w.consumers))
    requires multiset(CanonEdges(v)) == multiset(CanonEdges(w))
    ensures NoTies(w) && TheCanonical(v) == TheCanonical(w)
  {
    BagKeepsTies(TheIssuers(v.issuers), TheIssuers(w.issuers), IssuerLess);
    BagKeepsTies(CanonConsumers(v.consumers), CanonConsumers(w.consumers), ConsumerLess);
    BagKeepsTies(CanonEdges(v), CanonEdges(w), EdgeLess);
    IssuerOrder();
    ConsumerOrder();
    EdgeOrder();
    SortDependsOnBag(TheIssuers(v.issuers), TheIssuers(w.issuers), IssuerLess);
    SortDependsOnBag(CanonConsumers(v.consumers), CanonConsumers(w.consumers), ConsumerLess);
    SortDependsOnBag(CanonEdges(v), CanonEdges(w), EdgeLess);
  }

  // ---- needed ----------------------------------------------------------------------------------

  lemma SameToItself(v: Version)
    ensures SameIssuers(v.issuers, v.issuers) && SameConsumers(v.consumers, v.consumers)
    ensures SameEdges(v.edges, v.edges)
  {
  }

  lemma ReorderedIsRearranged(v: Version, issuers: seq<Issuer>, consumers: seq<Consumer>)
    requires multiset(issuers) == multiset(v.issuers) && multiset(consumers) == multiset(v.consumers)
    ensures Rearranged(v, v.(issuers := issuers, consumers := consumers))
  {
    SameToItself(v);
  }

  /** Where names that were `old` now are `fresh` and nothing else changed, there are fewer
      of `old`. */
  lemma {:induction false} RenamedIsRarer(was: seq<string>, now: seq<string>, from: string)
    requires |was| == |now|
    requires forall i :: 0 <= i < |was| ==> now[i] == was[i] || was[i] == from != now[i]
    ensures multiset(now)[from] <= multiset(was)[from]
    ensures (exists i :: 0 <= i < |was| && now[i] != was[i]) ==> multiset(now)[from] < multiset(was)[from]
  {
    if was != [] {
      var n := |was| - 1;
      RenamedIsRarer(was[..n], now[..n], from);
      assert was == was[..n] + [was[n]] && now == now[..n] + [now[n]];
    }
  }

  lemma RenamedIsAnother(was: seq<string>, now: seq<string>, from: string, i: nat)
    requires |was| == |now| && i < |was| && now[i] != was[i]
    requires forall i :: 0 <= i < |was| ==> now[i] == was[i] || was[i] == from != now[i]
    ensures multiset(now) != multiset(was)
  {
    RenamedIsRarer(was, now, from);
  }

  /** One thing read off the edges changes from `from` for some and stays for the others. */
  ghost predicate Renames(v: Version, w: Version, read: CanonEdge -> string, from: string) {
    && |CanonEdges(v)| == |CanonEdges(w)|
    && (forall j :: 0 <= j < |CanonEdges(v)| ==>
          || read(CanonEdges(w)[j]) == read(CanonEdges(v)[j])
          || read(CanonEdges(v)[j]) == from != read(CanonEdges(w)[j]))
    && (exists j :: 0 <= j < |CanonEdges(v)| && read(CanonEdges(v)[j]) != read(CanonEdges(w)[j]))
  }

  lemma RenamedEdgesDiffer(v: Version, w: Version, read: CanonEdge -> string, from: string)
    requires Renames(v, w, read, from)
    ensures multiset(CanonEdges(v)) != multiset(CanonEdges(w))
  {
    var was, now := Map(read, CanonEdges(v)), Map(read, CanonEdges(w));
    var i :| 0 <= i < |CanonEdges(v)| && read(CanonEdges(v)[i]) != read(CanonEdges(w)[i]);
    RenamedIsAnother(was, now, from, i);
    if multiset(CanonEdges(v)) == multiset(CanonEdges(w)) {
      MapBag(read, CanonEdges(v), CanonEdges(w));
      assert false;
    }
  }

  ghost predicate NoSharedForm(v: Version, w: Version) {
    forall c :: !(IsCanonical(v, c) && IsCanonical(w, c))
  }

  lemma OtherEdgesNoSharedForm(v: Version, w: Version)
    requires multiset(CanonEdges(v)) != multiset(CanonEdges(w))
    ensures NoSharedForm(v, w)
  {
  }

  lemma MovedEntries<T>(entry: T -> Entry, s: seq<T>, k: nat)
    requires k < |s|
    ensures Map(entry, MovedLast(s, k)) == MovedLast(Map(entry, s), k)
  {
  }

  lemma URLOfMoved(issuers: seq<Issuer>, k: nat, id: string)
    requires k < |issuers|
    ensures URLOf(MovedLast(issuers, k), id) == if issuers[k].id == id then issuers[k].url else URLOf(issuers, id)
  {
    URLOfIsLast(issuers, id);
    URLOfIsLast(MovedLast(issuers, k), id);
    MovedEntries(URLEntry, issuers, k);
    LastOfMoved(Map(URLEntry, issuers), k, id);
  }

  lemma StableIDOfMoved(cs: seq<Consumer>, k: nat, id: string)
    requires k < |cs|
    ensures StableIDOf(MovedLast(cs, k), id) == if cs[k].id == id then cs[k].stableID else StableIDOf(cs, id)
  {
    StableIDOfIsLast(cs, id);
    StableIDOfIsLast(MovedLast(cs, k), id);
    MovedEntries(StableIDEntry, cs, k);
    LastOfMoved(Map(StableIDEntry, cs), k, id);
  }

  /** Of two issuers of one ID and two URLs, one is not what the ID resolves to. */
  lemma HiddenIssuer(issuers: seq<Issuer>, x: Issuer, y: Issuer) returns (k: nat)
    requires x in issuers && y in issuers && x.id == y.id && x.url != y.url
    ensures k < |issuers| && issuers[k].id == x.id && issuers[k].url != URLOf(issuers, x.id)
  {
    InMap(URLEntry, issuers, x);
    InMap(URLEntry, issuers, y);
    URLOfIsLast(issuers, x.id);
    k := DisagreeingMoves(Map(URLEntry, issuers), URLEntry(x), URLEntry(y));
  }

  lemma HiddenConsumer(cs: seq<Consumer>, x: Consumer, y: Consumer) returns (k: nat)
    requires x in cs && y in cs && x.id == y.id && x.stableID != y.stableID
    ensures k < |cs| && cs[k].id == x.id && cs[k].stableID != StableIDOf(cs, x.id)
  {
    InMap(StableIDEntry, cs, x);
    InMap(StableIDEntry, cs, y);
    StableIDOfIsLast(cs, x.id);
    k := DisagreeingMoves(Map(StableIDEntry, cs), StableIDEntry(x), StableIDEntry(y));
  }

  /** An edge used through an issuer ID of two URLs: listing the hidden issuer last gives
      other canonical forms. */
  lemma SharedIssuerIDSplits(v: Version, e: Edge, x: Issuer, y: Issuer) returns (w: Version)
    requires e in v.edges && x in v.issuers && y in v.issuers && x.id == y.id == e.issuerID && x.url != y.url
    ensures Rearranged(v, w) && NoSharedForm(v, w)
  {
    var k := HiddenIssuer(v.issuers, x, y);
    w := v.(issuers := MovedLast(v.issuers, k));
    MovedLastBag(v.issuers, k);
    ReorderedIsRearranged(v, w.issuers, w.consumers);
    MovedIssuerRenames(v, w, k, e);
    RenamedEdgesDiffer(v, w, (ce: CanonEdge) => ce.issuerURL, URLOf(v.issuers, x.id));
    OtherEdgesNoSharedForm(v, w);
  }

  lemma MovedIssuerRenames(v: Version, w: Version, k: nat, e: Edge)
    requires e in v.edges && k < |v.issuers| && w == v.(issuers := MovedLast(v.issuers, k))
    requires v.issuers[k].id == e.issuerID && v.issuers[k].url != URLOf(v.issuers, e.issuerID)
    ensures Renames(v, w, (ce: CanonEdge) => ce.issuerURL, URLOf(v.issuers, e.issuerID))
  {
    forall id
      ensures URLOf(w.issuers, id) == if v.issuers[k].id == id then v.issuers[k].url else URLOf(v.issuers, id)
    {
      URLOfMoved(v.issuers, k, id);
    }
    var i :| 0 <= i < |v.edges| && v.edges[i] == e;
    assert CanonEdges(v)[i].issuerURL != CanonEdges(w)[i].issuerURL;
  }

  lemma SharedConsumerIDSplits(v: Version, e: Edge, x: Consumer, y: Consumer) returns (w: Version)
    requires e in v.edges && x in v.consumers && y in v.consumers
    requires x.id == y.id == e.consumerID && x.stableID != y.stableID
    ensures Rearranged(v, w) && NoSharedForm(v, w)
  {
    var k := HiddenConsumer(v.consumers, x, y);
    w := v.(consumers := MovedLast(v.consumers, k));
    MovedLastBag(v.consumers, k);
    ReorderedIsRearranged(v, w.issuers, w.consumers);
    MovedConsumerRenames(v, w, k, e);
    RenamedEdgesDiffer(v, w, (ce: CanonEdge) => ce.stableID, StableIDOf(v.consumers, x.id));
    OtherEdgesNoSharedForm(v, w);
  }

  lemma MovedConsumerRenames(v: Version, w: Version, k: nat, e: Edge)
    requires e in v.edges && k < |v.consumers| && w == v.(consumers := MovedLast(v.consumers, k))
    requires v.consumers[k].id == e.consumerID && v.consumers[k].stableID != StableIDOf(v.consumers, e.consumerID)
    ensures Renames(v, w, (ce: CanonEdge) => ce.stableID, StableIDOf(v.consumers, e.consumerID))
  {
    forall id
      ensures StableIDOf(w.consumers, id)
              == if v.consumers[k].id == id then v.consumers[k].stableID else StableIDOf(v.consumers, id)
    {
      StableIDOfMoved(v.consumers, k, id);
    }
    var i :| 0 <= i < |v.edges| && v.edges[i] == e;
    assert CanonEdges(v)[i].stableID != CanonEdges(w)[i].stableID;
  }

  lemma SplitIsNotFree(v: Version, w: Version)
    requires Rearranged(v, w) && NoSharedForm(v, w)
    ensures !OrderFree(v)
  {
    TheCanonicalIsCanonical(v);
    TheCanonicalIsCanonical(w);
    assert IsCanonical(v, TheCanonical(v)) && IsCanonical(w, TheCanonical(w));
  }

  lemma FreeIsDetermined(v: Version)
    requires OrderFree(v)
    ensures NoTies(v)
  {
    ReorderedIsRearranged(v, v.issuers, v.consumers);
    assert v.(issuers := v.issuers, consumers := v.consumers) == v;
    HashIsDeterminedIff(v);
  }

  /** The canonical form, and so the hash, ignores the order of issuers, consumers, edges and
      of every list inside them exactly when no two different things tie and IDs that edges
      use resolve one way. */
  lemma HashIgnoresOrderIff(v: Version)
    ensures OrderFree(v) <==> NoTies(v) && UsedIDsAgree(v)
  {
    if NoTies(v) && UsedIDsAgree(v) {
      forall w, c, d | Rearranged(v, w) && IsCanonical(v, c) && IsCanonical(w, d)
        ensures c == d
      {
        RearrangedHasOneForm(v, w);
        NoTiesDetermines(v, c);
        NoTiesDetermines(w, d);
      }
    } else if OrderFree(v) {
      FreeIsDetermined(v);
      UnusedOrSplit(v);
    }
  }

  lemma UnusedOrSplit(v: Version)
    requires !UsedIDsAgree(v)
    ensures !OrderFree(v)
  {
    if !UsedIssuersAgree(v) {
      var e, x, y :| e in v.edges && x in v.issuers && y in v.issuers && x.id == y.id == e.issuerID && x.url != y.url;
      var w := SharedIssuerIDSplits(v, e, x, y);
      SplitIsNotFree(v, w);
    } else {
      var e, x, y :| e in v.edges && x in v.consumers && y in v.consumers
                     && x.id == y.id == e.consumerID && x.stableID != y.stableID;
      var w := SharedConsumerIDSplits(v, e, x, y);
      SplitIsNotFree(v, w);
    }
  }

  /** Two issuers without an ID, as the generic connector builds them, and an edge derived
      for one of them: nothing ties in either order, yet no canonical form is shared. */
  lemma UnnamedIssuersSplit(v: Version, w: Version, a: Issuer, b: Issuer, e: Edge)
    requires a.id == b.id == e.issuerID == "" && a.url != b.url && a.keys == b.keys == []
    requires v.issuers == [a, b] && w == v.(issuers := [b, a]) && v.consumers == [] && v.edges == [e]
    ensures NoTies(v) && NoTies(w) && Rearranged(v, w)
    ensures forall c, d :: IsCanonical(v, c) && IsCanonical(w, d) ==> c != d
  {
    NothingTies(v, a, b);
    NothingTies(w, b, a);
    assert multiset([b, a]) == multiset([a, b]);
    ReorderedIsRearranged(v, [b, a], v.consumers);
    OneEdgeForEach(v, w, a, b, e);
    OtherEdgesNoSharedForm(v, w);
  }

  lemma NothingTies(v: Version, a: Issuer, b: Issuer)
    requires a.url != b.url && a.keys == b.keys == []
    requires v.issuers == [a, b] && v.consumers == [] && |v.edges| == 1
    ensures NoTies(v)
  {
    TwoIssuersSeparate(a, b);
    assert CanonEdges(v) == [CanonEdges(v)[0]];
  }

  lemma OneEdgeForEach(v: Version, w: Version, a: Issuer, b: Issuer, e: Edge)
    requires a.id == b.id == e.issuerID && a.url != b.url
    requires v.issuers == [a, b] && w == v.(issuers := [b, a]) && v.edges == [e]
    ensures multiset(CanonEdges(v)) != multiset(CanonEdges(w))
  {
    assert CanonEdges(v) == [CanonEdgeOf(v.issuers, v.consumers, e)] && CanonEdges(v)[0].issuerURL == b.url;
    assert CanonEdges(w) == [CanonEdgeOf(w.issuers, w.consumers, e)] && CanonEdges(w)[0].issuerURL == a.url;
    assert CanonEdges(v)[0] in multiset(CanonEdges(v)) && CanonEdges(v)[0] !in multiset(CanonEdges(w));
  }

  lemma TwoIssuersSeparate(a: Issuer, b: Issuer)
    requires a.url != b.url && a.keys == b.keys == []
    ensures KeysSeparate([a, b]) && TiesCollapse(TheIssuers([a, b]), IssuerLess)
  {
    LexTotal(a.url, b.url);
    assert TheIssuers([a, b]) == [TheIssuer(a), TheIssuer(b)];
    assert CanonKeys(a) == [] && CanonKeys(b) == [];
  }
}
