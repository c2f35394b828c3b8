/** Deriving the issuer-to-consumer graph and assembling a contract version. */
module ContractBuild {
  import opened Prelude
  import opened Domain
  import Canon

  // ---- what the derived graph is ----------------------------------------------

  /** The URLs of `urls` that name an issuer: all but the empty ones, in order. */
  function Named(urls: seq<string>): seq<string> {
    if urls == [] then [] else
      Named(urls[..|urls| - 1]) + if urls[|urls| - 1] == "" then [] else [urls[|urls| - 1]]
  }

  /** Every trust relationship, consumer by consumer, as an issuer URL. */
  function Trusted(cs: seq<Consumer>): seq<string> {
    if cs == [] then [] else Trusted(cs[..|cs| - 1]) + Named(cs[|cs| - 1].expects.issuers)
  }

  /** The ID registered for an issuer URL; the last issuer with that URL wins. */
  function IDOf(issuers: seq<Issuer>, url: string): string {
    if issuers == [] then ""
    else if issuers[|issuers| - 1].url == url then issuers[|issuers| - 1].id
    else IDOf(issuers[..|issuers| - 1], url)
  }

  function URLs(issuers: seq<Issuer>): set<string> {
    set k | 0 <= k < |issuers| :: issuers[k].url
  }

  function EdgeFor(issuers: seq<Issuer>, c: Consumer, url: string): Edge {
    Edge(IDOf(issuers, url), c.id, c.expects, "unverified")
  }

  function EdgesFor(issuers: seq<Issuer>, c: Consumer, urls: seq<string>): seq<Edge> {
    if urls == [] then [] else
      EdgesFor(issuers, c, urls[..|urls| - 1]) + [EdgeFor(issuers, c, urls[|urls| - 1])]
  }

  /** One edge per trust relationship. */
  function EdgesOf(issuers: seq<Issuer>, cs: seq<Consumer>): seq<Edge> {
    if cs == [] then [] else
      EdgesOf(issuers, cs[..|cs| - 1]) + EdgesFor(issuers, cs[|cs| - 1], Named(cs[|cs| - 1].expects.issuers))
  }

  /** The minimal record for an issuer nobody supplied. */
  function Synthesized(id: string, url: string): Issuer {
    Issuer(id, url, "generic_oidc", url, "", [], false, [])
  }

  /** `issuers` is the supplied list followed by one synthesized record, with the next
      fresh ID, for each new URL among `trusted`. */
  ghost predicate Extends(supplied: seq<Issuer>, trusted: seq<string>, uuids: nat -> string, issuers: seq<Issuer>) {
    && |supplied| <= |issuers| && issuers[..|supplied|] == supplied
    && (forall k :: |supplied| <= k < |issuers| ==>
          && issuers[k] == Synthesized(uuids(k - |supplied|), issuers[k].url)
          && issuers[k].url in trusted && issuers[k].url !in URLs(issuers[..k]))
    && forall u :: u in trusted ==> u in URLs(issuers)
  }

  ghost predicate IsDerived(supplied: seq<Issuer>, cs: seq<Consumer>, uuids: nat -> string,
                            issuers: seq<Issuer>, edges: seq<Edge>) {
    Extends(supplied, Trusted(cs), uuids, issuers) && edges == EdgesOf(issuers, cs)
  }

  // ---- deriving it ------------------------------------------------------------

  lemma URLsAppend(issuers: seq<Issuer>, x: Issuer)
    ensures URLs(issuers + [x]) == URLs(issuers) + {x.url}
  {
    var more := issuers + [x];
    assert more[|issuers|] == x;
    forall u | u in URLs(issuers)
      ensures u in URLs(more)
    {
      var k :| 0 <= k < |issuers| && issuers[k].url == u;
      assert more[k].url == u;
    }
  }

  lemma {:induction false} NewIssuerKeepsEdgesFor(issuers: seq<Issuer>, x: Issuer, c: Consumer, urls: seq<string>)
    requires x.url !in urls
    ensures EdgesFor(issuers + [x], c, urls) == EdgesFor(issuers, c, urls)
  {
    if urls != [] {
      NewIssuerKeepsEdgesFor(issuers, x, c, urls[..|urls| - 1]);
      assert (issuers + [x])[..|issuers|] == issuers;
    }
  }

  /** A new issuer redirects no edge that is already there. */
  lemma {:induction false} NewIssuerKeepsEdges(issuers: seq<Issuer>, x: Issuer, cs: seq<Consumer>)
    requires x.url !in Trusted(cs)
    ensures EdgesOf(issuers + [x], cs) == EdgesOf(issuers, cs)
  {
    if cs != [] {
      NewIssuerKeepsEdges(issuers, x, cs[..|cs| - 1]);
      NewIssuerKeepsEdgesFor(issuers, x, cs[|cs| - 1], Named(cs[|cs| - 1].expects.issuers));
    }
  }

  /** The lookup table of the loop: what `byURL` holds for the issuers so far. */
  ghost predicate Indexes(byURL: map<string, string>, issuers: seq<Issuer>) {
    && byURL.Keys == URLs(issuers)
    && forall u :: u in byURL ==> byURL[u] == IDOf(issuers, u)
  }

  lemma IndexAppend(byURL: map<string, string>, issuers: seq<Issuer>, x: Issuer)
    requires Indexes(byURL, issuers)
    ensures Indexes(byURL[x.url := x.id], issuers + [x])
  {
    URLsAppend(issuers, x);
    assert (issuers + [x])[..|issuers|] == issuers;
  }

  lemma ExtendsAppend(supplied: seq<Issuer>, trusted: seq<string>, uuids: nat -> string,
                      issuers: seq<Issuer>, url: string)
    requires Extends(supplied, trusted, uuids, issuers) && url !in URLs(issuers)
    ensures Extends(supplied, trusted + [url], uuids,
                    issuers + [Synthesized(uuids(|issuers| - |supplied|), url)])
  {
    var x := Synthesized(uuids(|issuers| - |supplied|), url);
    var more := issuers + [x];
    URLsAppend(issuers, x);
    forall k | |supplied| <= k < |more|
      ensures more[k] == Synthesized(uuids(k - |supplied|), more[k].url)
      ensures more[k].url in trusted + [url] && more[k].url !in URLs(more[..k])
    {
      assert more[..k] == issuers[..k];
      assert issuers[..|issuers|] == issuers;
    }
    assert more[..|supplied|] == supplied;
  }

  /** What the loops know after the consumers `past` and the URLs `done` of `c`. */
  ghost predicate Deriving(supplied: seq<Issuer>, uuids: nat -> string, past: seq<Consumer>, c: Consumer,
                           done: seq<string>, issuers: seq<Issuer>, byURL: map<string, string>, edges: seq<Edge>) {
    && Indexes(byURL, issuers)
    && Extends(supplied, Trusted(past) + done, uuids, issuers)
    && edges == EdgesOf(issuers, past) + EdgesFor(issuers, c, done)
  }

  lemma DeriveKnown(supplied: seq<Issuer>, uuids: nat -> string, past: seq<Consumer>, c: Consumer,
                    done: seq<string>, issuers: seq<Issuer>, byURL: map<string, string>, edges: seq<Edge>, url: string)
    requires Deriving(supplied, uuids, past, c, done, issuers, byURL, edges) && url in byURL
    ensures Deriving(supplied, uuids, past, c, done + [url], issuers, byURL,
                     edges + [Edge(byURL[url], c.id, c.expects, "unverified")])
  {
    assert (done + [url])[..|done|] == done;
    assert Trusted(past) + (done + [url]) == Trusted(past) + done + [url];
  }

  lemma DeriveNewIssuers(supplied: seq<Issuer>, uuids: nat -> string, trusted: seq<string>, issuers: seq<Issuer>, url: string)
    requires Extends(supplied, trusted, uuids, issuers) && url !in URLs(issuers)
    ensures var x := Synthesized(uuids(|issuers| - |supplied|), url);
            Extends(supplied, trusted + [url], uuids, issuers + [x]) && url !in trusted
  {
    ExtendsAppend(supplied, trusted, uuids, issuers, url);
  }

  lemma DeriveNewEdges(past: seq<Consumer>, c: Consumer, done: seq<string>, issuers: seq<Issuer>, x: Issuer)
    requires x.url !in Trusted(past) && x.url !in done
    ensures EdgesOf(issuers + [x], past) + EdgesFor(issuers + [x], c, done + [x.url]) ==
            EdgesOf(issuers, past) + EdgesFor(issuers, c, done) + [Edge(x.id, c.id, c.expects, "unverified")]
  {
    NewIssuerKeepsEdges(issuers, x, past);
    NewIssuerKeepsEdgesFor(issuers, x, c, done);
    assert (done + [x.url])[..|done|] == done;
    assert (issuers + [x])[..|issuers|] == issuers;
  }

  lemma DeriveNew(supplied: seq<Issuer>, uuids: nat -> string, past: seq<Consumer>, c: Consumer,
                  done: seq<string>, issuers: seq<Issuer>, byURL: map<string, string>, edges: seq<Edge>, url: string)
    requires Deriving(supplied, uuids, past, c, done, issuers, byURL, edges) && url !in byURL
    ensures var x := Synthesized(uuids(|issuers| - |supplied|), url);
            Deriving(supplied, uuids, past, c, done + [url], issuers + [x], byURL[url := x.id],
                     edges + [Edge(x.id, c.id, c.expects, "unverified")])
  {
    var x := Synthesized(uuids(|issuers| - |supplied|), url);
    var trusted := Trusted(past) + done;
    assert Trusted(past) + (done + [url]) == trusted + [url];
    IndexAppend(byURL, issuers, x);
    DeriveNewIssuers(supplied, uuids, trusted, issuers, url);
    DeriveNewEdges(past, c, done, issuers, x);
  }

  method IndexSupplied(supplied: seq<Issuer>) returns (byURL: map<string, string>)
    ensures Indexes(byURL, supplied)
  {
    byURL := map[];
    for k := 0 to |supplied|
      invariant Indexes(byURL, supplied[..k])
    {
      IndexAppend(byURL, supplied[..k], supplied[k]);
      assert supplied[..k] + [supplied[k]] == supplied[..k + 1];
      byURL := byURL[supplied[k].url := supplied[k].id];
    }
    assert supplied[..|supplied|] == supplied;
  }

  /** What the outer loop knows after the consumers `past`. */
  ghost predicate Derived(supplied: seq<Issuer>, uuids: nat -> string, past: seq<Consumer>,
                          issuers: seq<Issuer>, byURL: map<string, string>, edges: seq<Edge>) {
    && Indexes(byURL, issuers)
    && Extends(supplied, Trusted(past), uuids, issuers)
    && edges == EdgesOf(issuers, past)
  }

  lemma StartGraph(supplied: seq<Issuer>, uuids: nat -> string)
    ensures Extends(supplied, [], uuids, supplied)
  {
    assert supplied[..|supplied|] == supplied;
  }

  lemma StartConsumer(supplied: seq<Issuer>, uuids: nat -> string, past: seq<Consumer>, c: Consumer,
                      issuers: seq<Issuer>, byURL: map<string, string>, edges: seq<Edge>)
    requires Derived(supplied, uuids, past, issuers, byURL, edges)
    ensures Deriving(supplied, uuids, past, c, [], issuers, byURL, edges)
  {
    assert Trusted(past) + [] == Trusted(past);
  }

  lemma EndConsumer(supplied: seq<Issuer>, uuids: nat -> string, cs: seq<Consumer>, i: nat,
                    issuers: seq<Issuer>, byURL: map<string, string>, edges: seq<Edge>)
    requires i < |cs|
    requires Deriving(supplied, uuids, cs[..i], cs[i], Named(cs[i].expects.issuers), issuers, byURL, edges)
    ensures Derived(supplied, uuids, cs[..i + 1], issuers, byURL, edges)
  {
    assert cs[..i + 1][..i] == cs[..i];
  }

  lemma NamedOneMore(urls: seq<string>, j: nat)
    requires j < |urls|
    ensures Named(urls[..j + 1]) == if urls[j] == "" then Named(urls[..j]) else Named(urls[..j]) + [urls[j]]
  {
    assert urls[..j + 1][..j] == urls[..j];
  }

  /** The edges of one consumer, after the consumers `past`: the inner loop. */
  method DeriveConsumer(supplied: seq<Issuer>, uuids: nat -> string, ghost past: seq<Consumer>, c: Consumer,
                        issuers0: seq<Issuer>, byURL0: map<string, string>, edges0: seq<Edge>)
    returns (issuers: seq<Issuer>, byURL: map<string, string>, edges: seq<Edge>)
    requires Deriving(supplied, uuids, past, c, [], issuers0, byURL0, edges0)
    ensures Deriving(supplied, uuids, past, c, Named(c.expects.issuers), issuers, byURL, edges)
  {
    var urls := c.expects.issuers;
    issuers, byURL, edges := issuers0, byURL0, edges0;
    for j := 0 to |urls|
      invariant Deriving(supplied, uuids, past, c, Named(urls[..j]), issuers, byURL, edges)
    {
      var url := urls[j];
      NamedOneMore(urls, j);
      if url == "" {
        continue;
      }
      if url in byURL {
        DeriveKnown(supplied, uuids, past, c, Named(urls[..j]), issuers, byURL, edges, url);
        edges := edges + [Edge(byURL[url], c.id, c.expects, "unverified")];
      } else {
        DeriveNew(supplied, uuids, past, c, Named(urls[..j]), issuers, byURL, edges, url);
        var x := Synthesized(uuids(|issuers| - |supplied|), url);
        issuers, byURL := issuers + [x], byURL[url := x.id];
        edges := edges + [Edge(x.id, c.id, c.expects, "unverified")];
      }
    }
    assert urls[..|urls|] == urls;
  }

  /** Issuers and edges of the contract graph. Supplied edges are used as they are. */
  method DeriveGraph(supplied: seq<Issuer>, cs: seq<Consumer>, edges0: seq<Edge>, uuids: nat -> string)
    returns (issuers: seq<Issuer>, edges: seq<Edge>)
    ensures edges0 != [] ==> issuers == supplied && edges == edges0
    ensures edges0 == [] ==> IsDerived(supplied, cs, uuids, issuers, edges)
  {
    issuers, edges := supplied, edges0;
    var byURL := IndexSupplied(supplied);
    if edges0 != [] {
      return;
    }
    StartGraph(supplied, uuids);
    for i := 0 to |cs|
      invariant Derived(supplied, uuids, cs[..i], issuers, byURL, edges)
    {
      StartConsumer(supplied, uuids, cs[..i], cs[i], issuers, byURL, edges);
      issuers, byURL, edges := DeriveConsumer(supplied, uuids, cs[..i], cs[i], issuers, byURL, edges);
      EndConsumer(supplied, uuids, cs, i, issuers, byURL, edges);
    }
    assert cs[..|cs|] == cs;
  }

  /** What `Build` returns: the derived graph under its canonical hash. */
  ghost predicate IsBuilt(supplied: seq<Issuer>, cs: seq<Consumer>, uuids: nat -> string, v: Version) {
    && IsDerived(supplied, cs, uuids, v.issuers, v.edges)
    && v.consumers == cs
    && v.hash.Digest? && Canon.IsCanonical(v, v.hash.of)
  }

  method Build(supplied: seq<Issuer>, cs: seq<Consumer>, edges0: seq<Edge>, triggerKind: string, triggerRef: string,
               now: int, id: string, uuids: nat -> string) returns (v: Version)
    ensures edges0 == [] ==> IsBuilt(supplied, cs, uuids, v)
    ensures edges0 != [] ==> v.issuers == supplied && v.edges == edges0 && v.consumers == cs
    ensures v.hash.Digest? && Canon.IsCanonical(v, v.hash.of)
    ensures v.id == id && v.createdAt == now && !v.isBaseline
  {
    var issuers, edges := DeriveGraph(supplied, cs, edges0, uuids);
    v := Version(id, NoDigest, now, false, issuers, cs, edges, triggerKind, triggerRef);
    var h := Canon.Hash(v);
    v := v.(hash := h);
  }
}
