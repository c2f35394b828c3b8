/** Merging discovered consumers by identity: the loops, and the registry they build. */
module Discovery {
  import opened Prelude
  import opened Domain
  import opened Keyrings

  // ---- merging two records --------------------------------------------------------

  function UnionStrings(a: seq<string>, b: seq<string>): (r: seq<string>)
    ensures Elems(r) == Elems(a) + Elems(b)
  {
    if b == [] then a else
      var r := UnionStrings(a, b[..|b| - 1]);
      var last := b[|b| - 1];
      assert Elems(b) == Elems(b[..|b| - 1]) + {last};
      if last in r then r else
        assert Elems(r + [last]) == Elems(r) + {last};
        r + [last]
  }

  function EndpointURLs(es: seq<Endpoint>): set<string> {
    set e | e in es :: e.url
  }

  /** The first endpoint of each URL, in order. */
  function FirstPerURL(es: seq<Endpoint>): (r: seq<Endpoint>)
    ensures EndpointURLs(r) == EndpointURLs(es)
  {
    if es == [] then [] else
      var r := FirstPerURL(es[..|es| - 1]);
      var last := es[|es| - 1];
      assert EndpointURLs(es) == EndpointURLs(es[..|es| - 1]) + {last.url} by {
        assert es == es[..|es| - 1] + [last];
      }
      if last.url in EndpointURLs(r) then r else
        assert EndpointURLs(r + [last]) == EndpointURLs(r) + {last.url};
        r + [last]
  }

  function UnionEndpoints(a: seq<Endpoint>, b: seq<Endpoint>): seq<Endpoint> {
    FirstPerURL(a + b)
  }

  function FirstNonEmpty(v: string, def: string): string {
    if v == "" then def else v
  }

  function OrElse<T>(a: Option<T>, b: Option<T>): Option<T> {
    if a == None then b else a
  }

  function MergeJWKS(a: JWKSBehavior, b: JWKSBehavior): JWKSBehavior {
    a.(cacheTTLSec := OrElse(a.cacheTTLSec, b.cacheTTLSec),
       refreshIntervalSec := OrElse(a.refreshIntervalSec, b.refreshIntervalSec),
       refreshesOnUnknownKID := OrElse(a.refreshesOnUnknownKID, b.refreshesOnUnknownKID),
       source := FirstNonEmpty(a.source, b.source))
  }

  function MergeProvenance(a: map<string, seq<Provenance>>, b: map<string, seq<Provenance>>): map<string, seq<Provenance>> {
    map k | k in a.Keys + b.Keys :: (if k in a then a[k] else []) + (if k in b then b[k] else [])
  }

  function ConfidenceAt(m: map<string, real>, k: string): real {
    if k in m then m[k] else 0.0
  }

  function MergeConfidence(a: map<string, real>, b: map<string, real>): map<string, real> {
    map k | k in a.Keys + b.Keys && (k in a || b[k] > 0.0) ::
      if k in b && b[k] > ConfidenceAt(a, k) then b[k] else a[k]
  }

  function MergeExpects(a: Expectations, b: Expectations): Expectations {
    Expectations(UnionStrings(a.issuers, b.issuers), UnionStrings(a.audiences, b.audiences),
                 UnionStrings(a.algorithms, b.algorithms), UnionStrings(a.requiredClaims, b.requiredClaims),
                 if b.clockSkewSec > a.clockSkewSec then b.clockSkewSec else a.clockSkewSec)
  }

  function MergeAliases(a: Consumer, b: Consumer): seq<string> {
    var both := UnionStrings(a.aliases, b.aliases);
    if b.stableID != a.stableID then UnionStrings(both, [b.stableID]) else both
  }

  function MergeConsumers(a: Consumer, b: Consumer): Consumer {
    a.(name := FirstNonEmpty(a.name, b.name),
       namespace := FirstNonEmpty(a.namespace, b.namespace),
       ownerTeam := FirstNonEmpty(a.ownerTeam, b.ownerTeam),
       kind := FirstNonEmpty(a.kind, b.kind),
       aliases := MergeAliases(a, b),
       expects := MergeExpects(a.expects, b.expects),
       endpoints := UnionEndpoints(a.endpoints, b.endpoints),
       jwks := MergeJWKS(a.jwks, b.jwks),
       library := OrElse(a.library, b.library),
       provenance := MergeProvenance(a.provenance, b.provenance),
       confidence := MergeConfidence(a.confidence, b.confidence),
       probeable := a.probeable || b.probeable)
  }

  // ---- identities -----------------------------------------------------------------

  datatype IDParts = IDParts(cluster: string, namespace: string, serviceAccount: string, serviceName: string,
                             gateway: string, route: string, host: string, pathPrefix: string)

  /** The StableID the Kubernetes, Istio and Envoy discoverers derive: never empty, and never
      taken for an OIDC client. What `normalizeHost` does inside strings is left open. */
  function StableID(p: IDParts, normalizeHost: string -> string): (id: string)
    ensures id != "" && !IsOIDC(id)
  {
    var cluster := FirstNonEmpty(p.cluster, "local");
    var ns := FirstNonEmpty(p.namespace, "default");
    var id :=
      if p.serviceAccount != "" then "k8s://" + cluster + "/" + ns + "/" + p.serviceAccount
      else if p.serviceName != "" then "k8s://" + cluster + "/" + ns + "/" + p.serviceName
      else if p.gateway != "" || p.route != "" then "route://" + p.gateway + "/" + p.route
      else "url://" + normalizeHost(p.host) + p.pathPrefix;
    assert id[0] == 'k' || id[0] == 'r' || id[0] == 'u';
    id
  }

  /** The StableID of a client of an OIDC realm. */
  function ClientStableID(realm: string, clientID: string): (id: string)
    ensures IsOIDC(id)
  {
    "oidc://" + realm + "/" + clientID
  }

  /** What a consumer may be correlated by: its StableID and its non-empty aliases. */
  function KeySet(c: Consumer): set<string> {
    {c.stableID} + (Elems(c.aliases) - {""})
  }

  function AddAliases(keys: seq<string>, aliases: seq<string>): (r: seq<string>)
    ensures Elems(r) == Elems(keys) + (Elems(aliases) - {""})
    ensures keys <= r
  {
    if aliases == [] then keys else
      var r := AddAliases(keys, aliases[..|aliases| - 1]);
      var a := aliases[|aliases| - 1];
      assert Elems(aliases) == Elems(aliases[..|aliases| - 1]) + {a};
      if a != "" && a !in r then
        assert Elems(r + [a]) == Elems(r) + {a};
        r + [a]
      else
        assert a != "" ==> a in Elems(r);
        r
  }

  /** The keys of a consumer in lookup order, without duplicates. */
  function IdentityKeys(c: Consumer): (keys: seq<string>)
    ensures Elems(keys) == KeySet(c) && keys != [] && keys[0] == c.stableID
  {
    AddAliases([c.stableID], c.aliases)
  }

  /** The canonical record registered for the first known key; "" when none is known. */
  function FirstHit(keys: seq<string>, canon: map<string, string>): string {
    if keys == [] then ""
    else if keys[0] in canon then canon[keys[0]]
    else FirstHit(keys[1..], canon)
  }

  // ---- the registry -----------------------------------------------------------------

  /** The loop's variables, and for each input the record it went into. */
  datatype Registry = Registry(order: seq<string>, byID: map<string, Consumer>, canon: map<string, string>,
                               owners: seq<string>)

  function Absorb(r: Registry, c: Consumer): Registry {
    var target := FirstHit(IdentityKeys(c), r.canon);
    if target == "" then
      Registry(r.order + [c.stableID], r.byID[c.stableID := c],
               Claim(r.canon, KeySet(c), c.stableID), r.owners + [c.stableID])
    else if target in r.byID then
      var merged := MergeConsumers(r.byID[target], c);
      Registry(r.order, r.byID[target := merged], Register(r.canon, KeySet(merged), target), r.owners + [target])
    else r
  }

  function Absorbed(inputs: seq<Consumer>): Registry {
    if inputs == [] then Registry([], map[], map[], [])
    else Absorb(Absorbed(inputs[..|inputs| - 1]), inputs[|inputs| - 1])
  }

  function Flatten(sets: seq<seq<Consumer>>): seq<Consumer> {
    if sets == [] then [] else Flatten(sets[..|sets| - 1]) + sets[|sets| - 1]
  }

  // ---- alias folding ----------------------------------------------------------------

  predicate IsOIDC(id: string) {
    "oidc://" <= id
  }

  /** The last mesh record trusting `iss` for `aud`. */
  function MeshIndex(cs: seq<Consumer>, iss: string, aud: string): Option<nat> {
    if cs == [] then None else
      var last := cs[|cs| - 1];
      if !IsOIDC(last.stableID) && iss in last.expects.issuers && aud in last.expects.audiences
      then Some(|cs| - 1) else MeshIndex(cs[..|cs| - 1], iss, aud)
  }

  function FirstAudience(cs: seq<Consumer>, iss: string, auds: seq<string>): Option<nat> {
    if auds == [] then None
    else if MeshIndex(cs, iss, auds[0]).Some? then MeshIndex(cs, iss, auds[0])
    else FirstAudience(cs, iss, auds[1..])
  }

  function FirstPair(cs: seq<Consumer>, isss: seq<string>, auds: seq<string>): Option<nat> {
    if isss == [] then None
    else if FirstAudience(cs, isss[0], auds).Some? then FirstAudience(cs, isss[0], auds)
    else FirstPair(cs, isss[1..], auds)
  }

  /** The mesh record an OIDC record folds into: the one found for its first (issuer,
      audience) pair that any mesh record has. */
  function FoldTarget(cs: seq<Consumer>, c: Consumer): Option<nat> {
    if IsOIDC(c.stableID) then FirstPair(cs, c.expects.issuers, c.expects.audiences) else None
  }

  /** `r` with `c` folded into the record at `target`, if any. */
  function FoldInto(r: seq<Consumer>, target: Option<nat>, c: Consumer): (r': seq<Consumer>)
    ensures |r'| == |r|
  {
    match target
    case Some(j) => if j < |r| then r[j := MergeConsumers(r[j], c)] else r
    case None => r
  }

  /** `cs` after folding each of the first `n` into its target. */
  function FoldedBy(cs: seq<Consumer>, targets: seq<Option<nat>>, n: nat): (r: seq<Consumer>)
    requires n <= |cs| == |targets|
    ensures |r| == |cs|
  {
    if n == 0 then cs else FoldInto(FoldedBy(cs, targets, n - 1), targets[n - 1], cs[n - 1])
  }

  function FoldTargets(cs: seq<Consumer>): (ts: seq<Option<nat>>)
    ensures |ts| == |cs| && forall i :: 0 <= i < |cs| ==> ts[i] == FoldTarget(cs, cs[i])
  {
    seq(|cs|, i requires 0 <= i < |cs| => FoldTarget(cs, cs[i]))
  }

  /** The records after folding the first `n` of them. */
  function Folded(cs: seq<Consumer>, n: nat): (r: seq<Consumer>)
    requires n <= |cs|
    ensures |r| == |cs|
  {
    FoldedBy(cs, FoldTargets(cs), n)
  }

  /** The records that were not folded away, in order. */
  function Kept(cs: seq<Consumer>, r: seq<Consumer>, n: nat): seq<Consumer>
    requires n <= |cs| == |r|
  {
    if n == 0 then [] else
      Kept(cs, r, n - 1) + if FoldTarget(cs, cs[n - 1]).Some? then [] else [r[n - 1]]
  }

  function AliasFolded(cs: seq<Consumer>): seq<Consumer> {
    Kept(cs, Folded(cs, |cs|), |cs|)
  }

  // ---- the methods ------------------------------------------------------------------

  lemma {:induction false} FirstHitSkips(keys: seq<string>, canon: map<string, string>, i: nat)
    requires i <= |keys| && forall k :: 0 <= k < i ==> keys[k] !in canon
    ensures FirstHit(keys, canon) == FirstHit(keys[i..], canon)
  {
    if i > 0 {
      FirstHitSkips(keys[1..], canon, i - 1);
      assert keys[1..][i - 1..] == keys[i..];
    } else {
      assert keys[0..] == keys;
    }
  }

  /** The keys of a consumer as given: its StableID, then its aliases. */
  function GivenKeys(c: Consumer): seq<string> {
    [c.stableID] + c.aliases
  }

  /** Key `i`, not an empty alias, is the first that is known. */
  ghost predicate FirstKnownKey(c: Consumer, canon: map<string, string>, i: int) {
    && 0 <= i < |GivenKeys(c)| && GivenKeys(c)[i] in canon && (i > 0 ==> GivenKeys(c)[i] != "")
    && forall j :: 0 <= j < i && (j > 0 ==> GivenKeys(c)[j] != "") ==> GivenKeys(c)[j] !in canon
  }

  lemma {:induction false} FirstHitJoins(a: seq<string>, b: seq<string>, canon: map<string, string>)
    ensures FirstHit(a + b, canon) == if exists k :: k in a && k in canon then FirstHit(a, canon) else FirstHit(b, canon)
  {
    if a == [] {
      assert a + b == b;
    } else if a[0] !in canon {
      FirstHitJoins(a[1..], b, canon);
      assert (a + b)[1..] == a[1..] + b;
      assert a == [a[0]] + a[1..];
    }
  }

  /** Leaving out repeated and empty aliases changes no lookup. */
  lemma {:induction false} AddedAliasesHit(keys: seq<string>, aliases: seq<string>, canon: map<string, string>, i: int)
    requires 0 <= i < |aliases| && aliases[i] != "" && aliases[i] in canon
    requires forall k :: k in keys ==> k !in canon
    requires forall j :: 0 <= j < i && aliases[j] != "" ==> aliases[j] !in canon
    ensures FirstHit(AddAliases(keys, aliases), canon) == canon[aliases[i]]
    ensures exists k :: k in AddAliases(keys, aliases) && k in canon
  {
    var n := |aliases| - 1;
    var init, a := aliases[..n], aliases[n];
    var r := AddAliases(keys, init);
    if i < n {
      AddedAliasesHit(keys, init, canon, i);
      FirstHitJoins(r, [a], canon);
    } else {
      assert forall k :: k in r ==> k in Elems(r);
      assert forall k :: k in r ==> k !in canon;
      assert a !in r;
      FirstHitJoins(r, [a], canon);
      assert a in r + [a];
    }
  }

  /** The lookup finds the record of the first known key, in the order given. */
  lemma FirstHitIsFirst(c: Consumer, canon: map<string, string>)
    ensures forall i :: FirstKnownKey(c, canon, i) ==> FirstHit(IdentityKeys(c), canon) == canon[GivenKeys(c)[i]]
    ensures (forall i :: !FirstKnownKey(c, canon, i)) ==> FirstHit(IdentityKeys(c), canon) == ""
  {
    forall i | FirstKnownKey(c, canon, i)
      ensures FirstHit(IdentityKeys(c), canon) == canon[GivenKeys(c)[i]]
    {
      if i > 0 {
        assert GivenKeys(c)[0] !in canon;
        assert forall j :: 0 <= j < |c.aliases| ==> c.aliases[j] == GivenKeys(c)[j + 1];
        AddedAliasesHit([c.stableID], c.aliases, canon, i - 1);
      } else {
        assert IdentityKeys(c)[0] in canon;
      }
    }
    if forall i :: !FirstKnownKey(c, canon, i) {
      NoneIsKnown(c, canon, |c.aliases|);
      NothingHit(IdentityKeys(c), canon);
    }
  }

  lemma {:induction false} NoneIsKnown(c: Consumer, canon: map<string, string>, n: nat)
    requires n <= |c.aliases| && forall i :: !FirstKnownKey(c, canon, i)
    ensures c.stableID !in canon && forall j :: 0 <= j < n && c.aliases[j] != "" ==> c.aliases[j] !in canon
    ensures n == |c.aliases| ==> forall k :: k in IdentityKeys(c) ==> k !in canon
  {
    var ks := GivenKeys(c);
    assert !FirstKnownKey(c, canon, 0);
    if n > 0 {
      NoneIsKnown(c, canon, n - 1);
      assert !FirstKnownKey(c, canon, n);
      assert forall j :: 0 < j < n ==> ks[j] == c.aliases[j - 1];
    }
    assert forall k :: k in IdentityKeys(c) ==> k in Elems(IdentityKeys(c));
  }

  lemma {:induction false} NothingHit(keys: seq<string>, canon: map<string, string>)
    requires forall k :: k in keys ==> k !in canon
    ensures FirstHit(keys, canon) == ""
  {
    if keys != [] {
      NothingHit(keys[1..], canon);
    }
  }

  method FindTarget(c: Consumer, canon: map<string, string>) returns (target: string)
    ensures target == FirstHit(IdentityKeys(c), canon)
    ensures forall i :: FirstKnownKey(c, canon, i) ==> target == canon[GivenKeys(c)[i]]
    ensures (forall i :: !FirstKnownKey(c, canon, i)) ==> target == ""
  {
    FirstHitIsFirst(c, canon);
    var keys := IdentityKeys(c);
    for i := 0 to |keys|
      invariant forall k :: 0 <= k < i ==> keys[k] !in canon
    {
      FirstHitSkips(keys, canon, i);
      if keys[i] in canon {
        return canon[keys[i]];
      }
    }
    FirstHitSkips(keys, canon, |keys|);
    return "";
  }

  /** Registers the keys of `c` nobody has registered yet. */
  method RegisterKeys(canon: map<string, string>, c: Consumer, target: string) returns (canon': map<string, string>)
    ensures canon' == Register(canon, KeySet(c), target)
  {
    var keys := IdentityKeys(c);
    canon' := canon;
    for i := 0 to |keys|
      invariant canon' == Register(canon, Elems(keys[..i]), target)
    {
      assert Elems(keys[..i + 1]) == Elems(keys[..i]) + {keys[i]};
      RegisterOneMore(canon, Elems(keys[..i]), keys[i], target);
      if keys[i] !in canon' {
        canon' := canon'[keys[i] := target];
      }
    }
    assert keys[..|keys|] == keys;
  }

  /** Registers all keys of a new record. */
  method ClaimKeys(canon: map<string, string>, c: Consumer) returns (canon': map<string, string>)
    ensures canon' == Claim(canon, KeySet(c), c.stableID)
  {
    var keys := IdentityKeys(c);
    canon' := canon;
    for i := 0 to |keys|
      invariant canon' == Claim(canon, Elems(keys[..i]), c.stableID)
    {
      assert Elems(keys[..i + 1]) == Elems(keys[..i]) + {keys[i]};
      ClaimOneMore(canon, Elems(keys[..i]), keys[i], c.stableID);
      canon' := canon'[keys[i] := c.stableID];
    }
    assert keys[..|keys|] == keys;
  }

  /** Whatever is registered is a record. */
  ghost predicate Closed(r: Registry) {
    forall k :: k in r.canon ==> r.canon[k] in r.byID
  }

  lemma {:induction false} HitIsRegistered(keys: seq<string>, canon: map<string, string>)
    ensures FirstHit(keys, canon) == "" || exists k :: k in keys && k in canon && canon[k] == FirstHit(keys, canon)
  {
    if keys != [] && keys[0] !in canon {
      HitIsRegistered(keys[1..], canon);
    }
  }

  lemma AbsorbKeepsClosed(r: Registry, c: Consumer)
    requires Closed(r)
    ensures Closed(Absorb(r, c))
    ensures FirstHit(IdentityKeys(c), r.canon) == "" || FirstHit(IdentityKeys(c), r.canon) in r.byID
  {
    HitIsRegistered(IdentityKeys(c), r.canon);
  }

  method AbsorbOne(order: seq<string>, byID: map<string, Consumer>, canon: map<string, string>, c: Consumer,
                   ghost owners: seq<string>)
    returns (order': seq<string>, byID': map<string, Consumer>, canon': map<string, string>)
    requires Closed(Registry(order, byID, canon, owners))
    ensures var r := Absorb(Registry(order, byID, canon, owners), c);
            order' == r.order && byID' == r.byID && canon' == r.canon
  {
    AbsorbKeepsClosed(Registry(order, byID, canon, owners), c);
    var target := FindTarget(c, canon);
    if target == "" {
      order', byID' := order + [c.stableID], byID[c.stableID := c];
      canon' := ClaimKeys(canon, c);
    } else {
      var merged := MergeConsumers(byID[target], c);
      order', byID' := order, byID[target := merged];
      canon' := RegisterKeys(canon, merged, target);
    }
  }

  lemma {:induction false} AbsorbedIsClosed(inputs: seq<Consumer>)
    ensures Closed(Absorbed(inputs))
  {
    if inputs != [] {
      AbsorbedIsClosed(inputs[..|inputs| - 1]);
      AbsorbKeepsClosed(Absorbed(inputs[..|inputs| - 1]), inputs[|inputs| - 1]);
    }
  }

  /** The records before alias folding, in first-seen order. */
  function Records(r: Registry): seq<Consumer>
    requires forall id :: id in r.order ==> id in r.byID
  {
    seq(|r.order|, k requires 0 <= k < |r.order| => r.byID[r.order[k]])
  }

  lemma {:induction false} OrderIsKept(inputs: seq<Consumer>)
    ensures forall id :: id in Absorbed(inputs).order ==> id in Absorbed(inputs).byID
  {
    if inputs != [] {
      OrderIsKept(inputs[..|inputs| - 1]);
    }
  }

  /** The loop's variables are those of the registry of `past`. */
  ghost predicate Tracks(past: seq<Consumer>, order: seq<string>, byID: map<string, Consumer>, canon: map<string, string>) {
    var r := Absorbed(past);
    order == r.order && byID == r.byID && canon == r.canon
  }

  method AbsorbNext(ghost past: seq<Consumer>, order: seq<string>, byID: map<string, Consumer>,
                    canon: map<string, string>, c: Consumer, ghost now: seq<Consumer>)
    returns (order': seq<string>, byID': map<string, Consumer>, canon': map<string, string>)
    requires Tracks(past, order, byID, canon) && now == past + [c]
    ensures Tracks(now, order', byID', canon')
  {
    AbsorbedIsClosed(past);
    order', byID', canon' := AbsorbOne(order, byID, canon, c, Absorbed(past).owners);
    assert now[..|past|] == past;
  }

  method AbsorbGroup(ghost past: seq<Consumer>, order0: seq<string>, byID0: map<string, Consumer>,
                     canon0: map<string, string>, group: seq<Consumer>)
    returns (order: seq<string>, byID: map<string, Consumer>, canon: map<string, string>)
    requires Tracks(past, order0, byID0, canon0)
    ensures Tracks(past + group, order, byID, canon)
  {
    order, byID, canon := order0, byID0, canon0;
    assert past + group[..0] == past;
    for j := 0 to |group|
      invariant Tracks(past + group[..j], order, byID, canon)
    {
      OneMoreOf(past, group, j);
      order, byID, canon := AbsorbNext(past + group[..j], order, byID, canon, group[j], past + group[..j + 1]);
    }
    assert group[..|group|] == group;
  }

  lemma OneMoreOf<T>(past: seq<T>, group: seq<T>, j: nat)
    requires j < |group|
    ensures past + group[..j + 1] == past + group[..j] + [group[j]]
  {
  }

  method MergeRecords(sets: seq<seq<Consumer>>) returns (out: seq<Consumer>)
    ensures forall id :: id in Absorbed(Flatten(sets)).order ==> id in Absorbed(Flatten(sets)).byID
    ensures out == Records(Absorbed(Flatten(sets)))
  {
    var order: seq<string> := [];
    var byID: map<string, Consumer> := map[];
    var canon: map<string, string> := map[];
    for i := 0 to |sets|
      invariant Tracks(Flatten(sets[..i]), order, byID, canon)
    {
      order, byID, canon := AbsorbGroup(Flatten(sets[..i]), order, byID, canon, sets[i]);
      assert sets[..i + 1][..i] == sets[..i];
    }
    assert sets[..|sets|] == sets;
    OrderIsKept(Flatten(sets));
    out := ListRecords(order, byID);
  }

  method ListRecords(order: seq<string>, byID: map<string, Consumer>) returns (out: seq<Consumer>)
    requires forall id :: id in order ==> id in byID
    ensures |out| == |order| && forall k :: 0 <= k < |order| ==> out[k] == byID[order[k]]
  {
    out := [];
    for k := 0 to |order|
      invariant |out| == k && forall l :: 0 <= l < k ==> out[l] == byID[order[l]]
    {
      out := out + [byID[order[k]]];
    }
  }

  /** The pair index of alias folding: the last mesh record per (issuer, audience). */
  ghost predicate IndexesMesh(m: map<(string, string), nat>, cs: seq<Consumer>) {
    forall iss, aud :: MeshIndex(cs, iss, aud) == if (iss, aud) in m then Some(m[(iss, aud)]) else None
  }

  method IndexMesh(cs: seq<Consumer>) returns (m: map<(string, string), nat>)
    ensures IndexesMesh(m, cs)
  {
    m := map[];
    for i := 0 to |cs|
      invariant IndexesMesh(m, cs[..i])
    {
      var c := cs[i];
      assert cs[..i + 1][..i] == cs[..i] && cs[..i + 1][i] == c;
      if !IsOIDC(c.stableID) {
        m := IndexPairs(m, c.expects.issuers, c.expects.audiences, i);
      }
    }
    assert cs[..|cs|] == cs;
  }

  method IndexPairs(m: map<(string, string), nat>, isss: seq<string>, auds: seq<string>, i: nat)
    returns (m': map<(string, string), nat>)
    ensures forall p: (string, string) :: p in m' <==> p in m || (p.0 in isss && p.1 in auds)
    ensures forall p: (string, string) :: p in m' ==> m'[p] == if p.0 in isss && p.1 in auds then i else m[p]
  {
    m' := m;
    for x := 0 to |isss|
      invariant forall p: (string, string) :: p in m' <==> p in m || (p.0 in isss[..x] && p.1 in auds)
      invariant forall p: (string, string) :: p in m' ==> m'[p] == if p.0 in isss[..x] && p.1 in auds then i else m[p]
    {
      ghost var before := m';
      for y := 0 to |auds|
        invariant forall p: (string, string) :: p in m' <==> p in before || (p.0 == isss[x] && p.1 in auds[..y])
        invariant forall p: (string, string) :: p in m' ==>
          m'[p] == if p.0 == isss[x] && p.1 in auds[..y] then i else before[p]
      {
        m' := m'[(isss[x], auds[y]) := i];
        assert auds[..y + 1] == auds[..y] + [auds[y]];
      }
      assert auds[..|auds|] == auds;
      assert isss[..x + 1] == isss[..x] + [isss[x]];
    }
    assert isss[..|isss|] == isss;
  }

  lemma {:induction false} FirstAudienceSkips(cs: seq<Consumer>, iss: string, auds: seq<string>, i: nat)
    requires i <= |auds| && forall k :: 0 <= k < i ==> MeshIndex(cs, iss, auds[k]) == None
    ensures FirstAudience(cs, iss, auds) == FirstAudience(cs, iss, auds[i..])
  {
    if i > 0 {
      FirstAudienceSkips(cs, iss, auds[1..], i - 1);
      assert auds[1..][i - 1..] == auds[i..];
    } else {
      assert auds[0..] == auds;
    }
  }

  lemma {:induction false} FirstPairSkips(cs: seq<Consumer>, isss: seq<string>, auds: seq<string>, i: nat)
    requires i <= |isss| && forall k :: 0 <= k < i ==> FirstAudience(cs, isss[k], auds) == None
    ensures FirstPair(cs, isss, auds) == FirstPair(cs, isss[i..], auds)
  {
    if i > 0 {
      FirstPairSkips(cs, isss[1..], auds, i - 1);
      assert isss[1..][i - 1..] == isss[i..];
    } else {
      assert isss[0..] == isss;
    }
  }

  /** The nested search of alias folding, with its two breaks. */
  method FindFoldTarget(m: map<(string, string), nat>, ghost cs: seq<Consumer>, c: Consumer) returns (j: Option<nat>)
    requires IndexesMesh(m, cs) && IsOIDC(c.stableID)
    ensures j == FoldTarget(cs, c)
  {
    var isss, auds := c.expects.issuers, c.expects.audiences;
    for x := 0 to |isss|
      invariant forall k :: 0 <= k < x ==> FirstAudience(cs, isss[k], auds) == None
    {
      FirstPairSkips(cs, isss, auds, x);
      for y := 0 to |auds|
        invariant forall k :: 0 <= k < y ==> MeshIndex(cs, isss[x], auds[k]) == None
      {
        FirstAudienceSkips(cs, isss[x], auds, y);
        if (isss[x], auds[y]) in m {
          return Some(m[(isss[x], auds[y])]);
        }
      }
      FirstAudienceSkips(cs, isss[x], auds, |auds|);
    }
    FirstPairSkips(cs, isss, auds, |isss|);
    return None;
  }

  lemma {:induction false} MeshIndexIsMesh(cs: seq<Consumer>, iss: string, aud: string)
    ensures MeshIndex(cs, iss, aud).Some? ==>
              var j := MeshIndex(cs, iss, aud).value;
              j < |cs| && !IsOIDC(cs[j].stableID) && iss in cs[j].expects.issuers && aud in cs[j].expects.audiences
    ensures MeshIndex(cs, iss, aud).None? ==>
              forall j :: 0 <= j < |cs| && !IsOIDC(cs[j].stableID) ==>
                !(iss in cs[j].expects.issuers && aud in cs[j].expects.audiences)
  {
    if cs != [] {
      var init := cs[..|cs| - 1];
      MeshIndexIsMesh(init, iss, aud);
      assert forall j :: 0 <= j < |init| ==> init[j] == cs[j];
    }
  }

  /** `c` and the mesh record at `j` have an issuer and an audience in common. */
  ghost predicate SharesPair(cs: seq<Consumer>, c: Consumer, j: int) {
    && 0 <= j < |cs| && !IsOIDC(cs[j].stableID)
    && Elems(c.expects.issuers) * Elems(cs[j].expects.issuers) != {}
    && Elems(c.expects.audiences) * Elems(cs[j].expects.audiences) != {}
  }

  lemma {:induction false} FirstAudienceFinds(cs: seq<Consumer>, iss: string, auds: seq<string>)
    ensures FirstAudience(cs, iss, auds).Some? ==>
              exists aud :: aud in auds && FirstAudience(cs, iss, auds) == MeshIndex(cs, iss, aud)
    ensures FirstAudience(cs, iss, auds).None? ==> forall aud :: aud in auds ==> MeshIndex(cs, iss, aud).None?
  {
    if auds != [] {
      FirstAudienceFinds(cs, iss, auds[1..]);
    }
  }

  lemma {:induction false} FirstPairFinds(cs: seq<Consumer>, isss: seq<string>, auds: seq<string>)
    ensures FirstPair(cs, isss, auds).Some? ==>
              exists iss, aud :: iss in isss && aud in auds && FirstPair(cs, isss, auds) == MeshIndex(cs, iss, aud)
    ensures FirstPair(cs, isss, auds).None? ==>
              forall iss, aud :: iss in isss && aud in auds ==> MeshIndex(cs, iss, aud).None?
  {
    if isss != [] {
      FirstAudienceFinds(cs, isss[0], auds);
      FirstPairFinds(cs, isss[1..], auds);
    }
  }

  /** An OIDC record is folded away exactly when it shares an issuer and an audience with
      a mesh record, and then into such a record; a mesh record never is. */
  lemma FoldTargetIff(cs: seq<Consumer>, c: Consumer)
    ensures FoldTarget(cs, c).Some? <==> IsOIDC(c.stableID) && exists j :: SharesPair(cs, c, j)
    ensures FoldTarget(cs, c).Some? ==> SharesPair(cs, c, FoldTarget(cs, c).value)
  {
    var isss, auds := c.expects.issuers, c.expects.audiences;
    FirstPairFinds(cs, isss, auds);
    if FoldTarget(cs, c).Some? {
      var iss, aud :| iss in isss && aud in auds && FirstPair(cs, isss, auds) == MeshIndex(cs, iss, aud);
      MeshIndexIsMesh(cs, iss, aud);
      var j := FoldTarget(cs, c).value;
      assert iss in Elems(isss) * Elems(cs[j].expects.issuers);
      assert aud in Elems(auds) * Elems(cs[j].expects.audiences);
      assert SharesPair(cs, c, j);
    } else if IsOIDC(c.stableID) {
      forall j
        ensures !SharesPair(cs, c, j)
      {
        if SharesPair(cs, c, j) {
          var iss :| iss in Elems(isss) * Elems(cs[j].expects.issuers);
          var aud :| aud in Elems(auds) * Elems(cs[j].expects.audiences);
          MeshIndexIsMesh(cs, iss, aud);
        }
      }
    }
  }

  /** Mesh record `j` has both, and no later one does. */
  ghost predicate LastMesh(cs: seq<Consumer>, iss: string, aud: string, j: int) {
    && IsMeshWith(cs, iss, aud, j)
    && forall k :: IsMeshWith(cs, iss, aud, k) ==> k <= j
  }

  ghost predicate IsMeshWith(cs: seq<Consumer>, iss: string, aud: string, j: int) {
    0 <= j < |cs| && !IsOIDC(cs[j].stableID) && iss in cs[j].expects.issuers && aud in cs[j].expects.audiences
  }

  ghost predicate SomeMesh(cs: seq<Consumer>, iss: string, aud: string) {
    exists j :: IsMeshWith(cs, iss, aud, j)
  }

  /** The pair of the issuer at `x` and the audience at `y` is the first, issuer by issuer, that
      some mesh record has. */
  ghost predicate FirstMeshPair(cs: seq<Consumer>, c: Consumer, x: int, y: int) {
    var isss, auds := c.expects.issuers, c.expects.audiences;
    && 0 <= x < |isss| && 0 <= y < |auds| && SomeMesh(cs, isss[x], auds[y])
    && (forall w, z :: 0 <= w < x && 0 <= z < |auds| ==> !SomeMesh(cs, isss[w], auds[z]))
    && forall z :: 0 <= z < y ==> !SomeMesh(cs, isss[x], auds[z])
  }

  lemma {:induction false} MeshIndexIsLast(cs: seq<Consumer>, iss: string, aud: string)
    ensures MeshIndex(cs, iss, aud).Some? ==> LastMesh(cs, iss, aud, MeshIndex(cs, iss, aud).value)
    ensures MeshIndex(cs, iss, aud).None? ==> !SomeMesh(cs, iss, aud)
  {
    if cs != [] {
      var n := |cs| - 1;
      var init := cs[..n];
      MeshIndexIsLast(init, iss, aud);
      assert forall k :: k < n ==> (IsMeshWith(cs, iss, aud, k) <==> IsMeshWith(init, iss, aud, k));
    }
  }

  lemma {:induction false} FirstAudienceIs(cs: seq<Consumer>, iss: string, auds: seq<string>, y: nat)
    requires y < |auds| && SomeMesh(cs, iss, auds[y]) && forall z :: 0 <= z < y ==> !SomeMesh(cs, iss, auds[z])
    ensures FirstAudience(cs, iss, auds).Some? && LastMesh(cs, iss, auds[y], FirstAudience(cs, iss, auds).value)
  {
    MeshIndexIsLast(cs, iss, auds[0]);
    if y > 0 {
      FirstAudienceIs(cs, iss, auds[1..], y - 1);
    }
  }

  lemma {:induction false} NoAudience(cs: seq<Consumer>, iss: string, auds: seq<string>)
    requires forall z :: 0 <= z < |auds| ==> !SomeMesh(cs, iss, auds[z])
    ensures FirstAudience(cs, iss, auds).None?
  {
    if auds != [] {
      MeshIndexIsLast(cs, iss, auds[0]);
      NoAudience(cs, iss, auds[1..]);
    }
  }

  lemma {:induction false} FirstPairIs(cs: seq<Consumer>, isss: seq<string>, auds: seq<string>, x: nat, y: nat)
    requires x < |isss| && y < |auds| && SomeMesh(cs, isss[x], auds[y])
    requires forall w, z :: 0 <= w < x && 0 <= z < |auds| ==> !SomeMesh(cs, isss[w], auds[z])
    requires forall z :: 0 <= z < y ==> !SomeMesh(cs, isss[x], auds[z])
    ensures FirstPair(cs, isss, auds).Some? && LastMesh(cs, isss[x], auds[y], FirstPair(cs, isss, auds).value)
  {
    if x == 0 {
      FirstAudienceIs(cs, isss[0], auds, y);
    } else {
      NoAudience(cs, isss[0], auds);
      FirstPairIs(cs, isss[1..], auds, x - 1, y);
    }
  }

  /** An OIDC record folds into the last mesh record that has the first of its pairs that any
      mesh record has. */
  lemma FoldTargetIs(cs: seq<Consumer>, c: Consumer, x: int, y: int)
    requires IsOIDC(c.stableID) && FirstMeshPair(cs, c, x, y)
    ensures FoldTarget(cs, c).Some? && LastMesh(cs, c.expects.issuers[x], c.expects.audiences[y], FoldTarget(cs, c).value)
  {
    FirstPairIs(cs, c.expects.issuers, c.expects.audiences, x, y);
  }

  lemma FoldedStep(cs: seq<Consumer>, n: nat)
    requires n < |cs|
    ensures Folded(cs, n + 1) == FoldInto(Folded(cs, n), FoldTarget(cs, cs[n]), cs[n])
  {
  }

  lemma FoldedNext(cs: seq<Consumer>, n: nat, k: nat)
    requires n < |cs| && k < |cs|
    ensures Folded(cs, n + 1)[k] == if FoldTarget(cs, cs[n]) == Some(k)
                                    then MergeConsumers(Folded(cs, n)[k], cs[n]) else Folded(cs, n)[k]
  {
    FoldedStep(cs, n);
  }

  lemma FoldIntoKeepsID(r: seq<Consumer>, target: Option<nat>, c: Consumer, k: nat)
    requires k < |r|
    ensures FoldInto(r, target, c)[k].stableID == r[k].stableID
    ensures target != Some(k) ==> FoldInto(r, target, c)[k] == r[k]
  {
  }

  lemma {:induction false} FoldedByKeeps(cs: seq<Consumer>, targets: seq<Option<nat>>, n: nat, k: nat)
    requires n <= |cs| == |targets| && k < |cs|
    ensures FoldedBy(cs, targets, n)[k].stableID == cs[k].stableID
    ensures Some(k) !in targets ==> FoldedBy(cs, targets, n)[k] == cs[k]
  {
    if n > 0 {
      FoldedByKeeps(cs, targets, n - 1, k);
      FoldIntoKeepsID(FoldedBy(cs, targets, n - 1), targets[n - 1], cs[n - 1], k);
    }
  }

  /** Folding changes no StableID, and mesh records only. */
  lemma FoldingKeepsID(cs: seq<Consumer>, n: nat, k: nat)
    requires n <= |cs| && k < |cs|
    ensures Folded(cs, n)[k].stableID == cs[k].stableID
    ensures IsOIDC(cs[k].stableID) ==> Folded(cs, n)[k] == cs[k]
  {
    FoldedByKeeps(cs, FoldTargets(cs), n, k);
    if IsOIDC(cs[k].stableID) {
      forall i | 0 <= i < |cs|
        ensures FoldTargets(cs)[i] != Some(k)
      {
        TargetIsMesh(cs, cs[i], k);
      }
    }
  }

  lemma TargetIsMesh(cs: seq<Consumer>, c: Consumer, k: nat)
    requires k < |cs| && IsOIDC(cs[k].stableID)
    ensures FoldTarget(cs, c) != Some(k)
  {
    FoldTargetIff(cs, c);
  }

  method FoldOne(m: map<(string, string), nat>, ghost cs: seq<Consumer>, r: seq<Consumer>, i: nat)
    returns (r': seq<Consumer>, drop: bool)
    requires IndexesMesh(m, cs) && i < |cs| == |r| && r == Folded(cs, i)
    ensures r' == Folded(cs, i + 1) && (drop <==> FoldTarget(cs, cs[i]).Some?)
  {
    r', drop := r, false;
    var c := r[i];
    FoldTargetIff(cs, cs[i]);
    FoldingKeepsID(cs, i, i);
    FoldedStep(cs, i);
    if IsOIDC(c.stableID) {
      var j := FindFoldTarget(m, cs, c);
      if j.Some? {
        r' := r[j.value := MergeConsumers(r[j.value], c)];
        drop := true;
      }
    }
  }

  method FoldAll(cs: seq<Consumer>) returns (r: seq<Consumer>, dropped: seq<bool>)
    ensures r == Folded(cs, |cs|) && |dropped| == |cs|
    ensures forall k :: 0 <= k < |cs| ==> (dropped[k] <==> FoldTarget(cs, cs[k]).Some?)
  {
    var m := IndexMesh(cs);
    r, dropped := cs, [];
    for i := 0 to |cs|
      invariant r == Folded(cs, i) && |dropped| == i
      invariant forall k :: 0 <= k < i ==> (dropped[k] <==> FoldTarget(cs, cs[k]).Some?)
    {
      var drop;
      r, drop := FoldOne(m, cs, r, i);
      dropped := dropped + [drop];
    }
  }

  method AliasFold(cs: seq<Consumer>) returns (out: seq<Consumer>)
    ensures out == AliasFolded(cs)
  {
    var r, dropped := FoldAll(cs);
    out := KeepRest(cs, r, dropped);
  }

  method KeepRest(ghost cs: seq<Consumer>, r: seq<Consumer>, dropped: seq<bool>) returns (out: seq<Consumer>)
    requires |cs| == |r| == |dropped|
    requires forall k :: 0 <= k < |cs| ==> (dropped[k] <==> FoldTarget(cs, cs[k]).Some?)
    ensures out == Kept(cs, r, |cs|)
  {
    out := [];
    for i := 0 to |r|
      invariant out == Kept(cs, r, i)
    {
      if !dropped[i] {
        out := out + [r[i]];
      }
    }
  }

  method Merge(sets: seq<seq<Consumer>>) returns (out: seq<Consumer>)
    ensures forall id :: id in Absorbed(Flatten(sets)).order ==> id in Absorbed(Flatten(sets)).byID
    ensures out == AliasFolded(Records(Absorbed(Flatten(sets))))
  {
    var records := MergeRecords(sets);
    out := AliasFold(records);
  }
}
