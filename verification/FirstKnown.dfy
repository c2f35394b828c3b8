/** What only one source can say of a consumer: the merged record says what the first of its
    sources said that knew. */
module FirstKnown {
  import opened Prelude
  import opened Domain
  import opened Discovery
  import opened MergeIdentity
  import opened MergeConservation

  /** What a record has one of, or does not know. */
  datatype Attr = CacheTTL | RefreshInterval | RefreshesOnUnknown | TheLibrary | JWKSSource | TheName | TheNamespace | TheTeam | TheKind
    | EndpointAt(url: string)

  datatype Known = Nothing | Number(n: int) | Truth(b: bool) | Text(s: string) | Software(l: Library) | Served(e: Endpoint)

  function TextOf(s: string): Known {
    if s == "" then Nothing else Text(s)
  }

  function NumberOf(n: Option<int>): Known {
    match n
    case Some(x) => Number(x)
    case None => Nothing
  }

  /** The first endpoint of a URL. */
  function ServedAt(es: seq<Endpoint>, url: string): Known {
    if es == [] then Nothing else if es[0].url == url then Served(es[0]) else ServedAt(es[1..], url)
  }

  function Of(c: Consumer, attr: Attr): Known {
    match attr
    case CacheTTL => NumberOf(c.jwks.cacheTTLSec)
    case RefreshInterval => NumberOf(c.jwks.refreshIntervalSec)
    case RefreshesOnUnknown => (match c.jwks.refreshesOnUnknownKID case Some(b) => Truth(b) case None => Nothing)
    case TheLibrary => (match c.library case Some(l) => Software(l) case None => Nothing)
    case JWKSSource => TextOf(c.jwks.source)
    case TheName => TextOf(c.name)
    case TheNamespace => TextOf(c.namespace)
    case TheTeam => TextOf(c.ownerTeam)
    case TheKind => TextOf(c.kind)
    case EndpointAt(url) => ServedAt(c.endpoints, url)
  }

  /** Source `k` is the first that knows. */
  ghost predicate FirstAt(cs: seq<Consumer>, of: Consumer -> Known, k: int) {
    0 <= k < |cs| && of(cs[k]) != Nothing && forall j :: 0 <= j < k ==> of(cs[j]) == Nothing
  }

  /** `v` is what the first source that knows says, or nothing if none knows. */
  ghost predicate SaysFirst(cs: seq<Consumer>, of: Consumer -> Known, v: Known) {
    if v == Nothing then forall k :: 0 <= k < |cs| ==> of(cs[k]) == Nothing
    else exists k :: FirstAt(cs, of, k) && of(cs[k]) == v
  }

  // ---- merging two records ----------------------------------------------------------------------

  /** Merging keeps what the first record knows, and takes the rest from the second. */
  ghost predicate KeepsFirst(of: Consumer -> Known) {
    forall a, b :: of(MergeConsumers(a, b)) == if of(a) == Nothing then of(b) else of(a)
  }

  /** How an attribute is read. */
  function Reading(attr: Attr): Consumer -> Known {
    (c: Consumer) => Of(c, attr)
  }

  lemma {:induction false} ServedByEither(a: seq<Endpoint>, b: seq<Endpoint>, url: string)
    ensures ServedAt(a + b, url) == if ServedAt(a, url) == Nothing then ServedAt(b, url) else ServedAt(a, url)
  {
    if a == [] {
      assert a + b == b;
    } else {
      ServedByEither(a[1..], b, url);
      assert (a + b)[1..] == a[1..] + b;
    }
  }

  lemma {:induction false} NotServed(es: seq<Endpoint>, url: string)
    ensures ServedAt(es, url) == Nothing <==> url !in EndpointURLs(es)
  {
    if es != [] {
      NotServed(es[1..], url);
      assert es == [es[0]] + es[1..];
    }
  }

  /** Listing each URL once keeps its first endpoint. */
  lemma {:induction false} ServedOnce(es: seq<Endpoint>, url: string)
    ensures ServedAt(FirstPerURL(es), url) == ServedAt(es, url)
  {
    if es != [] {
      var init, last := es[..|es| - 1], es[|es| - 1];
      ServedOnce(init, url);
      assert es == init + [last];
      ServedByEither(init, [last], url);
      ServedByEither(FirstPerURL(init), [last], url);
      assert [last][1..] == [];
      NotServed(init, url);
    }
  }

  lemma EndpointsKeepFirst(a: Consumer, b: Consumer, url: string)
    ensures Of(MergeConsumers(a, b), EndpointAt(url)) ==
            if Of(a, EndpointAt(url)) == Nothing then Of(b, EndpointAt(url)) else Of(a, EndpointAt(url))
  {
    ServedOnce(a.endpoints + b.endpoints, url);
    ServedByEither(a.endpoints, b.endpoints, url);
  }

  lemma FieldsKeepFirst(a: Consumer, b: Consumer, attr: Attr)
    requires !attr.EndpointAt?
    ensures Of(MergeConsumers(a, b), attr) == if Of(a, attr) == Nothing then Of(b, attr) else Of(a, attr)
  {
  }

  lemma MergedKnows(attr: Attr)
    ensures KeepsFirst(Reading(attr))
  {
    forall a, b
      ensures Reading(attr)(MergeConsumers(a, b)) == if Reading(attr)(a) == Nothing then Reading(attr)(b) else Reading(attr)(a)
    {
      if attr.EndpointAt? {
        EndpointsKeepFirst(a, b, attr.url);
      } else {
        FieldsKeepFirst(a, b, attr);
      }
    }
  }

  lemma SaysFirstAppend(a: seq<Consumer>, b: seq<Consumer>, of: Consumer -> Known, v: Known, w: Known)
    requires SaysFirst(a, of, v) && SaysFirst(b, of, w)
    ensures SaysFirst(a + b, of, if v == Nothing then w else v)
  {
    if v != Nothing {
      var k :| FirstAt(a, of, k) && of(a[k]) == v;
      assert FirstAt(a + b, of, k);
    } else if w != Nothing {
      var k :| FirstAt(b, of, k) && of(b[k]) == w;
      assert FirstAt(a + b, of, |a| + k);
    }
  }

  lemma OneSays(c: Consumer, of: Consumer -> Known)
    ensures SaysFirst([c], of, of(c))
  {
    if of(c) != Nothing {
      assert FirstAt([c], of, 0);
    }
  }

  lemma MergedSays(cs: seq<Consumer>, a: Consumer, b: Consumer, of: Consumer -> Known)
    requires KeepsFirst(of) && SaysFirst(cs, of, of(a))
    ensures SaysFirst(cs + [b], of, of(MergeConsumers(a, b)))
  {
    OneSays(b, of);
    SaysFirstAppend(cs, [b], of, of(a), of(b));
  }

  // ---- records before folding ---------------------------------------------------------------------

  /** The inputs that went into record `id`, in order. */
  function Into(inputs: seq<Consumer>, owners: seq<string>, id: string): seq<Consumer>
    requires |inputs| == |owners|
  {
    if inputs == [] then [] else
      var n := |inputs| - 1;
      Into(inputs[..n], owners[..n], id) + if owners[n] == id then [inputs[n]] else []
  }

  lemma IntoOneMore(inputs: seq<Consumer>, owners: seq<string>, c: Consumer, owner: string, id: string)
    requires |inputs| == |owners|
    ensures Into(inputs + [c], owners + [owner], id) == Into(inputs, owners, id) + if owner == id then [c] else []
  {
    assert (inputs + [c])[..|inputs|] == inputs && (owners + [owner])[..|owners|] == owners;
  }

  lemma {:induction false} IntoNobody(inputs: seq<Consumer>, owners: seq<string>, id: string)
    requires |inputs| == |owners| && forall i :: 0 <= i < |owners| ==> owners[i] != id
    ensures Into(inputs, owners, id) == []
  {
    if inputs != [] {
      IntoNobody(inputs[..|inputs| - 1], owners[..|inputs| - 1], id);
    }
  }

  /** Every record says what the first of its inputs that knew said. */
  ghost predicate RecordsSay(inputs: seq<Consumer>, r: Registry, of: Consumer -> Known) {
    && |r.owners| == |inputs|
    && forall id :: id in r.byID ==> SaysFirst(Into(inputs, r.owners, id), of, of(r.byID[id]))
  }

  lemma RecordSaysStep(inputs: seq<Consumer>, r: Registry, c: Consumer, owner: string, id: string, of: Consumer -> Known)
    requires KeepsFirst(of) && RecordsSay(inputs, r, of) && forall i :: 0 <= i < |inputs| ==> r.owners[i] in r.byID
    requires id in r.byID || id == owner
    ensures SaysFirst(Into(inputs + [c], r.owners + [owner], id), of,
                      of(if id != owner then r.byID[id] else if owner in r.byID then MergeConsumers(r.byID[owner], c) else c))
  {
    IntoOneMore(inputs, r.owners, c, owner, id);
    var was := Into(inputs, r.owners, id);
    if id != owner {
      assert was + [] == was;
    } else if owner in r.byID {
      MergedSays(was, r.byID[owner], c, of);
    } else {
      IntoNobody(inputs, r.owners, id);
      OneSays(c, of);
      assert [] + [c] == [c];
    }
  }

  lemma RecordsSayStep(inputs: seq<Consumer>, r: Registry, c: Consumer, owner: string, r': Registry, of: Consumer -> Known)
    requires KeepsFirst(of) && RecordsSay(inputs, r, of) && forall i :: 0 <= i < |inputs| ==> r.owners[i] in r.byID
    requires r'.owners == r.owners + [owner]
    requires r'.byID == r.byID[owner := if owner in r.byID then MergeConsumers(r.byID[owner], c) else c]
    ensures RecordsSay(inputs + [c], r', of)
  {
    forall id | id in r'.byID
      ensures SaysFirst(Into(inputs + [c], r'.owners, id), of, of(r'.byID[id]))
    {
      RecordSaysStep(inputs, r, c, owner, id, of);
    }
  }

  /** What absorbing one more named input does to a registry. */
  ghost predicate Extended(inputs: seq<Consumer>, r: Registry, c: Consumer, owner: string, r': Registry) {
    && |r.owners| == |inputs| && (forall i :: 0 <= i < |inputs| ==> r.owners[i] in r.byID)
    && r'.owners == r.owners + [owner]
    && r'.byID == r.byID[owner := if owner in r.byID then MergeConsumers(r.byID[owner], c) else c]
  }

  /** The registries after the first, the second, … input. */
  ghost predicate StepAt(inputs: seq<Consumer>, regs: seq<Registry>, n: nat)
    requires |regs| == |inputs| + 1
  {
    n < |inputs| && exists owner :: StepTo(inputs, regs, n, owner)
  }

  /** Input `n` went into record `owner`. */
  ghost predicate StepTo(inputs: seq<Consumer>, regs: seq<Registry>, n: nat, owner: string)
    requires |regs| == |inputs| + 1 && n < |inputs|
  {
    Extended(inputs[..n], regs[n], inputs[n], owner, regs[n + 1])
  }

  function Registries(inputs: seq<Consumer>): (regs: seq<Registry>)
    ensures |regs| == |inputs| + 1
  {
    seq(|inputs| + 1, n requires 0 <= n <= |inputs| => Absorbed(inputs[..n]))
  }

  lemma RegistriesStep(inputs: seq<Consumer>, n: nat)
    requires AllNamed(inputs) && n < |inputs|
    ensures StepAt(inputs, Registries(inputs), n)
  {
    var past, init := inputs[..n + 1], inputs[..n];
    assert past[..|past| - 1] == init;
    var owner := LastStep(past);
    OwnersAreRecords(init);
    assert StepTo(inputs, Registries(inputs), n, owner);
  }

  lemma SaysAfterStep(inputs: seq<Consumer>, regs: seq<Registry>, n: nat, of: Consumer -> Known)
    requires KeepsFirst(of) && |regs| == |inputs| + 1 && StepAt(inputs, regs, n) && RecordsSay(inputs[..n], regs[n], of)
    ensures RecordsSay(inputs[..n + 1], regs[n + 1], of)
  {
    var owner :| StepTo(inputs, regs, n, owner);
    RecordsSayStep(inputs[..n], regs[n], inputs[n], owner, regs[n + 1], of);
    assert inputs[..n + 1] == inputs[..n] + [inputs[n]];
  }

  lemma SaysThroughout(inputs: seq<Consumer>, regs: seq<Registry>, n: nat, of: Consumer -> Known)
    requires KeepsFirst(of) && |regs| == |inputs| + 1 && regs[0] == Registry([], map[], map[], [])
    requires n <= |inputs| && forall k :: 0 <= k < |inputs| ==> StepAt(inputs, regs, k)
    ensures RecordsSay(inputs[..n], regs[n], of)
  {
    for k := 0 to n
      invariant RecordsSay(inputs[..k], regs[k], of)
    {
      SaysAfterStep(inputs, regs, k, of);
    }
  }

  lemma RecordsSayFirst(inputs: seq<Consumer>, of: Consumer -> Known)
    requires AllNamed(inputs) && KeepsFirst(of)
    ensures RecordsSay(inputs, Absorbed(inputs), of)
  {
    forall n | 0 <= n < |inputs|
      ensures StepAt(inputs, Registries(inputs), n)
    {
      RegistriesStep(inputs, n);
    }
    SaysThroughout(inputs, Registries(inputs), |inputs|, of);
    assert inputs[..|inputs|] == inputs;
  }

  // ---- folding ------------------------------------------------------------------------------------------

  /** Those of the first `n` whose target is `j`, in order. */
  function Targeting(cs: seq<Consumer>, targets: seq<Option<nat>>, n: nat, j: nat): seq<Consumer>
    requires n <= |cs| == |targets|
  {
    if n == 0 then [] else Targeting(cs, targets, n - 1, j) + if targets[n - 1] == Some(j) then [cs[n - 1]] else []
  }

  /** The records folded into record `j`, in order. */
  function FoldedInto(cs: seq<Consumer>, j: nat): seq<Consumer> {
    Targeting(cs, FoldTargets(cs), |cs|, j)
  }

  lemma FoldedByAt(cs: seq<Consumer>, targets: seq<Option<nat>>, n: nat, j: nat)
    requires 0 < n <= |cs| == |targets| && j < |cs|
    ensures FoldedBy(cs, targets, n)[j] == if targets[n - 1] == Some(j)
                                           then MergeConsumers(FoldedBy(cs, targets, n - 1)[j], cs[n - 1])
                                           else FoldedBy(cs, targets, n - 1)[j]
  {
  }

  ghost predicate FoldSays(into: seq<Consumer>, c: Consumer, r: Consumer, of: Consumer -> Known) {
    SaysFirst([c] + into, of, of(r))
  }

  lemma FoldSaysNext(into: seq<Consumer>, c: Consumer, r: Consumer, d: Consumer, of: Consumer -> Known)
    requires KeepsFirst(of) && FoldSays(into, c, r, of)
    ensures FoldSays(into + [d], c, MergeConsumers(r, d), of)
  {
    MergedSays([c] + into, r, d, of);
    assert [c] + (into + [d]) == [c] + into + [d];
  }

  lemma FoldSaysAfter(into: seq<Consumer>, c: Consumer, r: Consumer, hit: bool, d: Consumer,
                      into': seq<Consumer>, r': Consumer, of: Consumer -> Known)
    requires KeepsFirst(of) && FoldSays(into, c, r, of)
    requires into' == (if hit then into + [d] else into) && r' == if hit then MergeConsumers(r, d) else r
    ensures FoldSays(into', c, r', of)
  {
    if hit {
      FoldSaysNext(into, c, r, d, of);
    }
  }

  lemma TargetingAt(cs: seq<Consumer>, targets: seq<Option<nat>>, n: nat, j: nat)
    requires 0 < n <= |cs| == |targets|
    ensures Targeting(cs, targets, n, j) ==
            if targets[n - 1] == Some(j) then Targeting(cs, targets, n - 1, j) + [cs[n - 1]] else Targeting(cs, targets, n - 1, j)
  {
  }

  lemma NothingFolded(c: Consumer, of: Consumer -> Known)
    ensures FoldSays([], c, c, of)
  {
    OneSays(c, of);
    assert [c] + [] == [c];
  }

  lemma {:induction false} FoldingSaysFirst(cs: seq<Consumer>, targets: seq<Option<nat>>, n: nat, j: nat, of: Consumer -> Known)
    requires KeepsFirst(of) && n <= |cs| == |targets| && j < |cs|
    ensures FoldSays(Targeting(cs, targets, n, j), cs[j], FoldedBy(cs, targets, n)[j], of)
  {
    if n == 0 {
      NothingFolded(cs[j], of);
    } else {
      FoldingSaysFirst(cs, targets, n - 1, j, of);
      FoldedByAt(cs, targets, n, j);
      TargetingAt(cs, targets, n, j);
      FoldSaysAfter(Targeting(cs, targets, n - 1, j), cs[j], FoldedBy(cs, targets, n - 1)[j], targets[n - 1] == Some(j), cs[n - 1],
                    Targeting(cs, targets, n, j), FoldedBy(cs, targets, n)[j], of);
    }
  }

  // ---- end to end ---------------------------------------------------------------------------------------

  /** All the inputs behind some records, record by record. */
  function Behind(rs: seq<Consumer>, inputs: seq<Consumer>, owners: seq<string>): seq<Consumer>
    requires |inputs| == |owners|
  {
    if rs == [] then [] else
      Behind(rs[..|rs| - 1], inputs, owners) + Into(inputs, owners, rs[|rs| - 1].stableID)
  }

  lemma {:induction false} BehindSays(rs: seq<Consumer>, inputs: seq<Consumer>, owners: seq<string>, of: Consumer -> Known, v: Known)
    requires |inputs| == |owners| && SaysFirst(rs, of, v)
    requires forall r :: r in rs ==> SaysFirst(Into(inputs, owners, r.stableID), of, of(r))
    ensures SaysFirst(Behind(rs, inputs, owners), of, v)
  {
    if rs != [] {
      var n := |rs| - 1;
      var init, last := rs[..n], rs[n];
      var w := if v == Nothing || !SaysFirst(init, of, v) then Nothing else v;
      InitSays(rs, of, v, w);
      assert last in rs;
      assert forall r :: r in init ==> r in rs;
      BehindSays(init, inputs, owners, of, w);
      SaysFirstAppend(Behind(init, inputs, owners), Into(inputs, owners, last.stableID), of, w, of(last));
    }
  }

  /** Either the last source decides, or it does not matter. */
  lemma InitSays(rs: seq<Consumer>, of: Consumer -> Known, v: Known, w: Known)
    requires rs != [] && SaysFirst(rs, of, v)
    requires w == if v == Nothing || !SaysFirst(rs[..|rs| - 1], of, v) then Nothing else v
    ensures SaysFirst(rs[..|rs| - 1], of, w) && v == if w == Nothing then of(rs[|rs| - 1]) else w
  {
    var n, init := |rs| - 1, rs[..|rs| - 1];
    assert forall k :: 0 <= k < n ==> init[k] == rs[k];
    if v != Nothing {
      var k :| FirstAt(rs, of, k) && of(rs[k]) == v;
      if k < n {
        assert FirstAt(init, of, k);
      } else {
        assert forall i :: 0 <= i < n ==> of(init[i]) == Nothing;
      }
    }
  }

  /** The sources of the output record that record `j` became: its own inputs, then those of
      each record folded into it. */
  ghost function Sources(inputs: seq<Consumer>, j: nat): seq<Consumer>
    requires AllNamed(inputs) && Complete(Absorbed(inputs)) && |Owners(inputs)| == |inputs|
    requires j < |Records(Absorbed(inputs))|
  {
    var cs := Records(Absorbed(inputs));
    Behind([cs[j]] + FoldedInto(cs, j), inputs, Owners(inputs))
  }

  lemma {:induction false} TargetingAre(cs: seq<Consumer>, targets: seq<Option<nat>>, n: nat, j: nat)
    requires n <= |cs| == |targets|
    ensures forall r :: r in Targeting(cs, targets, n, j) ==> r in cs
  {
    if n > 0 {
      TargetingAre(cs, targets, n - 1, j);
    }
  }

  lemma RecordSays(inputs: seq<Consumer>, r: Consumer, of: Consumer -> Known)
    requires AllNamed(inputs) && Complete(Absorbed(inputs)) && |Owners(inputs)| == |inputs|
    requires r in Records(Absorbed(inputs)) && KeepsFirst(of)
    ensures SaysFirst(Into(inputs, Owners(inputs), r.stableID), of, of(r))
  {
    var reg := Absorbed(inputs);
    AbsorbingIsHistory(inputs);
    NamesOfRecords(reg);
    RecordsSayFirst(inputs, of);
    var k :| 0 <= k < |reg.order| && Records(reg)[k] == r;
    assert NamesOf(Records(reg))[k] == reg.order[k];
  }

  /** The whole of Merge: every output record knows its cache TTL, refresh interval, refresh
      behaviour, library, source, name, namespace, team, kind and the endpoint of a URL exactly if one of its sources
      does, and then as the first of them that does. */
  lemma OutputSaysFirst(inputs: seq<Consumer>, k: nat, attr: Attr)
    requires AllNamed(inputs) && k < |Merged(inputs)|
    ensures Complete(Absorbed(inputs)) && |Owners(inputs)| == |inputs|
    ensures exists j: nat :: j < |Records(Absorbed(inputs))|
                             && Merged(inputs)[k].stableID == Records(Absorbed(inputs))[j].stableID
                             && SaysFirst(Sources(inputs, j), Reading(attr), Of(Merged(inputs)[k], attr))
  {
    AbsorbedIsComplete(inputs);
    OwnersAreRecords(inputs);
    var cs, of := Records(Absorbed(inputs)), Reading(attr);
    MergedKnows(attr);
    var j := KeptFrom(cs, Folded(cs, |cs|), |cs|, k);
    FoldingKeepsID(cs, |cs|, j);
    FoldingSaysFirst(cs, FoldTargets(cs), |cs|, j, of);
    TargetingAre(cs, FoldTargets(cs), |cs|, j);
    var rs := [cs[j]] + FoldedInto(cs, j);
    forall r | r in rs
      ensures SaysFirst(Into(inputs, Owners(inputs), r.stableID), of, of(r))
    {
      RecordSays(inputs, r, of);
    }
    BehindSays(rs, inputs, Owners(inputs), of, of(Merged(inputs)[k]));
  }
}
