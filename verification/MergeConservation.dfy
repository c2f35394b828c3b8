/** Merging neither loses nor invents what discovery found, up to the final records. */
module MergeConservation {
  import opened Prelude
  import opened Domain
  import opened Discovery
  import opened MergeIdentity
  import K = Keyrings

  /** What a discovered consumer may say about itself. */
  datatype Fact =
    | TrustsIssuer(url: string)
    | AcceptsAudience(aud: string)
    | AllowsAlgorithm(alg: string)
    | RequiresClaim(claim: string)
    | ServesAt(url: string)
    | HasKey(key: string)
    | SkewAtLeast(sec: int)
    | CanProbe
    | SureOf(field: string, least: real)
    | Shown(field: string, record: Provenance)

  ghost predicate Has(c: Consumer, f: Fact) {
    match f
    case TrustsIssuer(url) => url in c.expects.issuers
    case AcceptsAudience(aud) => aud in c.expects.audiences
    case AllowsAlgorithm(alg) => alg in c.expects.algorithms
    case RequiresClaim(claim) => claim in c.expects.requiredClaims
    case ServesAt(url) => url in EndpointURLs(c.endpoints)
    case HasKey(key) => key in KeySet(c)
    case SkewAtLeast(sec) => c.expects.clockSkewSec >= sec
    case CanProbe => c.probeable
    case SureOf(field, least) => least > 0.0 && field in c.confidence && c.confidence[field] >= least
    case Shown(field, record) => field in c.provenance && record in c.provenance[field]
  }

  /** A merged record has exactly the facts of its two parts: lists and endpoints are
      united, the larger skew and confidence win, provenance is kept, and either part can make
      it probeable. */
  lemma MergedHas(a: Consumer, b: Consumer, f: Fact)
    requires b.stableID != ""
    ensures Has(MergeConsumers(a, b), f) <==> Has(a, f) || Has(b, f)
  {
    MergedKeys(a, b);
    var m := MergeConsumers(a, b);
    assert Elems(m.expects.issuers) == Elems(a.expects.issuers) + Elems(b.expects.issuers);
    assert Elems(m.expects.audiences) == Elems(a.expects.audiences) + Elems(b.expects.audiences);
    assert Elems(m.expects.algorithms) == Elems(a.expects.algorithms) + Elems(b.expects.algorithms);
    assert Elems(m.expects.requiredClaims) == Elems(a.expects.requiredClaims) + Elems(b.expects.requiredClaims);
    assert EndpointURLs(m.endpoints) == EndpointURLs(a.endpoints) + EndpointURLs(b.endpoints);
    match f
    case TrustsIssuer(url) => assert url in m.expects.issuers <==> url in Elems(m.expects.issuers);
    case AcceptsAudience(aud) => assert aud in m.expects.audiences <==> aud in Elems(m.expects.audiences);
    case AllowsAlgorithm(alg) => assert alg in m.expects.algorithms <==> alg in Elems(m.expects.algorithms);
    case RequiresClaim(claim) => assert claim in m.expects.requiredClaims <==> claim in Elems(m.expects.requiredClaims);
    case ServesAt(_) =>
    case HasKey(_) =>
    case SkewAtLeast(_) =>
    case CanProbe =>
    case SureOf(_, _) =>
    case Shown(field, _) => assert field in m.provenance <==> field in a.provenance || field in b.provenance;
  }

  /** Some consumer whose home is `id` has the fact. */
  ghost predicate Gathers(cs: seq<Consumer>, homes: seq<string>, id: string, f: Fact)
    requires |cs| == |homes|
  {
    exists i :: 0 <= i < |cs| && homes[i] == id && Has(cs[i], f)
  }

  lemma GathersOneMore(cs: seq<Consumer>, homes: seq<string>, n: nat, id: string, f: Fact)
    requires n < |cs| == |homes|
    ensures Gathers(cs[..n + 1], homes[..n + 1], id, f) <==>
              Gathers(cs[..n], homes[..n], id, f) || (homes[n] == id && Has(cs[n], f))
  {
    if Gathers(cs[..n], homes[..n], id, f) {
      var i :| 0 <= i < n && homes[..n][i] == id && Has(cs[..n][i], f);
      assert homes[..n + 1][i] == id && Has(cs[..n + 1][i], f);
    }
    if homes[n] == id && Has(cs[n], f) {
      assert homes[..n + 1][n] == id && Has(cs[..n + 1][n], f);
    }
    if Gathers(cs[..n + 1], homes[..n + 1], id, f) {
      var i :| 0 <= i < n + 1 && homes[..n + 1][i] == id && Has(cs[..n + 1][i], f);
      assert i < n ==> homes[..n][i] == id && Has(cs[..n][i], f);
    }
  }

  // ---- records before folding -------------------------------------------------------------

  /** Every record has exactly the facts of the inputs that went into it. */
  ghost predicate RecordsGather(inputs: seq<Consumer>, r: Registry, f: Fact) {
    && |r.owners| == |inputs|
    && forall id :: id in r.byID ==> (Has(r.byID[id], f) <==> Gathers(inputs, r.owners, id, f))
  }

  lemma GatherOneMore(inputs: seq<Consumer>, r: Registry, c: Consumer, owner: string, byID': map<string, Consumer>,
                      id: string, f: Fact)
    requires RecordsGather(inputs, r, f) && c.stableID != "" && id in byID'
    requires forall i :: 0 <= i < |inputs| ==> r.owners[i] in r.byID
    requires byID' == r.byID[owner := if owner in r.byID then MergeConsumers(r.byID[owner], c) else c]
    ensures Has(byID'[id], f) <==> Gathers(inputs + [c], r.owners + [owner], id, f)
  {
    var ins, owners, n := inputs + [c], r.owners + [owner], |inputs|;
    assert ins[..n] == inputs && owners[..n] == r.owners && ins[..n + 1] == ins && owners[..n + 1] == owners;
    GathersOneMore(ins, owners, n, id, f);
    if id in r.byID {
      MergedHas(r.byID[id], c, f);
    }
  }

  lemma GatherStep(inputs: seq<Consumer>, r: Registry, c: Consumer, owner: string, r': Registry, f: Fact)
    requires RecordsGather(inputs, r, f) && c.stableID != "" && r'.owners == r.owners + [owner]
    requires forall i :: 0 <= i < |inputs| ==> r.owners[i] in r.byID
    requires r'.byID == r.byID[owner := if owner in r.byID then MergeConsumers(r.byID[owner], c) else c]
    ensures RecordsGather(inputs + [c], r', f)
  {
    forall id | id in r'.byID
      ensures Has(r'.byID[id], f) <==> Gathers(inputs + [c], r'.owners, id, f)
    {
      GatherOneMore(inputs, r, c, owner, r'.byID, id, f);
    }
  }

  lemma NextRecordsGather(init: seq<Consumer>, c: Consumer, f: Fact)
    requires AllNamed(init + [c]) && RecordsGather(init, Absorbed(init), f)
    ensures RecordsGather(init + [c], Absorbed(init + [c]), f)
  {
    assert (init + [c])[..|init|] == init;
    assert AllNamed(init) by {
      assert forall i :: 0 <= i < |init| ==> init[i] == (init + [c])[i];
    }
    assert c == (init + [c])[|init|] && c.stableID != "";
    var owner := LastStep(init + [c]);
    OwnersAreRecords(init);
    GatherStep(init, Absorbed(init), c, owner, Absorbed(init + [c]), f);
  }

  lemma RecordsHoldTheirInputs(inputs: seq<Consumer>, f: Fact)
    requires AllNamed(inputs)
    ensures RecordsGather(inputs, Absorbed(inputs), f)
  {
    for n := 0 to |inputs|
      invariant RecordsGather(inputs[..n], Absorbed(inputs[..n]), f)
    {
      assert inputs[..n + 1] == inputs[..n] + [inputs[n]];
      NextRecordsGather(inputs[..n], inputs[n], f);
    }
    assert inputs[..|inputs|] == inputs;
  }

  // ---- folding ------------------------------------------------------------------------------

  /** The StableID a record ends up under. */
  function HomeOf(cs: seq<Consumer>, c: Consumer): string {
    var t := FoldTarget(cs, c);
    if t.Some? && t.value < |cs| then cs[t.value].stableID else c.stableID
  }

  function FoldHomes(cs: seq<Consumer>): (homes: seq<string>)
    ensures |homes| == |cs|
  {
    seq(|cs|, i requires 0 <= i < |cs| => HomeOf(cs, cs[i]))
  }

  lemma HomeIsTarget(cs: seq<Consumer>, c: nat, j: nat)
    requires DistinctStableIDs(cs) && c < |cs| && j < |cs| && c != j
    ensures FoldTarget(cs, cs[c]) == Some(j) <==> HomeOf(cs, cs[c]) == cs[j].stableID
  {
    FoldTargetIff(cs, cs[c]);
  }

  /** `r` has the facts of record `j` and of those among the first `n` folded into it. */
  ghost predicate FoldGathers(cs: seq<Consumer>, n: nat, j: nat, f: Fact, r: Consumer)
    requires n <= |cs| && j < |cs|
  {
    Has(r, f) <==> Has(cs[j], f) || Gathers(cs[..n], FoldHomes(cs)[..n], cs[j].stableID, f)
  }

  lemma FoldGathersOneMore(cs: seq<Consumer>, n: nat, j: nat, f: Fact, before: Consumer, after: Consumer)
    requires DistinctStableIDs(cs) && AllNamed(cs) && n < |cs| && j < |cs|
    requires after == if FoldTarget(cs, cs[n]) == Some(j) then MergeConsumers(before, cs[n]) else before
    requires FoldGathers(cs, n, j, f, before)
    ensures FoldGathers(cs, n + 1, j, f, after)
  {
    GathersOneMore(cs, FoldHomes(cs), n, cs[j].stableID, f);
    FoldTargetIff(cs, cs[n]);
    if n != j {
      HomeIsTarget(cs, n, j);
    }
    MergedHas(before, cs[n], f);
  }

  /** After folding the first `n`, record `j` has the facts of those folded into it so far. */
  ghost predicate GathersAt(cs: seq<Consumer>, n: nat, j: nat, f: Fact)
    requires n <= |cs| && j < |cs|
  {
    FoldGathers(cs, n, j, f, Folded(cs, n)[j])
  }

  lemma GathersAtNext(cs: seq<Consumer>, n: nat, j: nat, f: Fact)
    requires DistinctStableIDs(cs) && AllNamed(cs) && n < |cs| && j < |cs| && GathersAt(cs, n, j, f)
    ensures GathersAt(cs, n + 1, j, f)
  {
    FoldedNext(cs, n, j);
    FoldGathersOneMore(cs, n, j, f, Folded(cs, n)[j], Folded(cs, n + 1)[j]);
  }

  lemma FoldedHas(cs: seq<Consumer>, n: nat, j: nat, f: Fact)
    requires DistinctStableIDs(cs) && AllNamed(cs) && n <= |cs| && j < |cs|
    ensures GathersAt(cs, n, j, f)
  {
    for k := 0 to n
      invariant GathersAt(cs, k, j, f)
    {
      GathersAtNext(cs, k, j, f);
    }
  }

  lemma {:induction false} KeptFrom(cs: seq<Consumer>, r: seq<Consumer>, n: nat, k: nat) returns (j: nat)
    requires n <= |cs| == |r| && k < |Kept(cs, r, n)|
    ensures j < n && FoldTarget(cs, cs[j]).None? && Kept(cs, r, n)[k] == r[j]
  {
    if k < |Kept(cs, r, n - 1)| {
      j := KeptFrom(cs, r, n - 1, k);
    } else {
      j := n - 1;
    }
  }

  lemma {:induction false} KeptHas(cs: seq<Consumer>, r: seq<Consumer>, n: nat, j: nat)
    requires j < n <= |cs| == |r| && FoldTarget(cs, cs[j]).None?
    ensures r[j] in Kept(cs, r, n)
  {
    if j < n - 1 {
      KeptHas(cs, r, n - 1, j);
    }
  }

  lemma {:induction false} KeptAreDistinct(cs: seq<Consumer>, r: seq<Consumer>, n: nat)
    requires n <= |cs| == |r| && DistinctStableIDs(cs) && forall j :: 0 <= j < |r| ==> r[j].stableID == cs[j].stableID
    ensures DistinctStableIDs(Kept(cs, r, n))
  {
    if n > 0 {
      KeptAreDistinct(cs, r, n - 1);
      var init := Kept(cs, r, n - 1);
      forall k | 0 <= k < |init|
        ensures init[k].stableID != r[n - 1].stableID
      {
        var j := KeptFrom(cs, r, n - 1, k);
      }
    }
  }

  /** A record is folded away exactly when it is an OIDC record that shares an issuer and an
      audience with a mesh record. */
  ghost predicate FoldsAway(cs: seq<Consumer>, c: Consumer) {
    IsOIDC(c.stableID) && exists j :: SharesPair(cs, c, j)
  }

  /** The names of the records among the first `n` that are not folded away. */
  ghost function SurvivingNames(cs: seq<Consumer>, n: nat): seq<string>
    requires n <= |cs|
  {
    if n == 0 then [] else
      SurvivingNames(cs, n - 1) + if FoldsAway(cs, cs[n - 1]) then [] else [cs[n - 1].stableID]
  }

  lemma FoldsAwayIff(cs: seq<Consumer>, c: Consumer)
    ensures FoldTarget(cs, c).Some? <==> FoldsAway(cs, c)
  {
    FoldTargetIff(cs, c);
  }

  lemma {:induction false} KeptNames(cs: seq<Consumer>, r: seq<Consumer>, n: nat)
    requires n <= |cs| == |r| && forall j :: 0 <= j < |r| ==> r[j].stableID == cs[j].stableID
    ensures NamesOf(Kept(cs, r, n)) == SurvivingNames(cs, n)
  {
    if n > 0 {
      KeptNames(cs, r, n - 1);
      FoldsAwayIff(cs, cs[n - 1]);
    }
  }

  ghost function MeshNames(names: seq<string>): seq<string> {
    if names == [] then [] else
      MeshNames(names[..|names| - 1]) + if IsOIDC(names[|names| - 1]) then [] else [names[|names| - 1]]
  }

  lemma MeshNamesAppend(names: seq<string>, id: string)
    ensures MeshNames(names + [id]) == MeshNames(names) + if IsOIDC(id) then [] else [id]
  {
    assert (names + [id])[..|names|] == names;
  }

  lemma {:induction false} SurvivingMesh(cs: seq<Consumer>, n: nat)
    requires n <= |cs|
    ensures MeshNames(SurvivingNames(cs, n)) == MeshNames(NamesOf(cs)[..n])
  {
    if n > 0 {
      SurvivingMesh(cs, n - 1);
      var names, id := NamesOf(cs), cs[n - 1].stableID;
      assert names[..n] == names[..n - 1] + [id];
      MeshNamesAppend(names[..n - 1], id);
      MeshNamesAppend(SurvivingNames(cs, n - 1), id);
      assert FoldsAway(cs, cs[n - 1]) ==> IsOIDC(id);
      assert SurvivingNames(cs, n - 1) + [] == SurvivingNames(cs, n - 1);
    }
  }

  lemma FoldingKeepsIDs(cs: seq<Consumer>)
    ensures forall j :: 0 <= j < |cs| ==> Folded(cs, |cs|)[j].stableID == cs[j].stableID
  {
    forall j | 0 <= j < |cs|
      ensures Folded(cs, |cs|)[j].stableID == cs[j].stableID
    {
      FoldingKeepsID(cs, |cs|, j);
    }
  }

  /** Folding drops exactly the OIDC records that share a pair with a mesh record, keeps the
      others in order, and so neither drops nor reorders mesh records. */
  lemma FoldingKeepsMesh(cs: seq<Consumer>)
    ensures NamesOf(AliasFolded(cs)) == SurvivingNames(cs, |cs|)
    ensures MeshNames(NamesOf(AliasFolded(cs))) == MeshNames(NamesOf(cs))
  {
    FoldingKeepsIDs(cs);
    KeptNames(cs, Folded(cs, |cs|), |cs|);
    SurvivingMeshAll(cs);
  }

  lemma SurvivingMeshAll(cs: seq<Consumer>)
    ensures MeshNames(SurvivingNames(cs, |cs|)) == MeshNames(NamesOf(cs))
  {
    SurvivingMesh(cs, |cs|);
    assert NamesOf(cs)[..|cs|] == NamesOf(cs);
  }

  /** A record that survives folding has its own facts and those of all folded into it. */
  lemma SurvivorsGather(cs: seq<Consumer>, k: nat, f: Fact)
    requires DistinctStableIDs(cs) && AllNamed(cs) && k < |AliasFolded(cs)|
    ensures Has(AliasFolded(cs)[k], f) <==> Gathers(cs, FoldHomes(cs), AliasFolded(cs)[k].stableID, f)
  {
    var n := |cs|;
    var j := KeptFrom(cs, Folded(cs, n), n, k);
    FoldingKeepsID(cs, n, j);
    FoldedHas(cs, n, j, f);
    assert cs[..n] == cs && FoldHomes(cs)[..n] == FoldHomes(cs);
    assert FoldHomes(cs)[j] == cs[j].stableID;
  }

  lemma HomesSurvive(cs: seq<Consumer>, i: nat)
    requires i < |cs|
    ensures HomeOf(cs, cs[i]) in NamesOf(AliasFolded(cs))
  {
    var r := Folded(cs, |cs|);
    FoldTargetIff(cs, cs[i]);
    var j := if FoldTarget(cs, cs[i]).Some? then FoldTarget(cs, cs[i]).value else i;
    FoldTargetIff(cs, cs[j]);
    KeptHas(cs, r, |cs|, j);
    FoldingKeepsID(cs, |cs|, j);
    var k :| 0 <= k < |AliasFolded(cs)| && AliasFolded(cs)[k] == r[j];
    assert NamesOf(AliasFolded(cs))[k] == HomeOf(cs, cs[i]);
  }

  // ---- end to end ---------------------------------------------------------------------------

  ghost predicate Complete(r: Registry) {
    && (forall id :: id in r.order ==> id in r.byID)
    && forall i :: 0 <= i < |r.owners| ==> r.owners[i] in r.order
  }

  /** Where each input ends up: the StableID of an output record. */
  ghost function Homes(r: Registry): (homes: seq<string>)
    requires Complete(r)
    ensures |homes| == |r.owners|
  {
    seq(|r.owners|, i requires 0 <= i < |r.owners| => HomeOf(Records(r), r.byID[r.owners[i]]))
  }

  lemma AbsorbedIsComplete(inputs: seq<Consumer>)
    requires AllNamed(inputs)
    ensures Complete(Absorbed(inputs))
  {
    AbsorbingIsHistory(inputs);
    OrderIsKept(inputs);
    K.DedupMembers(Absorbed(inputs).owners);
  }

  /** Each record has the facts of its inputs; its fold home is theirs. */
  ghost predicate Staged(inputs: seq<Consumer>, owners: seq<string>, homes: seq<string>,
                         cs: seq<Consumer>, order: seq<string>, folds: seq<string>, f: Fact) {
    && |inputs| == |owners| == |homes| && |cs| == |order| == |folds|
    && (forall j :: 0 <= j < |cs| ==> (Has(cs[j], f) <==> Gathers(inputs, owners, order[j], f)))
    && (forall i :: 0 <= i < |inputs| ==> owners[i] in order)
    && forall i, j :: 0 <= i < |inputs| && 0 <= j < |cs| && owners[i] == order[j] ==> homes[i] == folds[j]
  }

  lemma StagedDown(inputs: seq<Consumer>, owners: seq<string>, homes: seq<string>,
                   cs: seq<Consumer>, order: seq<string>, folds: seq<string>, id: string, f: Fact)
    requires Staged(inputs, owners, homes, cs, order, folds, f) && Gathers(cs, folds, id, f)
    ensures Gathers(inputs, homes, id, f)
  {
    var j :| 0 <= j < |cs| && folds[j] == id && Has(cs[j], f);
    assert Gathers(inputs, owners, order[j], f);
    var i :| 0 <= i < |inputs| && owners[i] == order[j] && Has(inputs[i], f);
    assert homes[i] == id;
  }

  lemma StagedUp(inputs: seq<Consumer>, owners: seq<string>, homes: seq<string>,
                 cs: seq<Consumer>, order: seq<string>, folds: seq<string>, id: string, f: Fact)
    requires Staged(inputs, owners, homes, cs, order, folds, f) && Gathers(inputs, homes, id, f)
    ensures Gathers(cs, folds, id, f)
  {
    var i :| 0 <= i < |inputs| && homes[i] == id && Has(inputs[i], f);
    var j :| 0 <= j < |order| && order[j] == owners[i];
    assert Gathers(inputs, owners, order[j], f);
    assert folds[j] == id;
  }

  lemma GathersThroughRecords(inputs: seq<Consumer>, r: Registry, id: string, f: Fact)
    requires Complete(r) && RecordsGather(inputs, r, f)
    ensures Gathers(Records(r), FoldHomes(Records(r)), id, f) <==> Gathers(inputs, Homes(r), id, f)
  {
    var cs := Records(r);
    forall j | 0 <= j < |cs|
      ensures Has(cs[j], f) <==> Gathers(inputs, r.owners, r.order[j], f)
    {
    }
    assert Staged(inputs, r.owners, Homes(r), cs, r.order, FoldHomes(cs), f);
    if Gathers(cs, FoldHomes(cs), id, f) {
      StagedDown(inputs, r.owners, Homes(r), cs, r.order, FoldHomes(cs), id, f);
    }
    if Gathers(inputs, Homes(r), id, f) {
      StagedUp(inputs, r.owners, Homes(r), cs, r.order, FoldHomes(cs), id, f);
    }
  }

  ghost function Merged(inputs: seq<Consumer>): seq<Consumer>
    requires AllNamed(inputs)
  {
    AbsorbedIsComplete(inputs);
    AliasFolded(Records(Absorbed(inputs)))
  }

  lemma RecordsAreNamed(inputs: seq<Consumer>)
    requires AllNamed(inputs)
    ensures Complete(Absorbed(inputs)) && DistinctStableIDs(Records(Absorbed(inputs)))
    ensures AllNamed(Records(Absorbed(inputs)))
  {
    AbsorbedIsComplete(inputs);
    AbsorbingIsHistory(inputs);
    NamesOfRecords(Absorbed(inputs));
  }

  /** The whole of Merge: each output record has exactly the facts of the inputs whose home
      it is; every input has such a home; and outputs have distinct StableIDs. */
  lemma MergeConserves(inputs: seq<Consumer>, f: Fact)
    requires AllNamed(inputs)
    ensures DistinctStableIDs(Merged(inputs))
    ensures Complete(Absorbed(inputs)) && |Homes(Absorbed(inputs))| == |inputs|
    ensures forall k :: 0 <= k < |Merged(inputs)| ==>
              (Has(Merged(inputs)[k], f) <==>
               Gathers(inputs, Homes(Absorbed(inputs)), Merged(inputs)[k].stableID, f))
    ensures forall i :: 0 <= i < |inputs| ==> Homes(Absorbed(inputs))[i] in NamesOf(Merged(inputs))
  {
    var r := Absorbed(inputs);
    RecordsAreNamed(inputs);
    RecordsHoldTheirInputs(inputs, f);
    OutputsAreDistinct(Records(r));
    forall k | 0 <= k < |Merged(inputs)|
      ensures Has(Merged(inputs)[k], f) <==> Gathers(inputs, Homes(r), Merged(inputs)[k].stableID, f)
    {
      SurvivorsGather(Records(r), k, f);
      GathersThroughRecords(inputs, r, Merged(inputs)[k].stableID, f);
    }
    forall i | 0 <= i < |inputs|
      ensures Homes(r)[i] in NamesOf(Merged(inputs))
    {
      assert r.owners[i] in r.order;
      var j :| 0 <= j < |r.order| && r.order[j] == r.owners[i];
      HomesSurvive(Records(r), j);
    }
  }

  lemma OutputsAreDistinct(cs: seq<Consumer>)
    requires DistinctStableIDs(cs)
    ensures DistinctStableIDs(AliasFolded(cs))
  {
    FoldingKeepsIDs(cs);
    KeptAreDistinct(cs, Folded(cs, |cs|), |cs|);
  }

  /** Over all records together nothing is lost and nothing added. */
  lemma NothingLostNothingAdded(inputs: seq<Consumer>, f: Fact)
    requires AllNamed(inputs)
    ensures (exists k :: 0 <= k < |Merged(inputs)| && Has(Merged(inputs)[k], f)) <==>
            (exists i :: 0 <= i < |inputs| && Has(inputs[i], f))
  {
    MergeConserves(inputs, f);
    var out, homes := Merged(inputs), Homes(Absorbed(inputs));
    if i :| 0 <= i < |inputs| && Has(inputs[i], f) {
      assert homes[i] in NamesOf(out);
      var k :| 0 <= k < |out| && NamesOf(out)[k] == homes[i];
      assert Gathers(inputs, homes, out[k].stableID, f);
    }
    if k :| 0 <= k < |out| && Has(out[k], f) {
      assert Gathers(inputs, homes, out[k].stableID, f);
    }
  }

  /** A merged record tolerates the largest skew of its inputs, no more. */
  lemma SkewIsTheLargest(inputs: seq<Consumer>, k: nat)
    requires AllNamed(inputs) && k < |Merged(inputs)|
    ensures Complete(Absorbed(inputs)) && |Homes(Absorbed(inputs))| == |inputs|
    ensures var out, homes := Merged(inputs)[k], Homes(Absorbed(inputs));
            && (forall i :: 0 <= i < |inputs| && homes[i] == out.stableID ==>
                  inputs[i].expects.clockSkewSec <= out.expects.clockSkewSec)
            && exists i :: 0 <= i < |inputs| && homes[i] == out.stableID
                           && inputs[i].expects.clockSkewSec == out.expects.clockSkewSec
  {
    var out := Merged(inputs)[k];
    var skew := out.expects.clockSkewSec;
    MergeConserves(inputs, SkewAtLeast(skew));
    MergeConserves(inputs, SkewAtLeast(skew + 1));
    var homes := Homes(Absorbed(inputs));
    assert Has(out, SkewAtLeast(skew)) && !Has(out, SkewAtLeast(skew + 1));
    assert Gathers(inputs, homes, out.stableID, SkewAtLeast(skew));
    assert !Gathers(inputs, homes, out.stableID, SkewAtLeast(skew + 1));
    forall i | 0 <= i < |inputs| && homes[i] == out.stableID
      ensures inputs[i].expects.clockSkewSec <= skew
    {
      assert !Has(inputs[i], SkewAtLeast(skew + 1));
    }
  }

  // ---- what merging keeps of a record -----------------------------------------------------------------

  /** Merging anything into a record keeps the property. */
  ghost predicate Lasts(p: Consumer -> bool) {
    forall a, b :: p(a) ==> p(MergeConsumers(a, b))
  }

  lemma {:induction false} RecordsKeep(inputs: seq<Consumer>, p: Consumer -> bool)
    requires AllNamed(inputs) && Lasts(p) && forall i :: 0 <= i < |inputs| ==> p(inputs[i])
    ensures forall id :: id in Absorbed(inputs).byID ==> p(Absorbed(inputs).byID[id])
  {
    if inputs != [] {
      RecordsKeep(inputs[..|inputs| - 1], p);
      var owner := LastStep(inputs);
    }
  }

  lemma {:induction false} FoldedByKeeps(cs: seq<Consumer>, targets: seq<Option<nat>>, n: nat, p: Consumer -> bool)
    requires n <= |cs| == |targets| && Lasts(p) && forall i :: 0 <= i < |cs| ==> p(cs[i])
    ensures forall j :: 0 <= j < |cs| ==> p(FoldedBy(cs, targets, n)[j])
  {
    if n > 0 {
      FoldedByKeeps(cs, targets, n - 1, p);
    }
  }

  /** What every input has and merging keeps, every output has. */
  lemma OutputsKeep(inputs: seq<Consumer>, k: nat, p: Consumer -> bool)
    requires AllNamed(inputs) && k < |Merged(inputs)|
    requires Lasts(p) && forall i :: 0 <= i < |inputs| ==> p(inputs[i])
    ensures p(Merged(inputs)[k])
  {
    AbsorbedIsComplete(inputs);
    RecordsKeep(inputs, p);
    var cs := Records(Absorbed(inputs));
    FoldedByKeeps(cs, FoldTargets(cs), |cs|, p);
    var j := KeptFrom(cs, Folded(cs, |cs|), |cs|, k);
  }

  lemma {:induction false} UnionKeepsDistinct(a: seq<string>, b: seq<string>)
    requires Distinct(a)
    ensures Distinct(UnionStrings(a, b))
  {
    if b != [] {
      UnionKeepsDistinct(a, b[..|b| - 1]);
    }
  }

  /** No list says anything twice. */
  predicate SaysOnce(s: seq<string>) {
    forall i, j :: 0 <= i < j < |s| ==> s[i] != s[j]
  }

  function Concise(): Consumer -> bool {
    (c: Consumer) => SaysOnce(c.expects.issuers) && SaysOnce(c.expects.audiences) && SaysOnce(c.expects.algorithms)
                     && SaysOnce(c.expects.requiredClaims)
  }

  lemma ConciseLasts()
    ensures Lasts(Concise())
  {
    forall a, b | Concise()(a)
      ensures Concise()(MergeConsumers(a, b))
    {
      UnionKeepsDistinct(a.expects.issuers, b.expects.issuers);
      UnionKeepsDistinct(a.expects.audiences, b.expects.audiences);
      UnionKeepsDistinct(a.expects.algorithms, b.expects.algorithms);
      UnionKeepsDistinct(a.expects.requiredClaims, b.expects.requiredClaims);
    }
  }

  /** Where no input lists anything twice, no output does. */
  lemma OutputsAreConcise(inputs: seq<Consumer>, k: nat)
    requires AllNamed(inputs) && k < |Merged(inputs)| && forall i :: 0 <= i < |inputs| ==> Concise()(inputs[i])
    ensures var e := Merged(inputs)[k].expects;
            SaysOnce(e.issuers) && SaysOnce(e.audiences) && SaysOnce(e.algorithms) && SaysOnce(e.requiredClaims)
  {
    ConciseLasts();
    OutputsKeep(inputs, k, Concise());
  }
}
