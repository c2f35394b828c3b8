/** Which inputs merging puts into one record, and when records are exactly the
    connected components of shared identity keys. */
module MergeIdentity {
  import opened Prelude
  import opened Domain
  import opened Discovery
  import opened Graphs
  import K = Keyrings

  ghost predicate AllNamed(inputs: seq<Consumer>) {
    forall i :: 0 <= i < |inputs| ==> inputs[i].stableID != ""
  }

  ghost function KeySets(inputs: seq<Consumer>): seq<set<string>> {
    Map(KeySet, inputs)
  }

  function NameOf(c: Consumer): string {
    c.stableID
  }

  function NamesOf(inputs: seq<Consumer>): seq<string> {
    Map(NameOf, inputs)
  }

  function Owners(inputs: seq<Consumer>): seq<string> {
    Absorbed(inputs).owners
  }

  // ---- the registry is a keyring ---------------------------------------------------------

  ghost function RingOf(r: Registry): K.Keyring {
    K.Keyring(r.owners, map id | id in r.byID :: KeySet(r.byID[id]), r.canon)
  }

  /** Records carry the non-empty name they are filed under. */
  ghost predicate Filed(r: Registry) {
    forall id :: id in r.byID ==> id != "" && r.byID[id].stableID == id
  }

  lemma MergedKeys(a: Consumer, b: Consumer)
    requires b.stableID != ""
    ensures KeySet(MergeConsumers(a, b)) == KeySet(a) + KeySet(b)
    ensures MergeConsumers(a, b).stableID == a.stableID
  {
  }

  lemma {:induction false} NoHitIsUnknown(keys: seq<string>, r: Registry)
    requires Filed(r) && Closed(r) && FirstHit(keys, r.canon) == ""
    ensures Elems(keys) !! r.canon.Keys
  {
    if keys != [] {
      NoHitIsUnknown(keys[1..], r);
      assert Elems(keys) == {keys[0]} + Elems(keys[1..]);
    }
  }

  lemma RefiledRing(r: Registry, id: string, c: Consumer, r': Registry)
    requires Filed(r) && id == c.stableID != "" && r'.byID == r.byID[id := c]
    ensures Filed(r') && RingOf(r').keys == RingOf(r).keys[id := KeySet(c)]
  {
  }

  lemma FoundingRing(r: Registry, name: string, s: set<string>, r': Registry)
    requires name !in r.byID && s !! r.canon.Keys && RingOf(r').keys == RingOf(r).keys[name := s]
    requires r'.canon == K.Claim(r.canon, s, name) && r'.owners == r.owners + [name]
    ensures K.Step(RingOf(r), name, s, RingOf(r'), name)
  {
  }

  lemma JoiningRing(r: Registry, name: string, s: set<string>, target: string, all: set<string>, k: string, r': Registry)
    requires target in r.byID && k in s && k in r.canon && r.canon[k] == target
    requires all == RingOf(r).keys[target] + s && RingOf(r').keys == RingOf(r).keys[target := all]
    requires r'.canon == K.Register(r.canon, all, target) && r'.owners == r.owners + [target]
    ensures K.Step(RingOf(r), name, s, RingOf(r'), target)
  {
  }

  /** First-seen order, and a record for every owner. */
  ghost predicate Ordered(r: Registry) {
    r.order == K.Dedup(r.owners) && forall id :: id in r.byID <==> id in r.owners
  }

  lemma OrderedExtends(r: Registry, owner: string, r': Registry)
    requires Ordered(r) && r'.owners == r.owners + [owner] && r'.byID.Keys == r.byID.Keys + {owner}
    requires r'.order == if owner in r.byID then r.order else r.order + [owner]
    ensures Ordered(r')
  {
    assert r'.owners[..|r.owners|] == r.owners;
  }

  lemma FoundsRecord(r: Registry, c: Consumer, r': Registry)
    requires Filed(r) && Ordered(r) && c.stableID != "" && KeySet(c) !! r.canon.Keys && c.stableID !in r.byID
    requires r' == Registry(r.order + [c.stableID], r.byID[c.stableID := c],
                            K.Claim(r.canon, KeySet(c), c.stableID), r.owners + [c.stableID])
    ensures K.Step(RingOf(r), c.stableID, KeySet(c), RingOf(r'), c.stableID) && Filed(r') && Ordered(r')
  {
    RefiledRing(r, c.stableID, c, r');
    FoundingRing(r, c.stableID, KeySet(c), r');
    OrderedExtends(r, c.stableID, r');
  }

  lemma JoinsRecord(r: Registry, c: Consumer, target: string, merged: Consumer, k: string, r': Registry)
    requires Filed(r) && Ordered(r) && target in r.byID && merged.stableID == target
    requires KeySet(merged) == KeySet(r.byID[target]) + KeySet(c)
    requires k in KeySet(c) && k in r.canon && r.canon[k] == target
    requires r' == Registry(r.order, r.byID[target := merged], K.Register(r.canon, KeySet(merged), target), r.owners + [target])
    ensures K.Step(RingOf(r), c.stableID, KeySet(c), RingOf(r'), target) && Filed(r') && Ordered(r')
  {
    RefiledRing(r, target, merged, r');
    JoiningRing(r, c.stableID, KeySet(c), target, KeySet(merged), k, r');
    OrderedExtends(r, target, r');
  }

  lemma AbsorbIsStep(r: Registry, c: Consumer, r': Registry) returns (owner: string)
    requires Filed(r) && Ordered(r) && Closed(r) && c.stableID != "" && r' == Absorb(r, c)
    requires c.stableID in r.byID ==> c.stableID in r.canon
    ensures K.Step(RingOf(r), c.stableID, KeySet(c), RingOf(r'), owner) && Filed(r') && Ordered(r')
    ensures r'.byID == r.byID[owner := if owner in r.byID then MergeConsumers(r.byID[owner], c) else c]
  {
    var keys := IdentityKeys(c);
    owner := FirstHit(keys, r.canon);
    if owner == "" {
      owner := c.stableID;
      NoHitIsUnknown(keys, r);
      assert c.stableID in KeySet(c);
      FoundsRecord(r, c, r');
    } else {
      HitIsRegistered(keys, r.canon);
      var k :| k in keys && k in r.canon && r.canon[k] == owner;
      assert k in Elems(keys);
      MergedKeys(r.byID[owner], c);
      JoinsRecord(r, c, owner, MergeConsumers(r.byID[owner], c), k, r');
    }
  }

  /** The keyrings after 0, 1, ... inputs. */
  ghost function Rings(inputs: seq<Consumer>): (rings: seq<K.Keyring>)
    ensures |rings| == |inputs| + 1 && rings[|inputs|] == RingOf(Absorbed(inputs))
  {
    (if inputs == [] then [] else Rings(inputs[..|inputs| - 1])) + [RingOf(Absorbed(inputs))]
  }

  lemma NamesExtend(inputs: seq<Consumer>)
    requires inputs != []
    ensures var n := |inputs| - 1;
            NamesOf(inputs) == NamesOf(inputs[..n]) + [inputs[n].stableID]
            && KeySets(inputs) == KeySets(inputs[..n]) + [KeySet(inputs[n])]
  {
  }

  lemma NamesAreKeys(inputs: seq<Consumer>, id: string)
    requires K.IsHistory(NamesOf(inputs), KeySets(inputs), Owners(inputs), Rings(inputs)) && Filed(Absorbed(inputs))
    ensures id in Absorbed(inputs).byID ==> id in Absorbed(inputs).canon
  {
    var r := Absorbed(inputs);
    if id in r.byID {
      assert id in KeySet(r.byID[id]);
      K.KeyWasBrought(NamesOf(inputs), KeySets(inputs), Owners(inputs), Rings(inputs), |inputs|, id, id);
    }
  }

  /** Absorbing named inputs one by one is a history of keyrings. */
  lemma {:induction false} AbsorbingIsHistory(inputs: seq<Consumer>)
    requires AllNamed(inputs)
    ensures K.IsHistory(NamesOf(inputs), KeySets(inputs), Owners(inputs), Rings(inputs))
    ensures Filed(Absorbed(inputs)) && Ordered(Absorbed(inputs))
  {
    if inputs == [] {
      assert RingOf(Absorbed(inputs)) == K.EMPTY;
    } else {
      var n := |inputs| - 1;
      var init, c, r' := inputs[..n], inputs[n], Absorbed(inputs);
      AbsorbingIsHistory(init);
      AbsorbedIsClosed(init);
      NamesAreKeys(init, c.stableID);
      var owner := AbsorbIsStep(Absorbed(init), c, r');
      K.HistoryExtends(NamesOf(init), KeySets(init), Owners(init), Rings(init), c.stableID, KeySet(c), RingOf(r'), owner);
      NamesExtend(inputs);
    }
  }

  /** The last input's record: merged into the one it joins, or a new one. */
  lemma LastStep(inputs: seq<Consumer>) returns (owner: string)
    requires inputs != [] && AllNamed(inputs)
    ensures var r, c := Absorbed(inputs[..|inputs| - 1]), inputs[|inputs| - 1];
            && Owners(inputs) == r.owners + [owner]
            && Absorbed(inputs).byID == r.byID[owner := if owner in r.byID then MergeConsumers(r.byID[owner], c) else c]
  {
    var init := inputs[..|inputs| - 1];
    AbsorbingIsHistory(init);
    AbsorbedIsClosed(init);
    NamesAreKeys(init, inputs[|inputs| - 1].stableID);
    owner := AbsorbIsStep(Absorbed(init), inputs[|inputs| - 1], Absorbed(inputs));
  }

  lemma OwnersAreRecords(inputs: seq<Consumer>)
    requires AllNamed(inputs)
    ensures |Owners(inputs)| == |inputs| && forall i :: 0 <= i < |inputs| ==> Owners(inputs)[i] in Absorbed(inputs).byID
  {
    AbsorbingIsHistory(inputs);
  }

  // ---- identity of the merged records --------------------------------------------------

  lemma FounderNames(inputs: seq<Consumer>, i: int)
    requires AllNamed(inputs) && |Owners(inputs)| == |inputs| && 0 <= i < |inputs|
    requires Owners(inputs)[i] !in Owners(inputs)[..i]
    ensures Owners(inputs)[i] == inputs[i].stableID
  {
    AbsorbingIsHistory(inputs);
    K.FoundersName(NamesOf(inputs), KeySets(inputs), Owners(inputs), Rings(inputs), i);
  }

  lemma NamesOfRecords(r: Registry)
    requires Filed(r) && Ordered(r) && forall id :: id in r.order ==> id in r.byID
    ensures NamesOf(Records(r)) == K.Dedup(r.owners) && DistinctStableIDs(Records(r))
  {
    K.DedupMembers(r.owners);
    assert forall i :: 0 <= i < |r.order| ==> Records(r)[i].stableID == r.order[i];
  }

  /** The merged records have distinct StableIDs, in the order their founders were seen,
      and the founder names the record. */
  lemma RecordsAreFirstSeen(inputs: seq<Consumer>)
    requires AllNamed(inputs)
    ensures |Owners(inputs)| == |inputs|
    ensures forall id :: id in Absorbed(inputs).order ==> id in Absorbed(inputs).byID
    ensures DistinctStableIDs(Records(Absorbed(inputs)))
    ensures NamesOf(Records(Absorbed(inputs))) == K.Dedup(Owners(inputs))
    ensures forall i :: 0 <= i < |inputs| && Owners(inputs)[i] !in Owners(inputs)[..i] ==>
                          Owners(inputs)[i] == inputs[i].stableID
  {
    AbsorbingIsHistory(inputs);
    OrderIsKept(inputs);
    NamesOfRecords(Absorbed(inputs));
    forall i | 0 <= i < |inputs| && Owners(inputs)[i] !in Owners(inputs)[..i]
      ensures Owners(inputs)[i] == inputs[i].stableID
    {
      FounderNames(inputs, i);
    }
  }

  /** Among the first inputs, `i` brought the key `k` to the record `id`. */
  ghost predicate Brings(inputs: seq<Consumer>, i: int, id: string, k: string)
    requires |Owners(inputs)| == |inputs|
  {
    0 <= i < |inputs| && Owners(inputs)[i] == id && k in KeySet(inputs[i])
  }

  /** No identity is lost or invented: every input's StableID and aliases are keys of the
      record it went into, and every key of a record was brought by one of its inputs. */
  lemma KeysAreConserved(inputs: seq<Consumer>)
    requires AllNamed(inputs)
    ensures |Owners(inputs)| == |inputs|
    ensures forall i :: 0 <= i < |inputs| ==>
              var id := Owners(inputs)[i];
              id in Absorbed(inputs).byID && KeySet(inputs[i]) <= KeySet(Absorbed(inputs).byID[id])
    ensures forall id, k :: id in Absorbed(inputs).byID && k in KeySet(Absorbed(inputs).byID[id]) ==>
              exists i :: Brings(inputs, i, id, k)
  {
    AbsorbingIsHistory(inputs);
    var r, n := Absorbed(inputs), |inputs|;
    forall i | 0 <= i < n
      ensures Owners(inputs)[i] in r.byID && KeySet(inputs[i]) <= KeySet(r.byID[Owners(inputs)[i]])
    {
      K.KeysAreHeld(NamesOf(inputs), KeySets(inputs), Owners(inputs), Rings(inputs), n, i);
    }
    forall id, k | id in r.byID && k in KeySet(r.byID[id])
      ensures exists i :: Brings(inputs, i, id, k)
    {
      K.KeyWasBrought(NamesOf(inputs), KeySets(inputs), Owners(inputs), Rings(inputs), n, id, k);
      var i :| 0 <= i < n && Owners(inputs)[i] == id && k in KeySets(inputs)[i];
      assert Brings(inputs, i, id, k);
    }
  }

  /** Pairs of inputs with an identity key in common. */
  ghost function SharedKeys(inputs: seq<Consumer>): (edges: Edges)
    ensures Symmetric(edges)
  {
    set i, j | 0 <= i < |inputs| && 0 <= j < |inputs| && KeySet(inputs[i]) * KeySet(inputs[j]) != {} :: (i, j)
  }

  lemma SharedKeysAreKeyEdges(inputs: seq<Consumer>, n: nat)
    requires n <= |inputs|
    ensures SharedKeys(inputs[..n]) == K.KeyEdges(KeySets(inputs), n)
  {
  }

  /** Two inputs land in one record only if a chain of shared identity keys links them. */
  lemma OneRecordOnlyIfLinked(inputs: seq<Consumer>)
    requires AllNamed(inputs)
    ensures |Owners(inputs)| == |inputs| && Sound(SharedKeys(inputs), Owners(inputs))
  {
    var n := |inputs|;
    AbsorbingIsHistory(inputs);
    assert inputs[..n] == inputs && Owners(inputs)[..n] == Owners(inputs);
    SharedKeysAreKeyEdges(inputs, n);
    K.HistoryIsSound(NamesOf(inputs), KeySets(inputs), Owners(inputs), Rings(inputs), n);
  }

  /** Input `m` shares keys with two earlier inputs that nothing before it linked. */
  ghost predicate Bridging(inputs: seq<Consumer>, m: int, i: int, j: int) {
    && 0 <= i < m < |inputs| && 0 <= j < m
    && KeySet(inputs[i]) * KeySet(inputs[m]) != {} && KeySet(inputs[j]) * KeySet(inputs[m]) != {}
    && !Connected(SharedKeys(inputs[..m]), m, i, j)
  }

  /** Merging yields exactly the connected components of shared keys if and only if no
      input bridges two groups that were apart when it came: it never joins records. */
  lemma ComponentsIffNothingBridges(inputs: seq<Consumer>)
    requires AllNamed(inputs)
    ensures |Owners(inputs)| == |inputs|
    ensures NamesComponents(SharedKeys(inputs), Owners(inputs)) <==> forall m, i, j :: !Bridging(inputs, m, i, j)
  {
    var n, ks := |inputs|, KeySets(inputs);
    AbsorbingIsHistory(inputs);
    assert inputs[..n] == inputs;
    SharedKeysAreKeyEdges(inputs, n);
    K.ComponentsIffNoBridge(NamesOf(inputs), ks, Owners(inputs), Rings(inputs));
    forall m, i, j
      ensures Bridging(inputs, m, i, j) <==> K.Bridges(ks, m, i, j)
    {
      BridgingIsBridges(inputs, m, i, j);
    }
  }

  lemma BridgingIsBridges(inputs: seq<Consumer>, m: int, i: int, j: int)
    ensures Bridging(inputs, m, i, j) <==> K.Bridges(KeySets(inputs), m, i, j)
  {
    if 0 <= m < |inputs| {
      SharedKeysAreKeyEdges(inputs, m);
    }
  }

  /** Without a StableID, the lookup's "not found" is taken for a record: a second such
      input replaces the first instead of joining it, and is listed twice. */
  lemma UnnamedRecordIsLost(c: Consumer, d: Consumer)
    requires c.stableID == "" && d.stableID == ""
    ensures forall id :: id in Absorbed([c, d]).order ==> id in Absorbed([c, d]).byID
    ensures Records(Absorbed([c, d])) == [d, d]
  {
    assert [c, d][..1] == [c] && [c][..0] == [];
    var r0, r1 := Absorbed([]), Absorbed([c]);
    assert r1 == Absorb(r0, c);
    UnknownIsNoHit(IdentityKeys(c));
    assert r1.canon == K.Claim(map[], KeySet(c), "");
    assert FirstHit(IdentityKeys(d), r1.canon) == "" by {
      assert "" in KeySet(c);
    }
    var r2 := Absorbed([c, d]);
    assert r2 == Absorb(r1, d);
    assert r2.order == ["", ""] && r2.byID[""] == d;
  }

  lemma {:induction false} UnknownIsNoHit(keys: seq<string>)
    ensures FirstHit(keys, map[]) == ""
  {
    if keys != [] {
      UnknownIsNoHit(keys[1..]);
    }
  }
}
