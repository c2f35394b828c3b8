/** Merging consumers that have no StableID: the lookup takes the empty name for "not
    found". Exactly when that lists a record twice. */
module UnnamedRecords {
  import opened Prelude
  import opened Domain
  import opened Discovery
  import opened MergeIdentity
  import K = Keyrings

  /** Input `i` has no name, and nothing before it has any of its aliases. */
  ghost predicate FoundsUnnamed(inputs: seq<Consumer>, i: int) {
    && 0 <= i < |inputs| && inputs[i].stableID == ""
    && forall m :: 0 <= m < i ==> (Elems(inputs[i].aliases) - {""}) !! KeySet(inputs[m])
  }

  /** Input `i` founds a record without a name, and input `j` after it has no name either. */
  ghost predicate LosesAt(inputs: seq<Consumer>, i: int, j: int) {
    FoundsUnnamed(inputs, i) && i < j < |inputs| && inputs[j].stableID == ""
  }

  ghost predicate Loses(inputs: seq<Consumer>) {
    exists i, j :: LosesAt(inputs, i, j)
  }

  ghost predicate HasFounder(inputs: seq<Consumer>) {
    exists i :: FoundsUnnamed(inputs, i)
  }

  /** The non-empty keys of all inputs. */
  function AllKeys(inputs: seq<Consumer>): set<string> {
    if inputs == [] then {} else AllKeys(inputs[..|inputs| - 1]) + (KeySet(inputs[|inputs| - 1]) - {""})
  }

  lemma {:induction false} AllKeysAre(inputs: seq<Consumer>, k: string)
    ensures k in AllKeys(inputs) <==> k != "" && exists m :: 0 <= m < |inputs| && k in KeySet(inputs[m])
  {
    if inputs != [] {
      var x, init := |inputs| - 1, inputs[..|inputs| - 1];
      AllKeysAre(init, k);
      assert forall m :: 0 <= m < x ==> init[m] == inputs[m];
    }
  }

  lemma FounderIff(inputs: seq<Consumer>)
    requires inputs != [] && inputs[|inputs| - 1].stableID == ""
    ensures FoundsUnnamed(inputs, |inputs| - 1) <==>
              (Elems(inputs[|inputs| - 1].aliases) - {""}) !! AllKeys(inputs[..|inputs| - 1])
  {
    var x, init := |inputs| - 1, inputs[..|inputs| - 1];
    assert forall m :: 0 <= m < x ==> init[m] == inputs[m];
    forall k
      ensures k in AllKeys(init) <==> k != "" && exists m :: 0 <= m < x && k in KeySet(init[m])
    {
      AllKeysAre(init, k);
    }
  }

  lemma PrefixFounds(inputs: seq<Consumer>, i: int)
    requires inputs != [] && i < |inputs| - 1
    ensures FoundsUnnamed(inputs, i) <==> FoundsUnnamed(inputs[..|inputs| - 1], i)
  {
    var init := inputs[..|inputs| - 1];
    assert forall m :: 0 <= m < |init| ==> init[m] == inputs[m];
  }

  // ---- what the registry keeps until a record is listed twice ---------------------------------

  ghost predicate Listed(r: Registry) {
    Distinct(r.order) && forall id :: id in r.byID <==> id in r.order
  }

  ghost predicate SelfNamed(r: Registry) {
    forall id :: id in r.byID ==> r.byID[id].stableID == id
  }

  ghost predicate KeysKnown(r: Registry, all: set<string>) {
    r.canon.Keys - {""} == all && forall id :: id in r.byID ==> KeySet(r.byID[id]) - {""} <= all
  }

  /** A named record's name does not lead to "not found". */
  ghost predicate NamesLead(r: Registry) {
    forall id {:trigger r.byID[id]} :: id in r.byID && id != "" ==> id in r.canon && r.canon[id] != ""
  }

  ghost predicate NullLeads(r: Registry) {
    ("" in r.canon <==> "" in r.byID) && ("" in r.canon ==> r.canon[""] == "")
  }

  ghost predicate Fine(r: Registry, all: set<string>) {
    Listed(r) && SelfNamed(r) && KeysKnown(r, all) && NamesLead(r) && NullLeads(r) && Closed(r)
  }

  lemma {:induction false} HitIffKnown(keys: seq<string>, canon: map<string, string>)
    requires forall k :: k in canon ==> canon[k] != ""
    ensures FirstHit(keys, canon) == "" <==> Elems(keys) !! canon.Keys
  {
    if keys != [] {
      HitIffKnown(keys[1..], canon);
      assert Elems(keys) == {keys[0]} + Elems(keys[1..]);
      assert keys[0] in Elems(keys);
    }
  }

  ghost predicate IsFounding(r: Registry, c: Consumer, r': Registry) {
    r' == Registry(r.order + [c.stableID], r.byID[c.stableID := c],
                   K.Claim(r.canon, KeySet(c), c.stableID), r.owners + [c.stableID])
  }

  ghost predicate IsJoining(r: Registry, target: string, merged: Consumer, r': Registry) {
    r' == Registry(r.order, r.byID[target := merged], K.Register(r.canon, KeySet(merged), target), r.owners + [target])
  }

  lemma FoundingIsListed(r: Registry, c: Consumer, r': Registry)
    requires Listed(r) && SelfNamed(r) && IsFounding(r, c, r') && c.stableID !in r.byID
    ensures Listed(r') && SelfNamed(r')
  {
  }

  lemma FoundingKeepsKeys(r: Registry, c: Consumer, r': Registry, all: set<string>)
    requires KeysKnown(r, all) && IsFounding(r, c, r')
    ensures KeysKnown(r', all + (KeySet(c) - {""}))
  {
    forall id | id in r'.byID
      ensures KeySet(r'.byID[id]) - {""} <= all + (KeySet(c) - {""})
    {
      assert id in r.byID ==> KeySet(r.byID[id]) - {""} <= all;
    }
  }

  lemma FoundingKeepsLeads(r: Registry, c: Consumer, r': Registry)
    requires NamesLead(r) && NullLeads(r) && IsFounding(r, c, r') && c.stableID !in r.byID
    requires c.stableID == "" ==> KeySet(c) !! r.canon.Keys
    ensures NamesLead(r') && NullLeads(r')
  {
    forall id | id in r'.byID && id != ""
      ensures id in r'.canon && r'.canon[id] != ""
    {
      if id in r.byID {
        assert r.byID[id] == r.byID[id];
      }
    }
  }

  lemma FoundingKeepsFine(r: Registry, c: Consumer, r': Registry, all: set<string>)
    requires Fine(r, all) && IsFounding(r, c, r') && c.stableID !in r.byID && Closed(r')
    requires c.stableID == "" ==> KeySet(c) !! r.canon.Keys
    ensures Fine(r', all + (KeySet(c) - {""}))
  {
    FoundingIsListed(r, c, r');
    FoundingKeepsKeys(r, c, r', all);
    FoundingKeepsLeads(r, c, r');
  }

  lemma MergedKnown(a: Consumer, c: Consumer)
    ensures MergeConsumers(a, c).stableID == a.stableID
    ensures KeySet(MergeConsumers(a, c)) - {""} == (KeySet(a) - {""}) + (KeySet(c) - {""})
    ensures "" in KeySet(MergeConsumers(a, c)) <==> a.stableID == ""
  {
    var m := MergeConsumers(a, c);
    MergedAliases(a, c);
    forall k | k != ""
      ensures k in KeySet(m) <==> k in KeySet(a) || k in KeySet(c)
    {
      assert k in Elems(m.aliases) <==> k in Elems(a.aliases) || k in Elems(c.aliases) || (k == c.stableID && k != a.stableID);
    }
  }

  lemma MergedAliases(a: Consumer, c: Consumer)
    ensures Elems(MergeConsumers(a, c).aliases) ==
              Elems(a.aliases) + Elems(c.aliases) + if c.stableID != a.stableID then {c.stableID} else {}
  {
    assert Elems([c.stableID]) == {c.stableID};
  }

  lemma JoiningKeepsKeys(r: Registry, target: string, merged: Consumer, more: set<string>, r': Registry, all: set<string>)
    requires KeysKnown(r, all) && target in r.byID && IsJoining(r, target, merged, r')
    requires KeySet(merged) - {""} == (KeySet(r.byID[target]) - {""}) + more
    ensures KeysKnown(r', all + more)
  {
    assert KeySet(r.byID[target]) - {""} <= all;
    assert r'.canon.Keys == r.canon.Keys + KeySet(merged);
    assert r'.canon.Keys - {""} == (r.canon.Keys - {""}) + (KeySet(merged) - {""});
    forall id | id in r'.byID
      ensures KeySet(r'.byID[id]) - {""} <= all + more
    {
      assert id in r.byID && KeySet(r.byID[id]) - {""} <= all;
    }
  }

  lemma JoiningKeepsLeads(r: Registry, target: string, merged: Consumer, r': Registry)
    requires NamesLead(r) && NullLeads(r) && target in r.byID && target != "" && IsJoining(r, target, merged, r')
    requires "" !in KeySet(merged)
    ensures NamesLead(r') && NullLeads(r')
  {
    forall id | id in r'.byID && id != ""
      ensures id in r'.canon && r'.canon[id] != ""
    {
      assert id in r.byID && r.byID[id] == r.byID[id];
    }
  }

  lemma JoiningIsListed(r: Registry, target: string, merged: Consumer, r': Registry)
    requires Listed(r) && SelfNamed(r) && target in r.byID && merged.stableID == target && IsJoining(r, target, merged, r')
    ensures Listed(r') && SelfNamed(r')
  {
  }

  lemma JoiningKeepsFine(r: Registry, target: string, merged: Consumer, more: set<string>, r': Registry, all: set<string>)
    requires Fine(r, all) && target in r.byID && target != "" && Closed(r') && IsJoining(r, target, merged, r')
    requires merged.stableID == target && "" !in KeySet(merged)
    requires KeySet(merged) - {""} == (KeySet(r.byID[target]) - {""}) + more
    ensures Fine(r', all + more)
  {
    JoiningIsListed(r, target, merged, r');
    JoiningKeepsKeys(r, target, merged, more, r', all);
    JoiningKeepsLeads(r, target, merged, r');
  }

  lemma AbsorbShape(r: Registry, c: Consumer, r': Registry)
    requires Closed(r) && r' == Absorb(r, c)
    ensures Closed(r')
    ensures var target := FirstHit(IdentityKeys(c), r.canon);
            if target == "" then IsFounding(r, c, r')
            else target in r.byID && IsJoining(r, target, MergeConsumers(r.byID[target], c), r')
  {
    AbsorbKeepsClosed(r, c);
  }

  // ---- one input ----------------------------------------------------------------------------

  lemma JoinedIsFine(r: Registry, c: Consumer, r': Registry, all: set<string>)
    requires Fine(r, all) && r' == Absorb(r, c) && FirstHit(IdentityKeys(c), r.canon) != ""
    ensures Fine(r', all + (KeySet(c) - {""})) && ("" in r'.canon <==> "" in r.canon)
  {
    AbsorbShape(r, c, r');
    var target := FirstHit(IdentityKeys(c), r.canon);
    MergedKnown(r.byID[target], c);
    JoiningKeepsFine(r, target, MergeConsumers(r.byID[target], c), KeySet(c) - {""}, r', all);
  }

  /** A named record is found under its own name. */
  lemma NameIsHit(r: Registry, c: Consumer)
    requires NamesLead(r) && c.stableID != "" && c.stableID in r.byID
    ensures FirstHit(IdentityKeys(c), r.canon) != ""
  {
    assert r.byID[c.stableID] == r.byID[c.stableID];
    assert IdentityKeys(c)[0] == c.stableID;
  }

  /** A named input never finds its own record missing. */
  lemma NamedInputIsFine(r: Registry, c: Consumer, r': Registry, all: set<string>)
    requires Fine(r, all) && c.stableID != "" && r' == Absorb(r, c)
    ensures Fine(r', all + (KeySet(c) - {""})) && ("" in r'.canon <==> "" in r.canon)
  {
    if FirstHit(IdentityKeys(c), r.canon) == "" {
      AbsorbShape(r, c, r');
      if c.stableID in r.byID {
        NameIsHit(r, c);
      }
      FoundingKeepsFine(r, c, r', all);
      assert "" !in KeySet(c);
    } else {
      JoinedIsFine(r, c, r', all);
    }
  }

  lemma NothingLeadsNowhere(r: Registry)
    requires NullLeads(r) && Closed(r) && "" !in r.canon
    ensures forall k :: k in r.canon ==> r.canon[k] != ""
  {
  }

  lemma UnnamedIsUnknownIff(r: Registry, c: Consumer, all: set<string>)
    requires NullLeads(r) && Closed(r) && "" !in r.canon && r.canon.Keys - {""} == all && c.stableID == ""
    ensures FirstHit(IdentityKeys(c), r.canon) == "" <==> (Elems(c.aliases) - {""}) !! all
    ensures FirstHit(IdentityKeys(c), r.canon) == "" ==> KeySet(c) !! r.canon.Keys
  {
    NothingLeadsNowhere(r);
    HitIffKnown(IdentityKeys(c), r.canon);
    assert r.canon.Keys == all;
    assert KeySet(c) == {""} + (Elems(c.aliases) - {""});
  }

  /** The first unnamed input that finds nothing founds the record without a name. */
  lemma FirstUnnamedIsFine(r: Registry, c: Consumer, r': Registry, all: set<string>)
    requires Fine(r, all) && c.stableID == "" && "" !in r.canon && r' == Absorb(r, c)
    ensures Fine(r', all + (KeySet(c) - {""}))
    ensures "" in r'.canon <==> (Elems(c.aliases) - {""}) !! all
  {
    UnnamedIsUnknownIff(r, c, all);
    if FirstHit(IdentityKeys(c), r.canon) == "" {
      AbsorbShape(r, c, r');
      FoundingKeepsFine(r, c, r', all);
    } else {
      JoinedIsFine(r, c, r', all);
    }
  }

  /** Any later unnamed input lists that record once more. */
  lemma LaterUnnamedIsListedTwice(r: Registry, c: Consumer, r': Registry, all: set<string>)
    requires Fine(r, all) && c.stableID == "" && "" in r.canon && r' == Absorb(r, c)
    ensures !Distinct(r'.order)
  {
    AbsorbShape(r, c, r');
    assert IdentityKeys(c)[0] == "";
    assert FirstHit(IdentityKeys(c), r.canon) == "";
    assert "" in r.order;
    var i :| 0 <= i < |r.order| && r.order[i] == "";
    assert r'.order[i] == r'.order[|r.order|];
  }

  lemma ListedTwiceStays(r: Registry, c: Consumer)
    requires !Distinct(r.order)
    ensures !Distinct(Absorb(r, c).order)
  {
    var i, j :| 0 <= i < j < |r.order| && r.order[i] == r.order[j];
    assert Absorb(r, c).order[i] == Absorb(r, c).order[j];
  }

  // ---- all inputs ---------------------------------------------------------------------------

  /** What the registry is like after `inputs`: fine, or already with a name listed twice. */
  ghost predicate Traced(inputs: seq<Consumer>, r: Registry) {
    if Loses(inputs) then !Distinct(r.order)
    else Fine(r, AllKeys(inputs)) && ("" in r.canon <==> HasFounder(inputs))
  }

  lemma LosesExtends(inputs: seq<Consumer>)
    requires inputs != []
    ensures var init := inputs[..|inputs| - 1];
            && (Loses(inputs) <==> Loses(init) || (HasFounder(init) && inputs[|inputs| - 1].stableID == ""))
            && (HasFounder(inputs) <==> HasFounder(init) || FoundsUnnamed(inputs, |inputs| - 1))
  {
    var x, init := |inputs| - 1, inputs[..|inputs| - 1];
    forall i | i < x
      ensures FoundsUnnamed(inputs, i) <==> FoundsUnnamed(init, i)
    {
      PrefixFounds(inputs, i);
    }
    assert forall m :: 0 <= m < x ==> init[m] == inputs[m];
    if i, j :| LosesAt(inputs, i, j) {
      assert FoundsUnnamed(init, i);
      assert j < x ==> LosesAt(init, i, j);
    }
    if i, j :| LosesAt(init, i, j) {
      assert LosesAt(inputs, i, j);
    }
    if i :| FoundsUnnamed(init, i) {
      assert FoundsUnnamed(inputs, i);
      assert inputs[x].stableID == "" ==> LosesAt(inputs, i, x);
    }
  }

  lemma TracedExtends(inputs: seq<Consumer>, r: Registry, r': Registry)
    requires inputs != [] && Traced(inputs[..|inputs| - 1], r) && r' == Absorb(r, inputs[|inputs| - 1])
    ensures Traced(inputs, r')
  {
    var init, c := inputs[..|inputs| - 1], inputs[|inputs| - 1];
    LosesExtends(inputs);
    if Loses(init) {
      ListedTwiceStays(r, c);
    } else if c.stableID != "" {
      NamedInputIsFine(r, c, r', AllKeys(init));
    } else if "" in r.canon {
      LaterUnnamedIsListedTwice(r, c, r', AllKeys(init));
    } else {
      FirstUnnamedIsFine(r, c, r', AllKeys(init));
      FounderIff(inputs);
    }
  }

  lemma {:induction false} AbsorbedIsTraced(inputs: seq<Consumer>)
    ensures Traced(inputs, Absorbed(inputs))
  {
    if inputs == [] {
      assert Fine(Absorbed(inputs), {});
    } else {
      AbsorbedIsTraced(inputs[..|inputs| - 1]);
      TracedExtends(inputs, Absorbed(inputs[..|inputs| - 1]), Absorbed(inputs));
    }
  }

  lemma {:induction false} RecordsAreSelfNamed(inputs: seq<Consumer>)
    ensures SelfNamed(Absorbed(inputs))
  {
    if inputs != [] {
      RecordsAreSelfNamed(inputs[..|inputs| - 1]);
    }
  }

  /** The merged records have distinct StableIDs if and only if no unnamed input, whose
      aliases nothing before it has, is followed by another unnamed input. */
  lemma DistinctIffNoneLost(inputs: seq<Consumer>)
    ensures forall id :: id in Absorbed(inputs).order ==> id in Absorbed(inputs).byID
    ensures DistinctStableIDs(Records(Absorbed(inputs))) <==> forall i, j :: !LosesAt(inputs, i, j)
  {
    var r := Absorbed(inputs);
    OrderIsKept(inputs);
    AbsorbedIsTraced(inputs);
    RecordsAreSelfNamed(inputs);
    NamesAreOrder(r);
  }

  lemma NamesAreOrder(r: Registry)
    requires SelfNamed(r) && forall id :: id in r.order ==> id in r.byID
    ensures DistinctStableIDs(Records(r)) <==> Distinct(r.order)
  {
    assert forall k :: 0 <= k < |r.order| ==> Records(r)[k].stableID == r.order[k];
    if i, j :| 0 <= i < j < |r.order| && r.order[i] == r.order[j] {
      assert Records(r)[i].stableID == Records(r)[j].stableID;
    }
  }

  // ---- who is unnamed ----------------------------------------------------------------------------

  /** The StableID was made by one of the discoverers. */
  ghost predicate Discovered(c: Consumer) {
    || (exists p, normalizeHost :: c.stableID == StableID(p, normalizeHost))
    || (exists realm, clientID :: c.stableID == ClientStableID(realm, clientID))
  }

  /** Every discoverer names its consumers, so what the discoverers find merges without loss. */
  lemma DiscoveredAreNamed(inputs: seq<Consumer>)
    requires forall i :: 0 <= i < |inputs| ==> Discovered(inputs[i])
    ensures AllNamed(inputs) && !Loses(inputs)
  {
    forall i | 0 <= i < |inputs|
      ensures inputs[i].stableID != ""
    {
      assert Discovered(inputs[i]);
    }
  }
}
