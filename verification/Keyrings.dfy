/** Correlation by shared keys, without what the records hold: which record each input
    goes into, the keys of each record, and the registry from keys to records. */
module Keyrings {
  import opened Prelude
  import opened Graphs

  datatype Keyring = Keyring(owners: seq<string>, keys: map<string, set<string>>, canon: map<string, string>)

  const EMPTY: Keyring := Keyring([], map[], map[])

  /** Known keys keep their record; the others get `target`. */
  function Register(canon: map<string, string>, keys: set<string>, target: string): map<string, string> {
    map k | k in canon.Keys + keys :: if k in canon then canon[k] else target
  }

  /** All of `keys` get the record `id`. */
  function Claim(canon: map<string, string>, keys: set<string>, id: string): map<string, string> {
    map k | k in canon.Keys + keys :: if k in keys then id else canon[k]
  }

  lemma RegisterOneMore(canon: map<string, string>, keys: set<string>, k: string, target: string)
    ensures var r := Register(canon, keys, target);
            Register(canon, keys + {k}, target) == if k in r then r else r[k := target]
  {
  }

  lemma ClaimOneMore(canon: map<string, string>, keys: set<string>, k: string, id: string)
    ensures Claim(canon, keys + {k}, id) == Claim(canon, keys, id)[k := id]
  {
  }

  /** An input with the keys `s` joins a record that one of them is registered for, or
      founds a record under `name` when none of them is known. */
  ghost predicate Step(r: Keyring, name: string, s: set<string>, r': Keyring, owner: string) {
    && r'.owners == r.owners + [owner]
    && if owner in r.keys then
         && (exists k :: k in s && k in r.canon && r.canon[k] == owner)
         && r'.keys == r.keys[owner := r.keys[owner] + s]
         && r'.canon == Register(r.canon, r.keys[owner] + s, owner)
       else
         && owner == name && s !! r.canon.Keys
         && r'.keys == r.keys[owner := s]
         && r'.canon == Claim(r.canon, s, owner)
  }

  /** The keyrings after 0, 1, ... inputs; `owners` says where each input went. */
  ghost predicate IsHistory(names: seq<string>, ks: seq<set<string>>, owners: seq<string>, rings: seq<Keyring>) {
    && |names| == |ks| == |owners| && |rings| == |ks| + 1 && rings[0] == EMPTY
    && forall i :: 0 <= i < |ks| ==> Step(rings[i], names[i], ks[i], rings[i + 1], owners[i])
  }

  lemma HistoryExtends(names: seq<string>, ks: seq<set<string>>, owners: seq<string>, rings: seq<Keyring>,
                       name: string, s: set<string>, r': Keyring, owner: string)
    requires IsHistory(names, ks, owners, rings) && Step(rings[|ks|], name, s, r', owner)
    ensures IsHistory(names + [name], ks + [s], owners + [owner], rings + [r'])
  {
    forall i | 0 <= i <= |ks|
      ensures Step((rings + [r'])[i], (names + [name])[i], (ks + [s])[i], (rings + [r'])[i + 1], (owners + [owner])[i])
    {
      if i < |ks| {
        assert Step(rings[i], names[i], ks[i], rings[i + 1], owners[i]);
      }
    }
  }

  // ---- what a keyring keeps ---------------------------------------------------------

  /** Some input among the first `n` brought key `k` to record `id`. */
  ghost predicate Brought(ks: seq<set<string>>, owners: seq<string>, n: nat, id: string, k: string)
    requires n <= |ks| == |owners|
  {
    exists i :: 0 <= i < n && owners[i] == id && k in ks[i]
  }

  /** The keys of a record are those its inputs brought, all of them registered. */
  ghost predicate KeysOk(ks: seq<set<string>>, owners: seq<string>, n: nat, r: Keyring)
    requires n <= |ks| == |owners|
  {
    forall id, k :: id in r.keys && k in r.keys[id] ==> k in r.canon && Brought(ks, owners, n, id, k)
  }

  ghost predicate OwnersOk(ks: seq<set<string>>, owners: seq<string>, n: nat, r: Keyring)
    requires n <= |ks| == |owners|
  {
    forall i :: 0 <= i < n ==> owners[i] in r.keys && ks[i] <= r.keys[owners[i]]
  }

  /** A registered key leads to a record that has it. */
  ghost predicate CanonOk(r: Keyring) {
    forall k :: k in r.canon ==> r.canon[k] in r.keys && k in r.keys[r.canon[k]]
  }

  lemma StepKeepsCanon(r: Keyring, name: string, s: set<string>, r': Keyring, owner: string)
    requires CanonOk(r) && Step(r, name, s, r', owner)
    ensures CanonOk(r')
  {
  }

  lemma StepKeepsOwners(ks: seq<set<string>>, owners: seq<string>, n: nat, r: Keyring, name: string, r': Keyring)
    requires n < |ks| == |owners| && OwnersOk(ks, owners, n, r) && Step(r, name, ks[n], r', owners[n])
    ensures OwnersOk(ks, owners, n + 1, r')
  {
  }

  lemma StepKeepsKeys(ks: seq<set<string>>, owners: seq<string>, n: nat, r: Keyring, name: string, r': Keyring)
    requires n < |ks| == |owners| && KeysOk(ks, owners, n, r) && Step(r, name, ks[n], r', owners[n])
    ensures KeysOk(ks, owners, n + 1, r')
  {
    forall id, k | id in r'.keys && k in r'.keys[id]
      ensures k in r'.canon && Brought(ks, owners, n + 1, id, k)
    {
      if id in r.keys && k in r.keys[id] {
        assert Brought(ks, owners, n, id, k);
        var i :| 0 <= i < n && owners[i] == id && k in ks[i];
      } else {
        assert owners[n] == id && k in ks[n];
      }
    }
  }

  lemma {:induction false} RingOk(names: seq<string>, ks: seq<set<string>>, owners: seq<string>, rings: seq<Keyring>, n: nat)
    requires IsHistory(names, ks, owners, rings) && n <= |ks|
    ensures CanonOk(rings[n]) && OwnersOk(ks, owners, n, rings[n]) && KeysOk(ks, owners, n, rings[n])
  {
    if n > 0 {
      RingOk(names, ks, owners, rings, n - 1);
      assert Step(rings[n - 1], names[n - 1], ks[n - 1], rings[n], owners[n - 1]);
      StepKeepsCanon(rings[n - 1], names[n - 1], ks[n - 1], rings[n], owners[n - 1]);
      StepKeepsOwners(ks, owners, n - 1, rings[n - 1], names[n - 1], rings[n]);
      StepKeepsKeys(ks, owners, n - 1, rings[n - 1], names[n - 1], rings[n]);
    }
  }

  lemma KeyWasBrought(names: seq<string>, ks: seq<set<string>>, owners: seq<string>, rings: seq<Keyring>, n: nat,
                      id: string, k: string)
    requires IsHistory(names, ks, owners, rings) && n <= |ks| && id in rings[n].keys && k in rings[n].keys[id]
    ensures k in rings[n].canon && Brought(ks, owners, n, id, k)
  {
    RingOk(names, ks, owners, rings, n);
  }

  lemma KeysAreHeld(names: seq<string>, ks: seq<set<string>>, owners: seq<string>, rings: seq<Keyring>, n: nat, i: int)
    requires IsHistory(names, ks, owners, rings) && 0 <= i < n <= |ks|
    ensures owners[i] in rings[n].keys && ks[i] <= rings[n].keys[owners[i]]
  {
    RingOk(names, ks, owners, rings, n);
  }

  // ---- soundness ----------------------------------------------------------------------

  /** Pairs among the first `n` inputs with a key in common. */
  ghost function KeyEdges(ks: seq<set<string>>, n: nat): (edges: Edges)
    requires n <= |ks|
    ensures Symmetric(edges)
  {
    set i, j | 0 <= i < n && 0 <= j < n && ks[i] * ks[j] != {} :: (i, j)
  }

  lemma EdgesGrow(ks: seq<set<string>>, m: nat, n: nat)
    requires m <= n <= |ks|
    ensures KeyEdges(ks, m) <= KeyEdges(ks, n)
  {
  }

  /** An input that joins a record shares a key with one of the inputs already in it. */
  lemma JoinsThroughAKey(names: seq<string>, ks: seq<set<string>>, owners: seq<string>, rings: seq<Keyring>, x: nat)
    returns (i: int)
    requires IsHistory(names, ks, owners, rings) && x < |ks| && owners[x] in rings[x].keys
    ensures 0 <= i < x && ks[i] * ks[x] != {} && owners[i] == owners[x]
  {
    var r := rings[x];
    assert Step(r, names[x], ks[x], rings[x + 1], owners[x]);
    RingOk(names, ks, owners, rings, x);
    var k :| k in ks[x] && k in r.canon && r.canon[k] == owners[x];
    assert Brought(ks, owners, x, owners[x], k);
    i :| 0 <= i < x && owners[i] == owners[x] && k in ks[i];
    assert k in ks[i] * ks[x];
  }

  /** The newcomer is linked to everyone in the record it joins. */
  lemma NewcomerIsLinked(names: seq<string>, ks: seq<set<string>>, owners: seq<string>, rings: seq<Keyring>, x: nat, u: int)
    requires IsHistory(names, ks, owners, rings) && 0 <= u < x < |ks| && owners[u] == owners[x]
    requires Sound(KeyEdges(ks, x), owners[..x])
    ensures Connected(KeyEdges(ks, x + 1), x + 1, u, x)
  {
    var edges := KeyEdges(ks, x + 1);
    RingOk(names, ks, owners, rings, x);
    var i := JoinsThroughAKey(names, ks, owners, rings, x);
    assert owners[..x][u] == owners[..x][i];
    assert Connected(KeyEdges(ks, x), |owners[..x]|, u, i);
    EdgesGrow(ks, x, x + 1);
    MoreEdgesConnectMore(KeyEdges(ks, x), x, edges, x + 1, u, i);
    EdgeConnects(edges, x + 1, i, x);
    ConnectedTransitive(edges, x + 1, u, i, x);
  }

  /** Two inputs share a record only if a chain of shared keys links them. */
  lemma {:induction false} HistoryIsSound(names: seq<string>, ks: seq<set<string>>, owners: seq<string>, rings: seq<Keyring>, n: nat)
    requires IsHistory(names, ks, owners, rings) && n <= |ks|
    ensures Sound(KeyEdges(ks, n), owners[..n])
  {
    if n > 0 {
      var x, edges := n - 1, KeyEdges(ks, n);
      HistoryIsSound(names, ks, owners, rings, x);
      forall u, v | 0 <= u < n && 0 <= v < n && owners[..n][u] == owners[..n][v]
        ensures Connected(edges, n, u, v)
      {
        PairIsLinked(names, ks, owners, rings, x, u, v);
      }
    }
  }

  lemma PairIsLinked(names: seq<string>, ks: seq<set<string>>, owners: seq<string>, rings: seq<Keyring>, x: nat, u: int, v: int)
    requires IsHistory(names, ks, owners, rings) && x < |ks| && 0 <= u <= x && 0 <= v <= x && owners[u] == owners[v]
    requires Sound(KeyEdges(ks, x), owners[..x])
    ensures Connected(KeyEdges(ks, x + 1), x + 1, u, v)
  {
    var edges := KeyEdges(ks, x + 1);
    if u == v {
      ConnectedReflexive(edges, x + 1, u);
    } else if v == x {
      NewcomerIsLinked(names, ks, owners, rings, x, u);
    } else if u == x {
      NewcomerIsLinked(names, ks, owners, rings, x, v);
      ConnectedSymmetric(edges, x + 1, v, x);
    } else {
      assert owners[..x][u] == owners[..x][v];
      assert Connected(KeyEdges(ks, x), |owners[..x]|, u, v);
      EdgesGrow(ks, x, x + 1);
      MoreEdgesConnectMore(KeyEdges(ks, x), x, edges, x + 1, u, v);
    }
  }

  // ---- exactness ----------------------------------------------------------------------

  /** Input `m` shares keys with two earlier inputs that were not linked before it came. */
  ghost predicate Bridges(ks: seq<set<string>>, m: int, i: int, j: int) {
    && 0 <= i < m < |ks| && 0 <= j < m
    && ks[i] * ks[m] != {} && ks[j] * ks[m] != {}
    && !Connected(KeyEdges(ks, m), m, i, j)
  }

  ghost predicate NoBridge(ks: seq<set<string>>) {
    forall m, i, j :: !Bridges(ks, m, i, j)
  }

  /** Every key leads to the record that has it: records share no keys. */
  ghost predicate KeysLead(r: Keyring) {
    forall id, k :: id in r.keys && k in r.keys[id] ==> k in r.canon && r.canon[k] == id
  }

  /** Whoever shares a key with the next input is in the record that input goes into. */
  lemma SharersAreHit(names: seq<string>, ks: seq<set<string>>, owners: seq<string>, rings: seq<Keyring>, x: nat, i: int, k: string)
    requires IsHistory(names, ks, owners, rings) && NoBridge(ks) && 0 <= i < x < |ks|
    requires KeysLead(rings[x]) && NamesComponents(KeyEdges(ks, x), owners[..x])
    requires k in ks[i] && k in ks[x]
    ensures owners[i] == owners[x]
  {
    RingOk(names, ks, owners, rings, x);
    assert k in rings[x].keys[owners[i]];
    assert Step(rings[x], names[x], ks[x], rings[x + 1], owners[x]);
    assert owners[x] in rings[x].keys;
    var j := JoinsThroughAKey(names, ks, owners, rings, x);
    assert k in ks[i] * ks[x];
    assert !Bridges(ks, x, i, j);
    assert Connected(KeyEdges(ks, x), |owners[..x]|, i, j);
    assert owners[..x][i] == owners[..x][j];
  }

  lemma KeysStillLead(names: seq<string>, ks: seq<set<string>>, owners: seq<string>, rings: seq<Keyring>, x: nat)
    requires IsHistory(names, ks, owners, rings) && NoBridge(ks) && x < |ks|
    requires KeysLead(rings[x]) && NamesComponents(KeyEdges(ks, x), owners[..x])
    ensures KeysLead(rings[x + 1])
  {
    var r := rings[x];
    RingOk(names, ks, owners, rings, x);
    assert Step(r, names[x], ks[x], rings[x + 1], owners[x]);
    forall k | k in ks[x] && k in r.canon
      ensures r.canon[k] == owners[x]
    {
      assert Brought(ks, owners, x, r.canon[k], k);
      var i :| 0 <= i < x && owners[i] == r.canon[k] && k in ks[i];
      SharersAreHit(names, ks, owners, rings, x, i, k);
    }
    LeadingStep(r, names[x], ks[x], rings[x + 1], owners[x]);
  }

  lemma LeadingStep(r: Keyring, name: string, s: set<string>, r': Keyring, owner: string)
    requires Step(r, name, s, r', owner) && KeysLead(r)
    requires forall k :: k in s && k in r.canon ==> r.canon[k] == owner
    ensures KeysLead(r')
  {
  }

  lemma EdgesStayInside(names: seq<string>, ks: seq<set<string>>, owners: seq<string>, rings: seq<Keyring>, x: nat, u: int, v: int)
    requires IsHistory(names, ks, owners, rings) && NoBridge(ks) && x < |ks|
    requires KeysLead(rings[x]) && NamesComponents(KeyEdges(ks, x), owners[..x])
    requires 0 <= u < v <= x && ks[u] * ks[v] != {}
    ensures owners[u] == owners[v]
  {
    if v == x {
      var k :| k in ks[u] * ks[x];
      SharersAreHit(names, ks, owners, rings, x, u, k);
    } else {
      EdgeConnects(KeyEdges(ks, x), x, u, v);
      assert Connected(KeyEdges(ks, x), |owners[..x]|, u, v);
      assert owners[..x][u] == owners[..x][v];
    }
  }

  lemma {:induction false} NoBridgeIsExact(names: seq<string>, ks: seq<set<string>>, owners: seq<string>, rings: seq<Keyring>, n: nat)
    requires IsHistory(names, ks, owners, rings) && NoBridge(ks) && n <= |ks|
    ensures KeysLead(rings[n]) && NamesComponents(KeyEdges(ks, n), owners[..n])
  {
    HistoryIsSound(names, ks, owners, rings, n);
    if n > 0 {
      var x := n - 1;
      NoBridgeIsExact(names, ks, owners, rings, x);
      KeysStillLead(names, ks, owners, rings, x);
      forall u, v | (u, v) in KeyEdges(ks, n) && 0 <= u < n && 0 <= v < n
        ensures owners[..n][u] == owners[..n][v]
      {
        if u < v {
          EdgesStayInside(names, ks, owners, rings, x, u, v);
        } else if v < u {
          assert ks[v] * ks[u] == ks[u] * ks[v];
          EdgesStayInside(names, ks, owners, rings, x, v, u);
        }
      }
    }
    SoundAndClosedIsComponents(KeyEdges(ks, n), owners[..n]);
  }

  /** A bridge stays visible: its two sides are linked, yet in different records. */
  lemma BridgeIsInexact(names: seq<string>, ks: seq<set<string>>, owners: seq<string>, rings: seq<Keyring>, m: int, i: int, j: int)
    requires IsHistory(names, ks, owners, rings) && Bridges(ks, m, i, j)
    ensures Connected(KeyEdges(ks, |ks|), |ks|, i, j) && owners[i] != owners[j]
  {
    var edges, n := KeyEdges(ks, |ks|), |ks|;
    EdgeConnects(edges, n, i, m);
    EdgeConnects(edges, n, j, m);
    ConnectedSymmetric(edges, n, j, m);
    ConnectedTransitive(edges, n, i, m, j);
    HistoryIsSound(names, ks, owners, rings, m);
    assert owners[..m][i] == owners[i] && owners[..m][j] == owners[j];
    assert |owners[..m]| == m;
  }

  /** The records are exactly the connected components of shared keys if and only if no
      input bridges two groups that were separate when it came. */
  lemma ComponentsIffNoBridge(names: seq<string>, ks: seq<set<string>>, owners: seq<string>, rings: seq<Keyring>)
    requires IsHistory(names, ks, owners, rings)
    ensures NamesComponents(KeyEdges(ks, |ks|), owners) <==> NoBridge(ks)
  {
    var n := |ks|;
    assert owners[..n] == owners;
    if NoBridge(ks) {
      NoBridgeIsExact(names, ks, owners, rings, n);
    } else {
      var m, i, j :| Bridges(ks, m, i, j);
      BridgeIsInexact(names, ks, owners, rings, m, i, j);
    }
  }

  // ---- naming and order ---------------------------------------------------------------

  /** The distinct elements of `s` in first-seen order. */
  function Dedup(s: seq<string>): seq<string> {
    if s == [] then [] else
      Dedup(s[..|s| - 1]) + if s[|s| - 1] in s[..|s| - 1] then [] else [s[|s| - 1]]
  }

  lemma {:induction false} DedupMembers(s: seq<string>)
    ensures Distinct(Dedup(s)) && forall x :: x in Dedup(s) <==> x in s
  {
    if s != [] {
      DedupMembers(s[..|s| - 1]);
      assert s == s[..|s| - 1] + [s[|s| - 1]];
    }
  }

  /** A record is named after the first input that went into it. */
  lemma FoundersName(names: seq<string>, ks: seq<set<string>>, owners: seq<string>, rings: seq<Keyring>, x: nat)
    requires IsHistory(names, ks, owners, rings) && x < |ks| && owners[x] !in owners[..x]
    ensures owners[x] == names[x]
  {
    assert Step(rings[x], names[x], ks[x], rings[x + 1], owners[x]);
    assert forall i :: 0 <= i < x ==> owners[..x][i] != owners[x];
    if owners[x] in rings[x].keys {
      var i := JoinsThroughAKey(names, ks, owners, rings, x);
    }
  }
}
