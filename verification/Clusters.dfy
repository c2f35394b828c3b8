/** Single-linkage clustering on union-find, against graph connectivity. */
module Clusters {
  import opened Prelude
  import opened Similarity
  import opened UnionFinds
  import opened Graphs

  /** Which configs are at least `t` similar. */
  ghost function Links(n: Norms, cs: seq<Config>, t: real): (edges: Edges)
    ensures Symmetric(edges)
  {
    var edges := set i, j | 0 <= i < |cs| && 0 <= j < |cs|
                          && Jaccard(Tokens(n, cs[i]), Tokens(n, cs[j])) >= t :: (i, j);
    assert Symmetric(edges) by {
      forall u, v | (u, v) in edges
        ensures (v, u) in edges
      {
        JaccardIsSymmetric(Tokens(n, cs[u]), Tokens(n, cs[v]));
      }
    }
    edges
  }

  /** Every edge before (i, j) in row order joins two elements of one class. */
  ghost predicate Processed(edges: Edges, names: seq<int>, i: int, j: int) {
    forall u, v :: 0 <= u < v < |names| && (u < i || (u == i && v < j)) && (u, v) in edges ==>
      names[u] == names[v]
  }

  lemma MergeIsSound(edges: Edges, names: seq<int>, i: int, j: int, top: int)
    requires Symmetric(edges) && Sound(edges, names)
    requires 0 <= i < |names| && 0 <= j < |names| && (i, j) in edges
    requires top == names[i] || top == names[j]
    ensures Sound(edges, Merged(names, names[i], names[j], top))
  {
    var n, names' := |names|, Merged(names, names[i], names[j], top);
    forall u | 0 <= u < n && (names[u] == names[i] || names[u] == names[j])
      ensures Connected(edges, n, u, j) && Connected(edges, n, j, u)
    {
      EdgeConnects(edges, n, i, j);
      if names[u] == names[i] {
        ConnectedTransitive(edges, n, u, i, j);
      }
      ConnectedSymmetric(edges, n, u, j);
    }
    forall u, v | 0 <= u < n && 0 <= v < n && names'[u] == names'[v]
      ensures Connected(edges, n, u, v)
    {
      if names[u] != names[v] {
        ConnectedTransitive(edges, n, u, j, v);
      }
    }
  }

  lemma UnprocessedRow(edges: Edges, names: seq<int>, i: int)
    requires 0 <= i < |names| && Processed(edges, names, i, |names|)
    ensures Processed(edges, names, i + 1, 0)
  {
  }

  lemma MergeProcesses(edges: Edges, names: seq<int>, i: int, j: int, top: int)
    requires 0 <= i < j < |names| && Processed(edges, names, i, j)
    ensures Processed(edges, Merged(names, names[i], names[j], top), i, j + 1)
  {
  }

  lemma SkipProcesses(edges: Edges, names: seq<int>, i: int, j: int)
    requires 0 <= i < j < |names| && Processed(edges, names, i, j) && (i, j) !in edges
    ensures Processed(edges, names, i, j + 1)
  {
  }

  lemma SingletonsAreSound(edges: Edges, n: nat)
    ensures Sound(edges, seq(n, x => x)) && Processed(edges, seq(n, x => x), 0, 0)
  {
    forall u | 0 <= u < n
      ensures Connected(edges, n, u, u)
    {
      ConnectedReflexive(edges, n, u);
    }
  }

  lemma AllProcessedIsComponents(edges: Edges, names: seq<int>)
    requires Symmetric(edges) && Sound(edges, names) && Processed(edges, names, |names|, 0)
    ensures NamesComponents(edges, names)
  {
    forall u, v | (u, v) in edges && 0 <= u < |names| && 0 <= v < |names|
      ensures names[u] == names[v]
    {
      assert (v, u) in edges;
    }
    SoundAndClosedIsComponents(edges, names);
  }

  /** The pairwise loop: afterwards the classes are the connected components. */
  method UnionLinked(n: Norms, cs: seq<Config>, t: real) returns (uf: UnionFind)
    ensures fresh(uf) && fresh(uf.parent) && fresh(uf.rank)
    ensures uf.Valid() && uf.parent.Length == |cs|
    ensures NamesComponents(Links(n, cs, t), uf.Reps())
  {
    ghost var edges := Links(n, cs, t);
    uf := new UnionFind(|cs|);
    SingletonsAreSound(edges, |cs|);
    for i := 0 to |cs|
      invariant uf.Valid() && uf.parent.Length == |cs|
      invariant Sound(edges, uf.Reps()) && Processed(edges, uf.Reps(), i, 0)
    {
      for j := i + 1 to |cs|
        invariant uf.Valid() && uf.parent.Length == |cs|
        invariant Sound(edges, uf.Reps()) && Processed(edges, uf.Reps(), i, j)
      {
        var sim := ComputeJaccard(Tokens(n, cs[i]), Tokens(n, cs[j]));
        ghost var was := uf.Reps();
        if sim >= t {
          ghost var top := uf.Union(i, j);
          MergeIsSound(edges, was, i, j, top);
          MergeProcesses(edges, was, i, j, top);
        } else {
          SkipProcesses(edges, was, i, j);
        }
      }
      UnprocessedRow(edges, uf.Reps(), i);
    }
    AllProcessedIsComponents(edges, uf.Reps());
  }

  function Init(s: seq<int>): seq<int>
    requires s != []
  {
    s[..|s| - 1]
  }

  function Last(s: seq<int>): int
    requires s != []
  {
    s[|s| - 1]
  }

  /** Ids start at 0, and each new one is the number of distinct ids before it. */
  ghost predicate DenseFirstSeen(ids: seq<int>) {
    ids == [] ||
    (DenseFirstSeen(Init(ids)) && (Last(ids) in Init(ids) || Last(ids) == |Elems(Init(ids))|))
  }

  ghost predicate IsClustering(n: Norms, cs: seq<Config>, t: real, ids: seq<int>) {
    |ids| == |cs| && DenseFirstSeen(ids) && NamesComponents(Links(n, cs, t), ids)
  }

  /** The ids in use are exactly 0..k-1, where k is how many there are. */
  lemma {:induction false} DenseIds(ids: seq<int>, x: int)
    requires DenseFirstSeen(ids)
    ensures x in Elems(ids) <==> 0 <= x < |Elems(ids)|
  {
    if ids != [] {
      var init, last := Init(ids), Last(ids);
      DenseIds(init, x);
      assert ids == init + [last];
      ElemsSnoc(init, last);
      DenseIds(init, last);
      if last in init {
        assert Elems(ids) == Elems(init);
      } else {
        assert |Elems(ids)| == |Elems(init)| + 1;
      }
    }
  }

  /** What the relabelling loop knows: `labels` numbers the names seen so far densely. */
  ghost predicate Relabelled(names: seq<int>, labels: map<int, int>, ids: seq<int>) {
    && |ids| == |names|
    && labels.Keys == Elems(names)
    && |labels| == |Elems(ids)|
    && (forall k :: 0 <= k < |names| ==> ids[k] == labels[names[k]])
    && OneLabelEach(labels)
    && DenseFirstSeen(ids)
  }

  ghost predicate OneLabelEach(labels: map<int, int>) {
    forall k, l :: k in labels && l in labels && labels[k] == labels[l] ==> k == l
  }

  lemma DenseAppend(ids: seq<int>, x: int)
    requires DenseFirstSeen(ids) && (x in ids || x == |Elems(ids)|)
    ensures DenseFirstSeen(ids + [x])
  {
    assert Init(ids + [x]) == ids;
  }

  lemma RelabelSeen(names: seq<int>, labels: map<int, int>, ids: seq<int>, r: int)
    requires Relabelled(names, labels, ids) && r in labels
    ensures Relabelled(names + [r], labels, ids + [labels[r]])
  {
    ElemsSnoc(names, r);
    ElemsSnoc(ids, labels[r]);
    LabelsAreIds(names, labels, ids, r);
    assert Elems(ids + [labels[r]]) == Elems(ids);
    assert Elems(names + [r]) == Elems(names);
    DenseAppend(ids, labels[r]);
  }

  lemma LabelsAreIds(names: seq<int>, labels: map<int, int>, ids: seq<int>, r: int)
    requires Relabelled(names, labels, ids) && r in labels
    ensures labels[r] in ids && labels[r] < |labels|
  {
    assert r in Elems(names);
    var i :| 0 <= i < |names| && names[i] == r;
    assert ids[i] == labels[r];
    DenseIds(ids, labels[r]);
  }

  lemma RelabelNew(names: seq<int>, labels: map<int, int>, ids: seq<int>, r: int)
    requires Relabelled(names, labels, ids) && r !in labels
    ensures Relabelled(names + [r], labels[r := |labels|], ids + [|labels|])
  {
    var next := |labels|;
    ElemsSnoc(names, r);
    ElemsSnoc(ids, next);
    DenseIds(ids, next);
    DenseAppend(ids, next);
    forall k | k in labels
      ensures labels[k] < next
    {
      LabelsAreIds(names, labels, ids, k);
    }
    AddLabel(labels, r, next);
  }

  lemma AddLabel(labels: map<int, int>, r: int, next: int)
    requires OneLabelEach(labels) && r !in labels && forall k :: k in labels ==> labels[k] < next
    ensures OneLabelEach(labels[r := next])
    ensures labels[r := next].Keys == labels.Keys + {r}
    ensures |labels[r := next]| == |labels| + 1
  {
    assert labels[r := next].Keys == labels.Keys + {r};
  }

  lemma RelabelStep(names: seq<int>, i: nat, labels: map<int, int>, ids: seq<int>, labels': map<int, int>)
    requires i < |names| && Relabelled(names[..i], labels, ids)
    requires labels' == if names[i] in labels then labels else labels[names[i] := |labels|]
    ensures names[i] in labels' && Relabelled(names[..i + 1], labels', ids + [labels'[names[i]]])
  {
    assert names[..i + 1] == names[..i] + [names[i]];
    if names[i] in labels {
      RelabelSeen(names[..i], labels, ids, names[i]);
    } else {
      RelabelNew(names[..i], labels, ids, names[i]);
    }
  }

  lemma RelabellingKeepsComponents(edges: Edges, names: seq<int>, labels: map<int, int>, ids: seq<int>)
    requires NamesComponents(edges, names) && Relabelled(names, labels, ids)
    ensures NamesComponents(edges, ids)
  {
    forall u, v | 0 <= u < |ids| && 0 <= v < |ids|
      ensures ids[u] == ids[v] <==> Connected(edges, |ids|, u, v)
    {
      assert ids[u] == labels[names[u]] && ids[v] == labels[names[v]];
    }
  }

  /** Cluster ids, relabelled densely in first-occurrence order. */
  method ClusterIDs(n: Norms, cs: seq<Config>, t: real) returns (ids: seq<int>)
    ensures IsClustering(n, cs, t, ids)
  {
    var uf := UnionLinked(n, cs, t);
    ghost var names := uf.Reps();
    var labels: map<int, int> := map[];
    var next := 0;
    ids := [];
    for i := 0 to |cs|
      invariant uf.Valid() && uf.parent.Length == |cs| && uf.Reps() == names
      invariant next == |labels| && Relabelled(names[..i], labels, ids)
    {
      var r := uf.Find(i);
      ghost var was := labels;
      if r !in labels {
        labels := labels[r := next];
        next := next + 1;
      }
      RelabelStep(names, i, was, ids, labels);
      ids := ids + [labels[r]];
    }
    assert names[..|cs|] == names;
    RelabellingKeepsComponents(Links(n, cs, t), names, labels, ids);
  }

  lemma {:induction false} DenseIsUnique(a: seq<int>, b: seq<int>)
    requires |a| == |b| && DenseFirstSeen(a) && DenseFirstSeen(b)
    requires forall i, j :: 0 <= i < |a| && 0 <= j < |a| ==> (a[i] == a[j] <==> b[i] == b[j])
    ensures a == b
  {
    if a != [] {
      var x := |a| - 1;
      assert forall i :: 0 <= i < x ==> Init(a)[i] == a[i] && Init(b)[i] == b[i];
      DenseIsUnique(Init(a), Init(b));
      assert Last(a) in Init(a) <==> Last(b) in Init(b);
      assert Last(a) == Last(b);
      assert a == Init(a) + [Last(a)] && b == Init(b) + [Last(b)];
    }
  }

  /** The clustering is determined: the loops have no freedom in the ids they return. */
  lemma ClusteringIsUnique(n: Norms, cs: seq<Config>, t: real, a: seq<int>, b: seq<int>)
    requires IsClustering(n, cs, t, a) && IsClustering(n, cs, t, b)
    ensures a == b
  {
    forall i, j | 0 <= i < |a| && 0 <= j < |a|
      ensures a[i] == a[j] <==> b[i] == b[j]
    {
      assert a[i] == a[j] <==> Connected(Links(n, cs, t), |cs|, i, j);
    }
    DenseIsUnique(a, b);
  }

  // ---- the near-duplicate report ----------------------------------------------

  datatype NearDupStat = NearDupStat(threshold: real, clusters: int, collapsed: int)

  method CountDistinct(ids: seq<int>) returns (k: nat)
    ensures k == |Elems(ids)|
  {
    var seen: set<int> := {};
    for i := 0 to |ids|
      invariant seen == Elems(ids[..i])
    {
      assert ids[..i + 1] == ids[..i] + [ids[i]];
      ElemsSnoc(ids[..i], ids[i]);
      seen := seen + {ids[i]};
    }
    assert ids[..|ids|] == ids;
    k := |seen|;
  }

  ghost predicate IsStat(n: Norms, cs: seq<Config>, t: real, stat: NearDupStat) {
    && stat.threshold == t
    && stat.clusters + stat.collapsed == |cs|
    && exists ids :: IsClustering(n, cs, t, ids) && stat.clusters == |Elems(ids)|
  }

  method NearDupReport(n: Norms, cs: seq<Config>, thresholds: seq<real>) returns (out: seq<NearDupStat>)
    ensures |out| == |thresholds|
    ensures forall k :: 0 <= k < |out| ==> IsStat(n, cs, thresholds[k], out[k])
  {
    out := [];
    for k := 0 to |thresholds|
      invariant |out| == k
      invariant forall l :: 0 <= l < k ==> IsStat(n, cs, thresholds[l], out[l])
    {
      var t := thresholds[k];
      var ids := ClusterIDs(n, cs, t);
      var clusters := CountDistinct(ids);
      out := out + [NearDupStat(t, clusters, |cs| - clusters)];
    }
  }

  /** If `fine` tells apart whatever `coarse` does, it uses at least as many names. */
  lemma {:induction false} FinerHasMore(coarse: seq<int>, fine: seq<int>)
    requires |coarse| == |fine|
    requires forall i, j :: 0 <= i < |fine| && 0 <= j < |fine| && fine[i] == fine[j] ==> coarse[i] == coarse[j]
    ensures |Elems(coarse)| <= |Elems(fine)|
  {
    if fine != [] {
      var x := |fine| - 1;
      FinerHasMore(coarse[..x], fine[..x]);
      assert coarse == coarse[..x] + [coarse[x]] && fine == fine[..x] + [fine[x]];
      assert fine[x] in fine[..x] ==> coarse[x] in coarse[..x] by {
        if i :| 0 <= i < x && fine[..x][i] == fine[x] {
          assert coarse[..x][i] == coarse[x];
        }
      }
      OneMoreName(coarse[..x], coarse[x]);
      OneMoreName(fine[..x], fine[x]);
    }
  }

  lemma OneMoreName(s: seq<int>, x: int)
    ensures |Elems(s + [x])| == |Elems(s)| + if x in s then 0 else 1
  {
    ElemsSnoc(s, x);
  }

  /** Raising the threshold refines the clusters, so the report collapses no more configs. */
  lemma HigherThresholdRefines(n: Norms, cs: seq<Config>, t: real, t': real, ids: seq<int>, ids': seq<int>)
    requires t <= t' && IsClustering(n, cs, t, ids) && IsClustering(n, cs, t', ids')
    ensures forall i, j :: 0 <= i < |cs| && 0 <= j < |cs| && ids'[i] == ids'[j] ==> ids[i] == ids[j]
    ensures |Elems(ids)| <= |Elems(ids')|
  {
    var edges, edges' := Links(n, cs, t), Links(n, cs, t');
    assert edges' <= edges;
    forall i, j | 0 <= i < |cs| && 0 <= j < |cs| && ids'[i] == ids'[j]
      ensures ids[i] == ids[j]
    {
      MoreEdgesConnectMore(edges', |cs|, edges, |cs|, i, j);
    }
    FinerHasMore(ids, ids');
  }

  lemma CollapsedNeverGrows(n: Norms, cs: seq<Config>, a: NearDupStat, b: NearDupStat)
    requires IsStat(n, cs, a.threshold, a) && IsStat(n, cs, b.threshold, b) && a.threshold <= b.threshold
    ensures b.collapsed <= a.collapsed
  {
    var ids :| IsClustering(n, cs, a.threshold, ids) && a.clusters == |Elems(ids)|;
    var ids' :| IsClustering(n, cs, b.threshold, ids') && b.clusters == |Elems(ids')|;
    HigherThresholdRefines(n, cs, a.threshold, b.threshold, ids, ids');
  }

  /** A threshold of 0 or less puts everything in one cluster. */
  lemma LowThresholdIsOneCluster(n: Norms, cs: seq<Config>, t: real, ids: seq<int>)
    requires t <= 0.0 && IsClustering(n, cs, t, ids) && cs != []
    ensures Elems(ids) == {0}
  {
    forall i | 0 <= i < |cs|
      ensures ids[i] == ids[0]
    {
      JaccardRange(Tokens(n, cs[i]), Tokens(n, cs[0]));
      EdgeConnects(Links(n, cs, t), |cs|, i, 0);
    }
    assert Elems(ids) == {ids[0]};
    DenseIds(ids, 0);
  }

  /** A chain of configs, each no farther from the next than the threshold leaves room for. */
  ghost predicate CloseChain(n: Norms, cs: seq<Config>, t: real, path: seq<int>, i: int, j: int) {
    && path != [] && path[0] == i && path[|path| - 1] == j
    && (forall k :: 0 <= k < |path| ==> 0 <= path[k] < |cs|)
    && forall k :: 0 <= k < |path| - 1 ==> Distance(Tokens(n, cs[path[k]]), Tokens(n, cs[path[k + 1]])) <= 1.0 - t
  }

  /** Two configs are clustered together exactly when such a chain leads from one to the other;
      a pair at just the threshold is close enough. */
  lemma TogetherIffClose(n: Norms, cs: seq<Config>, t: real, ids: seq<int>, i: int, j: int)
    requires IsClustering(n, cs, t, ids) && 0 <= i < |cs| && 0 <= j < |cs|
    ensures ids[i] == ids[j] <==> exists path :: CloseChain(n, cs, t, path, i, j)
  {
    if ids[i] == ids[j] {
      var path :| Joins(Links(n, cs, t), |cs|, path, i, j);
      ChainIsClose(n, cs, t, path, i, j);
    }
    if path :| CloseChain(n, cs, t, path, i, j) {
      CloseIsChain(n, cs, t, path, i, j);
    }
  }

  lemma ChainIsClose(n: Norms, cs: seq<Config>, t: real, path: seq<int>, i: int, j: int)
    requires Joins(Links(n, cs, t), |cs|, path, i, j)
    ensures CloseChain(n, cs, t, path, i, j)
  {
    forall k | 0 <= k < |path| - 1
      ensures Distance(Tokens(n, cs[path[k]]), Tokens(n, cs[path[k + 1]])) <= 1.0 - t
    {
      assert (path[k], path[k + 1]) in Links(n, cs, t);
    }
  }

  lemma CloseIsChain(n: Norms, cs: seq<Config>, t: real, path: seq<int>, i: int, j: int)
    requires CloseChain(n, cs, t, path, i, j)
    ensures Joins(Links(n, cs, t), |cs|, path, i, j)
  {
    forall k | 0 <= k < |path| - 1
      ensures (path[k], path[k + 1]) in Links(n, cs, t)
    {
      assert Distance(Tokens(n, cs[path[k]]), Tokens(n, cs[path[k + 1]])) <= 1.0 - t;
    }
  }

  /** A threshold above 1 makes every config its own cluster. */
  lemma HighThresholdIsSingletons(n: Norms, cs: seq<Config>, t: real, ids: seq<int>)
    requires t > 1.0 && IsClustering(n, cs, t, ids)
    ensures |Elems(ids)| == |cs|
  {
    var edges := Links(n, cs, t);
    forall i, j | 0 <= i < |cs| && 0 <= j < |cs|
      ensures (i, j) !in edges
    {
      JaccardRange(Tokens(n, cs[i]), Tokens(n, cs[j]));
    }
    assert edges == {};
    var each := seq(|cs|, x => x);
    forall i, j | 0 <= i < |cs| && 0 <= j < |cs| && ids[i] == ids[j]
      ensures i == j
    {
      NoEdgesNoChains(|cs|, i, j);
    }
    FinerHasMore(each, ids);
    FinerHasMore(ids, each);
    EachSize(|cs|);
  }

  lemma NoEdgesNoChains(n: nat, i: int, j: int)
    requires Connected({}, n, i, j)
    ensures i == j
  {
    var path :| Joins({}, n, path, i, j);
    ChainKeepsName({}, n, path, seq(n, x => x));
  }

  lemma {:induction false} EachSize(n: nat)
    ensures |Elems(seq(n, x => x))| == n
  {
    if n > 0 {
      EachSize(n - 1);
      var each, less := seq(n, (x: int) => x), seq(n - 1, (x: int) => x);
      assert each == less + [n - 1];
      ElemsSnoc(less, n - 1);
    }
  }

  /** `perm` lists the indices of `cs` in another order. */
  ghost predicate IsPermutation(perm: seq<int>) {
    && (forall k :: 0 <= k < |perm| ==> 0 <= perm[k] < |perm|)
    && forall x :: 0 <= x < |perm| ==> x in perm
  }

  lemma PermutedConnected(n: Norms, cs: seq<Config>, cs': seq<Config>, perm: seq<int>, t: real, i: int, j: int)
    requires IsPermutation(perm) && |perm| == |cs| == |cs'|
    requires forall k :: 0 <= k < |perm| ==> cs'[k] == cs[perm[k]]
    requires Connected(Links(n, cs', t), |cs|, i, j)
    ensures 0 <= i < |cs| && 0 <= j < |cs| && Connected(Links(n, cs, t), |cs|, perm[i], perm[j])
  {
    forall x, y | (x, y) in Links(n, cs', t)
      ensures (perm[x], perm[y]) in Links(n, cs, t)
    {
    }
    MappedConnected(Links(n, cs', t), Links(n, cs, t), perm, i, j);
  }

  lemma MappedConnected(from: Edges, to: Edges, at: seq<int>, i: int, j: int)
    requires forall k :: 0 <= k < |at| ==> 0 <= at[k] < |at|
    requires forall x, y :: (x, y) in from ==> 0 <= x < |at| && 0 <= y < |at| && (at[x], at[y]) in to
    requires Connected(from, |at|, i, j)
    ensures 0 <= i < |at| && 0 <= j < |at| && Connected(to, |at|, at[i], at[j])
  {
    var path :| Joins(from, |at|, path, i, j);
    var mapped := seq(|path|, k requires 0 <= k < |path| => at[path[k]]);
    assert Joins(to, |at|, mapped, at[i], at[j]);
  }

  lemma ReindexedElems(ids: seq<int>, perm: seq<int>, moved: seq<int>)
    requires IsPermutation(perm) && |perm| == |ids| == |moved| && forall k :: 0 <= k < |perm| ==> moved[k] == ids[perm[k]]
    ensures Elems(moved) == Elems(ids)
  {
    forall k | 0 <= k < |ids|
      ensures ids[k] in moved
    {
      assert k in perm;
      var j :| 0 <= j < |perm| && perm[j] == k;
      assert moved[j] == ids[k];
    }
  }

  /** Reordering the configs leaves the number of clusters alone. */
  lemma ClusterCountIgnoresOrder(n: Norms, cs: seq<Config>, cs': seq<Config>, perm: seq<int>, t: real,
                                 ids: seq<int>, ids': seq<int>)
    requires IsPermutation(perm) && |perm| == |cs| == |cs'|
    requires forall k :: 0 <= k < |perm| ==> cs'[k] == cs[perm[k]]
    requires IsClustering(n, cs, t, ids) && IsClustering(n, cs', t, ids')
    ensures |Elems(ids)| == |Elems(ids')|
    ensures forall i, j :: 0 <= i < |cs| && 0 <= j < |cs| ==>
              (ids'[i] == ids'[j] <==> ids[perm[i]] == ids[perm[j]])
  {
    PermutedNames(n, cs, cs', perm, t, ids, ids');
    PermutedNamesBack(n, cs, cs', perm, t, ids, ids');
    var moved := seq(|cs|, k requires 0 <= k < |cs| => ids[perm[k]]);
    ReindexedElems(ids, perm, moved);
    FinerHasMore(moved, ids');
    FinerHasMore(ids', moved);
  }

  lemma PermutedNamesBack(n: Norms, cs: seq<Config>, cs': seq<Config>, perm: seq<int>, t: real,
                          ids: seq<int>, ids': seq<int>)
    requires IsPermutation(perm) && |perm| == |cs| == |cs'|
    requires forall k :: 0 <= k < |perm| ==> cs'[k] == cs[perm[k]]
    requires IsClustering(n, cs, t, ids) && IsClustering(n, cs', t, ids')
    ensures forall i, j :: 0 <= i < |cs| && 0 <= j < |cs| && ids[perm[i]] == ids[perm[j]] ==> ids'[i] == ids'[j]
  {
    var back := Inverse(perm);
    PermutedNames(n, cs', cs, back, t, ids', ids);
    forall i, j | 0 <= i < |cs| && 0 <= j < |cs| && ids[perm[i]] == ids[perm[j]]
      ensures ids'[i] == ids'[j]
    {
      assert back[perm[i]] == i && back[perm[j]] == j;
    }
  }

  lemma PermutedNames(n: Norms, cs: seq<Config>, cs': seq<Config>, perm: seq<int>, t: real,
                      ids: seq<int>, ids': seq<int>)
    requires IsPermutation(perm) && |perm| == |cs| == |cs'|
    requires forall k :: 0 <= k < |perm| ==> cs'[k] == cs[perm[k]]
    requires IsClustering(n, cs, t, ids) && IsClustering(n, cs', t, ids')
    ensures forall i, j :: 0 <= i < |cs| && 0 <= j < |cs| && ids'[i] == ids'[j] ==> ids[perm[i]] == ids[perm[j]]
  {
    forall i, j | 0 <= i < |cs| && 0 <= j < |cs| && ids'[i] == ids'[j]
      ensures ids[perm[i]] == ids[perm[j]]
    {
      PermutedConnected(n, cs, cs', perm, t, i, j);
    }
  }

  /** The permutation that undoes `perm`. */
  ghost function Inverse(perm: seq<int>): (back: seq<int>)
    requires IsPermutation(perm)
    ensures IsPermutation(back) && |back| == |perm|
    ensures forall k :: 0 <= k < |perm| ==> perm[back[k]] == k && back[perm[k]] == k
  {
    var back := seq(|perm|, x requires 0 <= x < |perm| => IndexOf(perm, x));
    PermutationIsInjective(perm);
    assert forall x :: 0 <= x < |perm| ==> back[perm[x]] == x by {
      forall x | 0 <= x < |perm|
        ensures back[perm[x]] == x
      {
        assert perm[back[perm[x]]] == perm[x];
      }
    }
    assert forall x :: 0 <= x < |perm| ==> x in back by {
      forall x | 0 <= x < |perm|
        ensures x in back
      {
        assert back[perm[x]] == x;
      }
    }
    back
  }

  ghost function IndexOf(s: seq<int>, x: int): (i: int)
    requires x in s
    ensures 0 <= i < |s| && s[i] == x
  {
    var i :| 0 <= i < |s| && s[i] == x;
    i
  }

  lemma PermutationIsInjective(perm: seq<int>)
    requires IsPermutation(perm)
    ensures forall i, j :: 0 <= i < |perm| && 0 <= j < |perm| && perm[i] == perm[j] ==> i == j
  {
    EachSize(|perm|);
    var each := seq(|perm|, (x: int) => x);
    forall x | x in each
      ensures x in perm
    {
      var k :| 0 <= k < |each| && each[k] == x;
    }
    forall x | x in perm
      ensures x in each
    {
      assert each[x] == x;
    }
    assert Elems(perm) == Elems(each);
    FullSetIsDistinct(perm);
  }
}
