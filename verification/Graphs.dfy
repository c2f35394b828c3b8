/** Chains and connectivity over a finite set of edges between 0..n-1. */
module Graphs {
  import opened Prelude

  type Edges = set<(int, int)>

  ghost predicate Symmetric(edges: Edges) {
    forall u, v :: (u, v) in edges ==> (v, u) in edges
  }

  ghost predicate IsChain(edges: Edges, n: nat, path: seq<int>) {
    && path != []
    && (forall k :: 0 <= k < |path| ==> 0 <= path[k] < n)
    && forall k :: 0 <= k < |path| - 1 ==> (path[k], path[k + 1]) in edges
  }

  ghost predicate Joins(edges: Edges, n: nat, path: seq<int>, i: int, j: int) {
    IsChain(edges, n, path) && path[0] == i && path[|path| - 1] == j
  }

  ghost predicate Connected(edges: Edges, n: nat, i: int, j: int) {
    exists path: seq<int> :: Joins(edges, n, path, i, j)
  }

  lemma ConnectedReflexive(edges: Edges, n: nat, i: int)
    requires 0 <= i < n
    ensures Connected(edges, n, i, i)
  {
    assert Joins(edges, n, [i], i, i);
  }

  lemma EdgeConnects(edges: Edges, n: nat, i: int, j: int)
    requires (i, j) in edges && 0 <= i < n && 0 <= j < n
    ensures Connected(edges, n, i, j)
  {
    assert Joins(edges, n, [i, j], i, j);
  }

  lemma ConnectedTransitive(edges: Edges, n: nat, i: int, j: int, k: int)
    requires Connected(edges, n, i, j) && Connected(edges, n, j, k)
    ensures Connected(edges, n, i, k)
  {
    var p :| Joins(edges, n, p, i, j);
    var q :| Joins(edges, n, q, j, k);
    var path := p + q[1..];
    forall m | 0 <= m < |path| - 1
      ensures (path[m], path[m + 1]) in edges
    {
      if m >= |p| - 1 {
        assert path[m] == q[m - |p| + 1] && path[m + 1] == q[m - |p| + 2];
      }
    }
    assert Joins(edges, n, path, i, k);
  }

  lemma {:induction false} ReversedChain(edges: Edges, n: nat, path: seq<int>, i: int, j: int)
    requires Symmetric(edges) && Joins(edges, n, path, i, j)
    ensures Connected(edges, n, j, i)
    decreases |path|
  {
    if |path| == 1 {
      ConnectedReflexive(edges, n, i);
    } else {
      assert (path[0], path[1]) in edges;
      EdgeConnects(edges, n, path[1], path[0]);
      ReversedChain(edges, n, path[1..], path[1], j);
      ConnectedTransitive(edges, n, j, path[1], i);
    }
  }

  lemma ConnectedSymmetric(edges: Edges, n: nat, i: int, j: int)
    requires Symmetric(edges) && Connected(edges, n, i, j)
    ensures Connected(edges, n, j, i)
  {
    var p :| Joins(edges, n, p, i, j);
    ReversedChain(edges, n, p, i, j);
  }

  /** Names that agree along every edge agree along every chain. */
  lemma {:induction false} ChainKeepsName<T>(edges: Edges, n: nat, path: seq<int>, names: seq<T>)
    requires IsChain(edges, n, path) && |names| == n
    requires forall u, v :: (u, v) in edges && 0 <= u < n && 0 <= v < n ==> names[u] == names[v]
    ensures names[path[0]] == names[path[|path| - 1]]
    decreases |path|
  {
    if |path| > 1 {
      assert (path[0], path[1]) in edges;
      ChainKeepsName(edges, n, path[1..], names);
    }
  }

  /** More vertices and edges keep every connection. */
  lemma MoreEdgesConnectMore(edges: Edges, n: nat, more: Edges, m: nat, i: int, j: int)
    requires edges <= more && n <= m && Connected(edges, n, i, j)
    ensures Connected(more, m, i, j)
  {
    var p :| Joins(edges, n, p, i, j);
    assert Joins(more, m, p, i, j);
  }

  /** Two elements have the same name only if they are connected. */
  ghost predicate Sound<T>(edges: Edges, names: seq<T>) {
    forall u, v :: 0 <= u < |names| && 0 <= v < |names| && names[u] == names[v] ==>
      Connected(edges, |names|, u, v)
  }

  /** The names are exactly the connected components. */
  ghost predicate NamesComponents<T>(edges: Edges, names: seq<T>) {
    forall u, v :: 0 <= u < |names| && 0 <= v < |names| ==>
      (names[u] == names[v] <==> Connected(edges, |names|, u, v))
  }

  lemma SoundAndClosedIsComponents<T>(edges: Edges, names: seq<T>)
    requires Sound(edges, names)
    requires forall u, v :: (u, v) in edges && 0 <= u < |names| && 0 <= v < |names| ==> names[u] == names[v]
    ensures NamesComponents(edges, names)
  {
    forall u, v | 0 <= u < |names| && 0 <= v < |names| && Connected(edges, |names|, u, v)
      ensures names[u] == names[v]
    {
      var p :| Joins(edges, |names|, p, u, v);
      ChainKeepsName(edges, |names|, p, names);
    }
  }
}
