/** Union-find over two arrays: path halving and union by rank. */
module UnionFinds {
  import opened Prelude

  /** An upper bound on the ranks, for termination. */
  ghost function Bound(rk: seq<int>): (b: int)
    ensures forall i :: 0 <= i < |rk| ==> rk[i] <= b
  {
    if rk == [] then 0 else
      var b := Bound(rk[1..]);
      assert forall i :: 1 <= i < |rk| ==> rk[i] == rk[1..][i - 1];
      if rk[0] > b then rk[0] else b
  }

  /** Parents stay in range and ranks strictly increase along parent edges. */
  ghost predicate Forest(p: seq<int>, rk: seq<int>) {
    && |p| == |rk|
    && (forall i :: 0 <= i < |p| ==> 0 <= p[i] < |p| && 0 <= rk[i])
    && (forall i :: 0 <= i < |p| && p[i] != i ==> rk[i] < rk[p[i]])
  }

  /** The representative of `x`: where following parents ends. */
  ghost function Root(p: seq<int>, rk: seq<int>, x: int): (r: int)
    requires Forest(p, rk) && 0 <= x < |p|
    ensures 0 <= r < |p| && p[r] == r && rk[x] <= rk[r]
    decreases Bound(rk) - rk[x]
  {
    if p[x] == x then x else Root(p, rk, p[x])
  }

  /** The representative of every element: the partition a forest stands for. */
  ghost function Roots(p: seq<int>, rk: seq<int>): (r: seq<int>)
    requires Forest(p, rk)
    ensures |r| == |p|
    ensures forall x :: 0 <= x < |p| ==> r[x] == Root(p, rk, x)
  {
    seq(|p|, x requires 0 <= x < |p| => Root(p, rk, x))
  }

  ghost function Class(p: seq<int>, rk: seq<int>, r: int): set<int>
    requires Forest(p, rk)
  {
    set y | 0 <= y < |p| && Root(p, rk, y) == r
  }

  function Pow2(n: nat): (r: nat)
    ensures r > 0
  {
    if n == 0 then 1 else 2 * Pow2(n - 1)
  }

  /** Every root of rank k represents at least 2^k elements. */
  ghost predicate Balanced(p: seq<int>, rk: seq<int>)
    requires Forest(p, rk)
  {
    forall r :: 0 <= r < |p| && p[r] == r ==> Pow2(rk[r]) <= |Class(p, rk, r)|
  }

  lemma {:induction false} HalvingKeepsRoot(p: seq<int>, rk: seq<int>, x: int, y: int)
    requires Forest(p, rk) && 0 <= x < |p| && 0 <= y < |p| && p[x] != x
    ensures Forest(p[x := p[p[x]]], rk)
    ensures Root(p[x := p[p[x]]], rk, y) == Root(p, rk, y)
    decreases Bound(rk) - rk[y]
  {
    var p' := p[x := p[p[x]]];
    assert rk[x] < rk[p[x]] <= rk[p[p[x]]];
    if y == x {
      HalvingKeepsRoot(p, rk, x, p[p[x]]);
    } else if p[y] != y {
      HalvingKeepsRoot(p, rk, x, p[y]);
    }
  }

  /** Path halving changes no element's representative. */
  lemma HalvingKeepsRoots(p: seq<int>, rk: seq<int>, x: int)
    requires Forest(p, rk) && 0 <= x < |p| && p[x] != x
    ensures Forest(p[x := p[p[x]]], rk)
    ensures Roots(p[x := p[p[x]]], rk) == Roots(p, rk)
  {
    forall y | 0 <= y < |p|
      ensures Forest(p[x := p[p[x]]], rk)
      ensures Root(p[x := p[p[x]]], rk, y) == Root(p, rk, y)
    {
      HalvingKeepsRoot(p, rk, x, y);
    }
  }

  /** One round of `find`: halving at `z` and moving on loses nothing of the forest `p0`. */
  lemma HalvingStep(p0: seq<int>, p: seq<int>, rk: seq<int>, z: int)
    requires Forest(p0, rk) && Forest(p, rk) && |p| == |p0| && 0 <= z < |p| && p[z] != z && Roots(p, rk) == Roots(p0, rk)
    ensures 0 <= p[p[z]] < |p| && rk[z] < rk[p[p[z]]]
    ensures Forest(p[z := p[p[z]]], rk) && Roots(p[z := p[p[z]]], rk) == Roots(p0, rk)
    ensures Root(p0, rk, p[p[z]]) == Root(p0, rk, z)
  {
    HalvingKeepsRoots(p, rk, z);
    var up := p[p[z]];
    assert Root(p, rk, up) == Root(p, rk, z);
    assert Root(p0, rk, z) == Roots(p0, rk)[z] == Roots(p, rk)[z];
    assert Root(p0, rk, up) == Roots(p0, rk)[up] == Roots(p, rk)[up];
  }

  /** Hanging the root `child` under the root `top` moves exactly `child`'s class. */
  lemma {:induction false} LinkMovesClass(p: seq<int>, rk: seq<int>, rk': seq<int>, child: int, top: int, y: int)
    requires Forest(p, rk) && 0 <= child < |p| && 0 <= top < |p| && 0 <= y < |p|
    requires p[child] == child && p[top] == top && child != top
    requires Forest(p[child := top], rk')
    ensures Root(p[child := top], rk', y) == if Root(p, rk, y) == child then top else Root(p, rk, y)
    decreases Bound(rk) - rk[y]
  {
    if y != child && p[y] != y {
      LinkMovesClass(p, rk, rk', child, top, p[y]);
    }
  }

  /** Union by rank: the loser's rank is lower, or equal and the winner's grows by one. */
  ghost predicate RankRule(rk: seq<int>, rk': seq<int>, child: int, top: int)
    requires 0 <= child < |rk| && 0 <= top < |rk|
  {
    || (rk' == rk && rk[child] < rk[top])
    || (rk' == rk[top := rk[top] + 1] && rk[child] == rk[top])
  }

  /** The partition `reps` with the classes of `ra` and `rb` merged under `top`. */
  ghost function Merged(reps: seq<int>, ra: int, rb: int, top: int): (r: seq<int>)
    ensures |r| == |reps|
  {
    seq(|reps|, y requires 0 <= y < |reps| => if reps[y] == ra || reps[y] == rb then top else reps[y])
  }

  lemma RootIsFixed(p: seq<int>, rk: seq<int>, y: int)
    requires Forest(p, rk) && 0 <= y < |p|
    ensures p[y] == y <==> Roots(p, rk)[y] == y
  {
  }

  lemma MergedWithItself(reps: seq<int>, r: int)
    ensures Merged(reps, r, r, r) == reps
  {
  }

  /** The outcome of linking two roots, for every element at once. */
  lemma LinkMoves(p: seq<int>, rk: seq<int>, rk': seq<int>, child: int, top: int)
    requires Forest(p, rk) && 0 <= child < |p| && 0 <= top < |p|
    requires p[child] == child && p[top] == top && child != top && RankRule(rk, rk', child, top)
    ensures Forest(p[child := top], rk')
    ensures Roots(p[child := top], rk') == Merged(Roots(p, rk), child, top, top)
  {
    forall y | 0 <= y < |p|
      ensures Root(p[child := top], rk', y) == if Root(p, rk, y) == child then top else Root(p, rk, y)
    {
      LinkMovesClass(p, rk, rk', child, top, y);
    }
  }

  lemma LinkedClass(p: seq<int>, rk: seq<int>, rk': seq<int>, child: int, top: int, r: int)
    requires Forest(p, rk) && 0 <= child < |p| && 0 <= top < |p| && 0 <= r < |p|
    requires p[child] == child && p[top] == top && child != top && RankRule(rk, rk', child, top) && r != child
    ensures Forest(p[child := top], rk')
    ensures Class(p[child := top], rk', r) ==
            if r == top then Class(p, rk, top) + Class(p, rk, child) else Class(p, rk, r)
  {
    LinkMoves(p, rk, rk', child, top);
    var p' := p[child := top];
    assert forall y :: 0 <= y < |p| ==> Root(p', rk', y) == Roots(p', rk')[y];
  }

  lemma LinkedRootIsBalanced(p: seq<int>, rk: seq<int>, rk': seq<int>, child: int, top: int, r: int)
    requires Forest(p, rk) && 0 <= child < |p| && 0 <= top < |p|
    requires p[child] == child && p[top] == top && child != top && RankRule(rk, rk', child, top)
    requires 0 <= r < |p| && r != child && p[r] == r
    requires Pow2(rk[r]) <= |Class(p, rk, r)| && Pow2(rk[child]) <= |Class(p, rk, child)|
    ensures Forest(p[child := top], rk')
    ensures Pow2(rk'[r]) <= |Class(p[child := top], rk', r)|
  {
    LinkedClass(p, rk, rk', child, top, r);
    if r == top {
      JoinedIsBalanced(Class(p, rk, top), Class(p, rk, child), rk[top], rk[child], rk'[top]);
    }
  }

  lemma JoinedIsBalanced(a: set<int>, b: set<int>, ra: nat, rb: nat, joined: nat)
    requires a !! b && Pow2(ra) <= |a| && Pow2(rb) <= |b|
    requires joined == ra || (joined == ra + 1 && rb == ra)
    ensures Pow2(joined) <= |a + b|
  {
    assert |a + b| == |a| + |b|;
  }

  lemma LinkKeepsBalanced(p: seq<int>, rk: seq<int>, rk': seq<int>, child: int, top: int)
    requires Forest(p, rk) && Balanced(p, rk) && 0 <= child < |p| && 0 <= top < |p|
    requires p[child] == child && p[top] == top && child != top && RankRule(rk, rk', child, top)
    ensures Forest(p[child := top], rk') && Balanced(p[child := top], rk')
  {
    LinkMoves(p, rk, rk', child, top);
    var p' := p[child := top];
    forall r | 0 <= r < |p'| && p'[r] == r
      ensures Pow2(rk'[r]) <= |Class(p', rk', r)|
    {
      LinkedRootIsBalanced(p, rk, rk', child, top, r);
    }
  }

  lemma {:induction false} RangeSize(s: set<int>, n: nat)
    requires forall y :: y in s ==> 0 <= y < n
    ensures |s| <= n
  {
    if n == 0 {
      assert forall y :: y !in s;
      assert s == {};
    } else {
      RangeSize(s - {n - 1}, n - 1);
      assert |s| <= |s - {n - 1}| + 1;
    }
  }

  class UnionFind {
    const parent: array<int>
    const rank: array<int>

    ghost predicate Valid()
      reads parent, rank
    {
      && parent != rank
      && Forest(parent[..], rank[..])
      && Balanced(parent[..], rank[..])
    }

    /** The partition this object stands for. */
    ghost function Reps(): (r: seq<int>)
      requires Valid()
      reads parent, rank
      ensures |r| == parent.Length
    {
      Roots(parent[..], rank[..])
    }

    constructor (n: nat)
      ensures Valid() && parent.Length == n && fresh(parent) && fresh(rank)
      ensures Reps() == seq(n, x => x)
    {
      parent := new int[n](i => i);
      rank := new int[n](i => 0);
      new;
      assert Forest(parent[..], rank[..]);
      forall r | 0 <= r < n
        ensures Pow2(rank[..][r]) <= |Class(parent[..], rank[..], r)|
      {
        assert Root(parent[..], rank[..], r) == r;
        assert r in Class(parent[..], rank[..], r);
      }
    }

    method Find(x: int) returns (r: int)
      requires Valid() && 0 <= x < parent.Length
      modifies parent
      ensures Valid() && rank[..] == old(rank[..])
      ensures r == old(Reps()[x]) && 0 <= r < parent.Length && parent[r] == r
      ensures Reps() == old(Reps())
    {
      ghost var p0, rk := parent[..], rank[..];
      var z := x;
      while parent[z] != z
        invariant 0 <= z < parent.Length && rank[..] == rk
        invariant Forest(parent[..], rk)
        invariant Roots(parent[..], rk) == Roots(p0, rk)
        invariant Root(p0, rk, z) == Root(p0, rk, x)
        decreases Bound(rk) - rk[z]
      {
        ghost var p := parent[..];
        HalvingStep(p0, p, rk, z);
        parent[z] := parent[parent[z]];
        assert parent[..] == p[z := p[p[z]]];
        z := parent[z];
      }
      r := z;
      SameRootsSameBalance(p0, parent[..], rk);
    }

    /** Merges the classes of `a` and `b`, whose joint representative is `top`, and no others. */
    method Union(a: int, b: int) returns (ghost top: int)
      requires Valid() && 0 <= a < parent.Length && 0 <= b < parent.Length
      modifies parent, rank
      ensures Valid()
      ensures top == old(Reps()[a]) || top == old(Reps()[b])
      ensures Reps() == Merged(old(Reps()), old(Reps()[a]), old(Reps()[b]), top)
    {
      ghost var names := Reps();
      var ra := Find(a);
      RootIsFixed(parent[..], rank[..], ra);
      var rb := Find(b);
      RootIsFixed(parent[..], rank[..], ra);
      top := ra;
      if ra == rb {
        MergedWithItself(names, ra);
        return;
      }
      top := Link(ra, rb);
    }

    /** The ranked link of two distinct roots. */
    method Link(ra: int, rb: int) returns (ghost top: int)
      requires Valid() && 0 <= ra < parent.Length && 0 <= rb < parent.Length
      requires parent[ra] == ra && parent[rb] == rb && ra != rb
      modifies parent, rank
      ensures Valid()
      ensures top == ra || top == rb
      ensures Reps() == Merged(old(Reps()), ra, rb, top)
    {
      ghost var p, rk := parent[..], rank[..];
      ghost var child;
      if rank[ra] < rank[rb] {
        parent[ra] := rb;
        child, top := ra, rb;
      } else {
        parent[rb] := ra;
        child, top := rb, ra;
        if rank[ra] == rank[rb] {
          rank[ra] := rank[ra] + 1;
        }
      }
      assert parent[..] == p[child := top];
      LinkKeepsBalanced(p, rk, rank[..], child, top);
      LinkMoves(p, rk, rank[..], child, top);
    }

    /** Ranks are logarithmic in the number of elements. */
    lemma RankIsLogarithmic(x: int)
      requires Valid() && 0 <= x < parent.Length
      ensures Pow2(rank[x]) <= parent.Length
    {
      var p, rk := parent[..], rank[..];
      var r := Root(p, rk, x);
      Pow2Monotone(rk[x], rk[r]);
      RangeSize(Class(p, rk, r), |p|);
    }
  }

  lemma {:induction false} Pow2Monotone(m: nat, n: nat)
    requires m <= n
    ensures Pow2(m) <= Pow2(n)
  {
    if m < n {
      Pow2Monotone(m, n - 1);
    }
  }

  lemma SameRootsSameBalance(p: seq<int>, p': seq<int>, rk: seq<int>)
    requires Forest(p, rk) && Forest(p', rk) && Balanced(p, rk) && |p| == |p'|
    requires Roots(p', rk) == Roots(p, rk)
    ensures Balanced(p', rk)
  {
    assert forall y :: 0 <= y < |p| ==> Roots(p', rk)[y] == Root(p', rk, y);
    forall r | 0 <= r < |p'| && p'[r] == r
      ensures Pow2(rk[r]) <= |Class(p', rk, r)|
    {
      assert Root(p', rk, r) == r;
      assert Class(p', rk, r) == Class(p, rk, r);
    }
  }
}
