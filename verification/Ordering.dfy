/** Sorting with an unstable sort: a slice may come out as any sorted permutation. */
module Ordering {
  import opened Prelude

  /** A comparator fit for sorting. */
  ghost predicate StrictWeak<T(!new)>(less: (T, T) -> bool) {
    && (forall a, b :: less(a, b) ==> !less(b, a))
    && (forall a, b, c :: less(a, c) ==> less(a, b) || less(b, c))
  }

  ghost predicate Sorted<T>(s: seq<T>, less: (T, T) -> bool) {
    forall i, j :: 0 <= i < j < |s| ==> !less(s[j], s[i])
  }

  /** `out` is what sorting `s` may leave: nothing is said about ties. */
  ghost predicate IsSortOf<T>(out: seq<T>, s: seq<T>, less: (T, T) -> bool) {
    multiset(out) == multiset(s) && Sorted(out, less)
  }

  ghost predicate Tied<T>(a: T, b: T, less: (T, T) -> bool) {
    !less(a, b) && !less(b, a)
  }

  /** Elements that tie are equal. */
  ghost predicate TiesCollapse<T>(s: seq<T>, less: (T, T) -> bool) {
    forall x, y :: x in s && y in s && Tied(x, y, less) ==> x == y
  }

  function Insert<T>(x: T, s: seq<T>, less: (T, T) -> bool): seq<T> {
    if s == [] || !less(s[0], x) then [x] + s else [s[0]] + Insert(x, s[1..], less)
  }

  /** One sorted permutation, as a function. */
  function Sort<T>(s: seq<T>, less: (T, T) -> bool): seq<T> {
    if s == [] then [] else Insert(s[0], Sort(s[1..], less), less)
  }

  lemma {:induction false} InsertBag<T>(x: T, s: seq<T>, less: (T, T) -> bool)
    ensures multiset(Insert(x, s, less)) == multiset{x} + multiset(s)
  {
    if !(s == [] || !less(s[0], x)) {
      InsertBag(x, s[1..], less);
      assert s == [s[0]] + s[1..];
    }
  }

  lemma {:induction false} InsertSorted<T(!new)>(x: T, s: seq<T>, less: (T, T) -> bool)
    requires StrictWeak(less) && Sorted(s, less)
    ensures Sorted(Insert(x, s, less), less)
  {
    var out := Insert(x, s, less);
    if s == [] || !less(s[0], x) {
      forall j | 1 <= j < |out|
        ensures !less(out[j], x)
      {
        assert j > 1 ==> !less(s[j - 1], s[0]);
      }
    } else {
      InsertSorted(x, s[1..], less);
      InsertBag(x, s[1..], less);
      var rest := Insert(x, s[1..], less);
      forall j | 0 <= j < |rest|
        ensures !less(rest[j], s[0])
      {
        assert rest[j] in multiset(rest);
        if rest[j] != x {
          assert rest[j] in s[1..];
        }
      }
    }
  }

  lemma {:induction false} SortSorts<T(!new)>(s: seq<T>, less: (T, T) -> bool)
    requires StrictWeak(less)
    ensures IsSortOf(Sort(s, less), s, less)
  {
    if s != [] {
      SortSorts(s[1..], less);
      InsertBag(s[0], Sort(s[1..], less), less);
      InsertSorted(s[0], Sort(s[1..], less), less);
      assert s == [s[0]] + s[1..];
    }
  }

  /** The library sort. Callers see only its contract. */
  method SortSlice<T(!new)>(s: seq<T>, less: (T, T) -> bool) returns (out: seq<T>)
    requires StrictWeak(less)
    ensures IsSortOf(out, s, less)
  {
    out := Sort(s, less);
    SortSorts(s, less);
  }

  lemma SortedHeadsAgree<T>(a: seq<T>, b: seq<T>, less: (T, T) -> bool)
    requires Sorted(a, less) && Sorted(b, less) && multiset(a) == multiset(b) && TiesCollapse(a, less)
    requires a != [] && b != []
    ensures a[0] == b[0]
  {
    SameMembers(a, b);
    assert a[0] in a && b[0] in b;
    assert a[0] in b && b[0] in a;
    var i :| 0 <= i < |b| && b[i] == a[0];
    var j :| 0 <= j < |a| && a[j] == b[0];
    assert i > 0 ==> !less(b[i], b[0]);
    assert j > 0 ==> !less(a[j], a[0]);
    assert a[0] == b[0] || Tied(a[0], b[0], less);
  }

  lemma TailBag<T>(a: seq<T>)
    requires a != []
    ensures multiset(a[1..]) == multiset(a) - multiset{a[0]}
  {
    assert a == [a[0]] + a[1..];
  }

  /** Where ties collapse, all sorted permutations are one. */
  lemma {:induction false} SortIsUnique<T>(a: seq<T>, b: seq<T>, less: (T, T) -> bool)
    requires Sorted(a, less) && Sorted(b, less) && multiset(a) == multiset(b) && TiesCollapse(a, less)
    ensures a == b
  {
    SameMembers(a, b);
    if a != [] {
      SortedHeadsAgree(a, b, less);
      TailBag(a);
      TailBag(b);
      SortIsUnique(a[1..], b[1..], less);
      assert a == [a[0]] + a[1..] && b == [b[0]] + b[1..];
    }
  }

  /** Elements tie without being equal exactly when sorting has more than one outcome. */
  lemma UniqueIffTiesCollapse<T(!new)>(s: seq<T>, less: (T, T) -> bool)
    requires StrictWeak(less)
    ensures TiesCollapse(s, less) <==> forall a, b :: IsSortOf(a, s, less) && IsSortOf(b, s, less) ==> a == b
  {
    if TiesCollapse(s, less) {
      forall a, b | IsSortOf(a, s, less) && IsSortOf(b, s, less)
        ensures a == b
      {
        SameMembers(a, s);
        SortIsUnique(a, b, less);
      }
    } else {
      var x, y :| x in s && y in s && Tied(x, y, less) && x != y;
      SortSorts(s, less);
      var a := Sort(s, less);
      SameMembers(a, s);
      var b := SwapTied(a, less, x, y);
      assert IsSortOf(b, s, less);
    }
  }

  lemma SameMembers<T>(a: seq<T>, b: seq<T>)
    requires multiset(a) == multiset(b)
    ensures forall x :: x in a <==> x in b
    ensures |a| == |b|
  {
    assert forall x :: x in a <==> x in multiset(a);
    assert forall x :: x in b <==> x in multiset(b);
    assert |a| == |multiset(a)| == |multiset(b)| == |b|;
  }

  /** Exchanging two tied elements of a sorted slice leaves it sorted. */
  lemma SwapTied<T(!new)>(a: seq<T>, less: (T, T) -> bool, x: T, y: T) returns (b: seq<T>)
    requires StrictWeak(less) && Sorted(a, less) && x in a && y in a && Tied(x, y, less) && x != y
    ensures multiset(b) == multiset(a) && Sorted(b, less) && b != a
  {
    var i :| 0 <= i < |a| && a[i] == x;
    var j :| 0 <= j < |a| && a[j] == y;
    b := a[i := y][j := x];
    SwapBag(a, i, j);
    forall p, q | 0 <= p < q < |b|
      ensures !less(b[q], b[p])
    {
      TiedKeepsOrder(a[p], b[p], a[q], b[q], less);
    }
  }

  lemma TiedKeepsOrder<T(!new)>(p: T, p': T, q: T, q': T, less: (T, T) -> bool)
    requires StrictWeak(less) && !less(q, p) && Tied(p, p', less) && Tied(q, q', less)
    ensures !less(q', p')
  {
    assert less(q', p') ==> less(q', p) || less(p, p');
    assert less(q', p) ==> less(q', q) || less(q, p);
  }

  lemma SwapBag<T>(a: seq<T>, i: int, j: int)
    requires 0 <= i < |a| && 0 <= j < |a|
    ensures multiset(a[i := a[j]][j := a[i]]) == multiset(a)
  {
  }

  // ---- strings --------------------------------------------------------------

  /** Lexicographic order, as Go compares strings. */
  predicate LexLess(a: string, b: string) {
    b != [] && (a == [] || a[0] < b[0] || (a[0] == b[0] && LexLess(a[1..], b[1..])))
  }

  lemma {:induction false} LexTotal(a: string, b: string)
    ensures LexLess(a, b) ==> !LexLess(b, a)
    ensures !LexLess(a, b) && !LexLess(b, a) <==> a == b
  {
    if a != [] && b != [] && a[0] == b[0] {
      LexTotal(a[1..], b[1..]);
      assert a == [a[0]] + a[1..] && b == [b[0]] + b[1..];
    }
  }

  lemma {:induction false} LexNegTransitive(a: string, b: string, c: string)
    ensures LexLess(a, c) ==> LexLess(a, b) || LexLess(b, c)
  {
    if a != [] && b != [] && c != [] && a[0] == c[0] == b[0] {
      LexNegTransitive(a[1..], b[1..], c[1..]);
    }
  }

  lemma LexIsStrictWeak()
    ensures StrictWeak(LexLess)
  {
    forall a, b
      ensures LexLess(a, b) ==> !LexLess(b, a)
    {
      LexTotal(a, b);
    }
    forall a, b, c
      ensures LexLess(a, c) ==> LexLess(a, b) || LexLess(b, c)
    {
      LexNegTransitive(a, b, c);
    }
  }

  lemma StringTiesCollapse(s: seq<string>)
    ensures TiesCollapse(s, LexLess)
  {
    forall x, y | x in s && y in s && Tied(x, y, LexLess)
      ensures x == y
    {
      LexTotal(x, y);
    }
  }

  /** Where ties collapse, whatever the sort does equals the sort function. */
  lemma SortIs<T(!new)>(out: seq<T>, s: seq<T>, less: (T, T) -> bool)
    requires StrictWeak(less) && IsSortOf(out, s, less) && TiesCollapse(s, less)
    ensures out == Sort(s, less)
  {
    SortSorts(s, less);
    SameMembers(out, s);
    SortIsUnique(out, Sort(s, less), less);
  }

  /** Strings sort to one slice, whatever the sort does. */
  lemma StringSortIsUnique(out: seq<string>, s: seq<string>)
    requires IsSortOf(out, s, LexLess)
    ensures out == Sort(s, LexLess)
  {
    LexIsStrictWeak();
    StringTiesCollapse(s);
    SortIs(out, s, LexLess);
  }

  /** Sorting forgets order. */
  lemma SortDependsOnBag<T(!new)>(a: seq<T>, b: seq<T>, less: (T, T) -> bool)
    requires StrictWeak(less) && multiset(a) == multiset(b) && TiesCollapse(a, less)
    ensures Sort(a, less) == Sort(b, less)
  {
    SortSorts(a, less);
    SortSorts(b, less);
    SameMembers(Sort(a, less), a);
    SortIsUnique(Sort(a, less), Sort(b, less), less);
  }

  // ---- bags through a map -------------------------------------------------------

  lemma MapAppend<T, U>(f: T -> U, a: seq<T>, b: seq<T>)
    ensures Map(f, a + b) == Map(f, a) + Map(f, b)
  {
  }

  function Without<T>(s: seq<T>, k: nat): seq<T>
    requires k < |s|
  {
    s[..k] + s[k + 1..]
  }

  lemma MapWithout<T, U>(f: T -> U, s: seq<T>, k: nat)
    requires k < |s|
    ensures multiset(Map(f, s)) == multiset(Map(f, Without(s, k))) + multiset{f(s[k])}
  {
    MapAppend(f, s[..k], s[k + 1..]);
    assert Map(f, s) == Map(f, s[..k]) + [f(s[k])] + Map(f, s[k + 1..]);
  }

  lemma BagWithout<T>(s: seq<T>, k: nat)
    requires k < |s|
    ensures multiset(s) == multiset(Without(s, k)) + multiset{s[k]}
    ensures |Without(s, k)| == |s| - 1
  {
    assert s == s[..k] + [s[k]] + s[k + 1..];
  }

  lemma CommonElement<T>(a: seq<T>, b: seq<T>) returns (k: nat)
    requires multiset(a) == multiset(b) && a != []
    ensures k < |b| && b[k] == a[0] && multiset(Without(a, 0)) == multiset(Without(b, k))
  {
    SameMembers(a, b);
    assert a[0] in b;
    k :| k < |b| && b[k] == a[0];
    BagWithout(a, 0);
    BagWithout(b, k);
    assert multiset(Without(a, 0)) == multiset(a) - multiset{a[0]} == multiset(Without(b, k));
  }

  lemma {:induction false} MapBag<T, U>(f: T -> U, a: seq<T>, b: seq<T>)
    requires multiset(a) == multiset(b)
    ensures multiset(Map(f, a)) == multiset(Map(f, b))
    decreases |a|
  {
    if a == [] {
      SameMembers(a, b);
    } else {
      var k := CommonElement(a, b);
      BagWithout(a, 0);
      MapBag(f, Without(a, 0), Without(b, k));
      MapWithout(f, a, 0);
      MapWithout(f, b, k);
    }
  }

  lemma InMap<T, U>(f: T -> U, s: seq<T>, x: T)
    requires x in s
    ensures f(x) in Map(f, s)
  {
    var i :| 0 <= i < |s| && s[i] == x;
    assert Map(f, s)[i] == f(x);
  }

  function Firsts<T, U>(zs: seq<(T, U)>): (r: seq<T>)
    ensures |r| == |zs| && forall i :: 0 <= i < |zs| ==> r[i] == zs[i].0
  {
    Map((z: (T, U)) => z.0, zs)
  }

  function Seconds<T, U>(zs: seq<(T, U)>): (r: seq<U>)
    ensures |r| == |zs| && forall i :: 0 <= i < |zs| ==> r[i] == zs[i].1
  {
    Map((z: (T, U)) => z.1, zs)
  }

  function Zip<T, U>(a: seq<T>, b: seq<U>): (zs: seq<(T, U)>)
    requires |a| == |b|
    ensures |zs| == |a| && forall i :: 0 <= i < |a| ==> zs[i] == (a[i], b[i])
  {
    seq(|a|, i requires 0 <= i < |a| => (a[i], b[i]))
  }

  /** The pair that belongs first, and the others. */
  lemma FirstPair<T, U>(zs: seq<(T, U)>, order: seq<U>) returns (k: nat)
    requires multiset(Seconds(zs)) == multiset(order) && order != []
    ensures k < |zs| && zs[k].1 == order[0]
    ensures multiset(Seconds(Without(zs, k))) == multiset(order[1..])
  {
    k := CommonElement(order, Seconds(zs));
    assert Without(Seconds(zs), k) == Seconds(Without(zs, k));
    assert Without(order, 0) == order[1..];
  }

  lemma SecondsPrepend<T, U>(z: (T, U), rest: seq<(T, U)>)
    ensures Seconds([z] + rest) == [z.1] + Seconds(rest)
  {
  }

  lemma PrependedPairs<T, U>(zs: seq<(T, U)>, order: seq<U>, k: nat, rest: seq<(T, U)>)
    requires order != [] && k < |zs| && zs[k].1 == order[0]
    requires multiset(rest) == multiset(Without(zs, k)) && Seconds(rest) == order[1..]
    ensures multiset([zs[k]] + rest) == multiset(zs) && Seconds([zs[k]] + rest) == order
  {
    BagWithout(zs, k);
    SecondsPrepend(zs[k], rest);
    assert [order[0]] + order[1..] == order;
  }

  /** Pairs can be listed so that their second parts come in any given order. */
  lemma {:induction false} Realign<T, U>(zs: seq<(T, U)>, order: seq<U>) returns (out: seq<(T, U)>)
    requires multiset(Seconds(zs)) == multiset(order)
    ensures multiset(out) == multiset(zs) && Seconds(out) == order
    decreases |order|
  {
    if order == [] {
      SameMembers(Seconds(zs), order);
      out := [];
    } else {
      var k := FirstPair(zs, order);
      var rest := Realign(Without(zs, k), order[1..]);
      PrependedPairs(zs, order, k, rest);
      out := [zs[k]] + rest;
    }
  }

  lemma FirstsBag<T, U>(a: seq<(T, U)>, b: seq<(T, U)>)
    requires multiset(a) == multiset(b)
    ensures multiset(Firsts(a)) == multiset(Firsts(b))
  {
    MapBag((z: (T, U)) => z.0, a, b);
  }

  /** Where images agree as bags, one list can be put in the order of the other's images. */
  lemma BagMatch<S, T, U>(f: S -> U, a: seq<S>, g: T -> U, b: seq<T>) returns (c: seq<T>)
    requires multiset(Map(f, a)) == multiset(Map(g, b))
    ensures multiset(c) == multiset(b) && |c| == |a| && forall i :: 0 <= i < |a| ==> g(c[i]) == f(a[i])
  {
    var zs := Zip(b, Map(g, b));
    assert Seconds(zs) == Map(g, b) && Firsts(zs) == b;
    var out := Realign(zs, Map(f, a));
    FirstsBag(out, zs);
    c := Firsts(out);
    assert |out| == |Seconds(out)| == |a|;
    forall i | 0 <= i < |a|
      ensures g(c[i]) == f(a[i])
    {
      SameMembers(out, zs);
      assert out[i] in zs && out[i].1 == Seconds(out)[i];
    }
  }
}
