/** Python's `sorted(xs, key=..., reverse=True)` and JavaScript's stable
    `Array.prototype.sort` with a descending comparator, both over an integer rank:
    the result is ordered by descending rank, and elements of equal rank keep the
    relative order they had in the input (both sorts are stable). */
module Sorting {

  predicate SortedDesc<T>(xs: seq<T>, rank: T -> int) {
    forall i, j :: 0 <= i < j < |xs| ==> rank(xs[i]) >= rank(xs[j])
  }

  /** The elements of rank `k`, in their order in `xs`. */
  function WithRank<T>(xs: seq<T>, rank: T -> int, k: int): seq<T> {
    if xs == [] then []
    else (if rank(xs[0]) == k then [xs[0]] else []) + WithRank(xs[1..], rank, k)
  }

  /** Inserts `x` after every element whose rank is at least its own. */
  function Insert<T>(x: T, xs: seq<T>, rank: T -> int): (r: seq<T>)
    ensures |r| == |xs| + 1
  {
    if xs == [] then [x]
    else if rank(xs[0]) >= rank(x) then [xs[0]] + Insert(x, xs[1..], rank)
    else [x] + xs
  }

  /** Stable insertion sort, descending by rank. */
  function SortDesc<T>(xs: seq<T>, rank: T -> int): (r: seq<T>)
    ensures |r| == |xs|
  {
    if xs == [] then [] else Insert(xs[|xs| - 1], SortDesc(xs[..|xs| - 1], rank), rank)
  }

  lemma {:induction false} WithRankAppend<T>(a: seq<T>, b: seq<T>, rank: T -> int, k: int)
    ensures WithRank(a + b, rank, k) == WithRank(a, rank, k) + WithRank(b, rank, k)
    decreases |a|
  {
    if a == [] {
      assert a + b == b;
    } else {
      var ab := a + b;
      var h := if rank(a[0]) == k then [a[0]] else [];
      assert ab[0] == a[0] && ab[1..] == a[1..] + b;
      WithRankAppend(a[1..], b, rank, k);
      assert WithRank(ab, rank, k) == h + WithRank(a[1..] + b, rank, k);
      assert WithRank(a, rank, k) == h + WithRank(a[1..], rank, k);
    }
  }

  lemma {:induction false} WithRankNone<T>(xs: seq<T>, rank: T -> int, k: int)
    requires forall i :: 0 <= i < |xs| ==> rank(xs[i]) < k
    ensures WithRank(xs, rank, k) == []
    decreases |xs|
  {
    if xs != [] {
      WithRankNone(xs[1..], rank, k);
    }
  }

  lemma {:induction false} InsertSorted<T>(x: T, xs: seq<T>, rank: T -> int)
    requires SortedDesc(xs, rank)
    ensures SortedDesc(Insert(x, xs, rank), rank)
    decreases |xs|
  {
    if xs != [] && rank(xs[0]) >= rank(x) {
      var tail := xs[1..];
      InsertSorted(x, tail, rank);
      var r := Insert(x, tail, rank);
      assert r[0] == x || (tail != [] && r[0] == tail[0]);
      assert rank(xs[0]) >= rank(r[0]);
      assert Insert(x, xs, rank) == [xs[0]] + r;
    }
  }

  lemma {:induction false} InsertMultiset<T>(x: T, xs: seq<T>, rank: T -> int)
    ensures multiset(Insert(x, xs, rank)) == multiset(xs) + multiset{x}
    decreases |xs|
  {
    if xs != [] && rank(xs[0]) >= rank(x) {
      InsertMultiset(x, xs[1..], rank);
      assert xs == [xs[0]] + xs[1..];
    }
  }

  lemma SortedTail<T>(xs: seq<T>, rank: T -> int)
    requires xs != [] && SortedDesc(xs, rank)
    ensures SortedDesc(xs[1..], rank)
  {
    var tail := xs[1..];
    forall i, j | 0 <= i < j < |tail|
      ensures rank(tail[i]) >= rank(tail[j])
    {
      assert tail[i] == xs[i + 1] && tail[j] == xs[j + 1];
    }
  }

  lemma {:induction false} InsertStable<T>(x: T, xs: seq<T>, rank: T -> int, k: int)
    requires SortedDesc(xs, rank)
    ensures WithRank(Insert(x, xs, rank), rank, k)
         == WithRank(xs, rank, k) + (if rank(x) == k then [x] else [])
    decreases |xs|
  {
    var r := Insert(x, xs, rank);
    var e := if rank(x) == k then [x] else [];
    if xs == [] {
      assert r == [x];
      assert WithRank(r, rank, k) == e + WithRank(r[1..], rank, k);
    } else if rank(xs[0]) >= rank(x) {
      var tail := xs[1..];
      var h := if rank(xs[0]) == k then [xs[0]] else [];
      SortedTail(xs, rank);
      InsertStable(x, tail, rank, k);
      assert r[0] == xs[0] && r[1..] == Insert(x, tail, rank);
      assert WithRank(r, rank, k) == h + WithRank(Insert(x, tail, rank), rank, k);
      assert WithRank(xs, rank, k) == h + WithRank(tail, rank, k);
    } else {
      assert r[0] == x && r[1..] == xs;
      assert WithRank(r, rank, k) == e + WithRank(xs, rank, k);
      if rank(x) == k {
        WithRankNone(xs, rank, k);
      }
    }
  }

  /** The sort orders by descending rank. */
  lemma {:induction false} SortDescOrdered<T>(xs: seq<T>, rank: T -> int)
    ensures SortedDesc(SortDesc(xs, rank), rank)
    decreases |xs|
  {
    if xs != [] {
      var init := xs[..|xs| - 1];
      SortDescOrdered(init, rank);
      InsertSorted(xs[|xs| - 1], SortDesc(init, rank), rank);
    }
  }

  /** The sort is a permutation of its input. */
  lemma {:induction false} SortDescPermutation<T>(xs: seq<T>, rank: T -> int)
    ensures multiset(SortDesc(xs, rank)) == multiset(xs)
    decreases |xs|
  {
    if xs != [] {
      var init, last := xs[..|xs| - 1], xs[|xs| - 1];
      SortDescPermutation(init, rank);
      InsertMultiset(last, SortDesc(init, rank), rank);
      assert xs == init + [last];
    }
  }

  /** The sort orders by descending rank and is a permutation of its input. */
  lemma SortDescSorted<T>(xs: seq<T>, rank: T -> int)
    ensures SortedDesc(SortDesc(xs, rank), rank)
    ensures multiset(SortDesc(xs, rank)) == multiset(xs)
  {
    SortDescOrdered(xs, rank);
    SortDescPermutation(xs, rank);
  }

  /** The elements of rank `k` of a non-empty sequence: those before its last element,
      then the last one if it has rank `k`. */
  lemma WithRankSnoc<T>(xs: seq<T>, rank: T -> int, k: int)
    requires xs != []
    ensures WithRank(xs, rank, k)
         == WithRank(xs[..|xs| - 1], rank, k) + (if rank(xs[|xs| - 1]) == k then [xs[|xs| - 1]] else [])
  {
    var init, last := xs[..|xs| - 1], xs[|xs| - 1];
    assert xs == init + [last];
    WithRankAppend(init, [last], rank, k);
    assert [last][1..] == [];
    assert WithRank([last], rank, k) == if rank(last) == k then [last] else [];
  }

  /** Stability: for every rank, the elements of that rank appear in the output in
      exactly the order they had in the input. */
  lemma {:induction false} SortDescStable<T>(xs: seq<T>, rank: T -> int, k: int)
    ensures WithRank(SortDesc(xs, rank), rank, k) == WithRank(xs, rank, k)
    decreases |xs|
  {
    if xs != [] {
      var init, last := xs[..|xs| - 1], xs[|xs| - 1];
      var sorted := SortDesc(init, rank);
      SortDescStable(init, rank, k);
      SortDescOrdered(init, rank);
      InsertStable(last, sorted, rank, k);
      WithRankSnoc(xs, rank, k);
    }
  }
}
