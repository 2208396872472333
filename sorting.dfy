/**
 * `sort_values` on a table column: an insertion sort by a numeric weight,
 * with the facts the chart tables need (the result is a permutation,
 * ordered by weight, with the same column sums and the same distinct keys).
 * The sort is stable; pandas' default sort is not, so nothing outside this
 * module relies on the order of rows with equal weight.
 */
module Sorting {
  import opened Sequences

  predicate NonIncreasing<T>(s: seq<T>, w: T -> real) {
    forall i, j :: 0 <= i < j < |s| ==> w(s[i]) >= w(s[j])
  }

  predicate NonDecreasing<T>(s: seq<T>, w: T -> real) {
    forall i, j :: 0 <= i < j < |s| ==> w(s[i]) <= w(s[j])
  }

  /** Strictly decreasing weights: no ties, so every correct sort leaves `s` as it is. */
  predicate Decreasing<T>(s: seq<T>, w: T -> real) {
    forall i, j :: 0 <= i < j < |s| ==> w(s[i]) > w(s[j])
  }

  predicate Increasing<T>(s: seq<T>, w: T -> real) {
    forall i, j :: 0 <= i < j < |s| ==> w(s[i]) < w(s[j])
  }

  /** `x` placed into `s` in front of the first element it is not below. */
  function InsertDesc<T(==)>(x: T, s: seq<T>, w: T -> real): (r: seq<T>)
    ensures |r| == |s| + 1 && multiset(r) == multiset(s) + multiset{x}
    ensures r[0] == x || (s != [] && r[0] == s[0])
  {
    if s == [] || w(x) >= w(s[0]) then [x] + s
    else
      assert s == [s[0]] + s[1..];
      [s[0]] + InsertDesc(x, s[1..], w)
  }

  /** Inserting into a non-increasing sequence keeps it non-increasing. */
  lemma {:induction false} InsertDescSorted<T>(x: T, s: seq<T>, w: T -> real)
    requires NonIncreasing(s, w)
    ensures NonIncreasing(InsertDesc(x, s, w), w)
  {
    if s != [] && w(x) < w(s[0]) {
      var rest := InsertDesc(x, s[1..], w);
      assert NonIncreasing(s[1..], w);
      InsertDescSorted(x, s[1..], w);
      var r := InsertDesc(x, s, w);
      assert r == [s[0]] + rest;
      assert w(s[0]) >= w(rest[0]) by {
        if rest[0] != x {
          assert rest[0] == s[1];
        }
      }
      forall i, j | 0 <= i < j < |r| ensures w(r[i]) >= w(r[j]) {
        assert r[j] == rest[j - 1];
        if i == 0 {
          if j > 1 {
            assert w(rest[0]) >= w(rest[j - 1]);
          }
        } else {
          assert r[i] == rest[i - 1];
        }
      }
    }
  }

  /** `sort_values(ascending=False)`: `s` rearranged by non-increasing weight. */
  function SortDesc<T(==)>(s: seq<T>, w: T -> real): (r: seq<T>)
    ensures multiset(r) == multiset(s)
    ensures NonIncreasing(r, w)
  {
    if s == [] then []
    else
      assert s == [s[0]] + s[1..];
      var sorted := SortDesc(s[1..], w);
      InsertDescSorted(s[0], sorted, w);
      InsertDesc(s[0], sorted, w)
  }

  /** `sort_values()`: `s` rearranged by non-decreasing weight. */
  function SortAsc<T(==)>(s: seq<T>, w: T -> real): (r: seq<T>)
    ensures multiset(r) == multiset(s)
    ensures NonDecreasing(r, w)
  {
    var r := SortDesc(s, x => -w(x));
    assert forall i, j :: 0 <= i < j < |r| ==> -w(r[i]) >= -w(r[j]);
    r
  }

  /**
   * A sequence in strictly decreasing order comes out of the sort unchanged.
   * Without ties the order is forced, so this holds of any correct sort.
   */
  lemma {:induction false} SortDescSorted<T>(s: seq<T>, w: T -> real)
    requires Decreasing(s, w)
    ensures SortDesc(s, w) == s
  {
    if s != [] {
      var tail := s[1..];
      assert Decreasing(tail, w) by {
        forall i, j | 0 <= i < j < |tail| ensures w(tail[i]) > w(tail[j]) {
          assert tail[i] == s[i + 1] && tail[j] == s[j + 1];
        }
      }
      SortDescSorted(tail, w);
      if tail != [] {
        assert tail[0] == s[1];
      }
      InsertDescFront(s[0], tail, w);
      assert s == [s[0]] + tail;
    }
  }

  /** An element no lighter than the head goes in front. */
  lemma InsertDescFront<T>(x: T, s: seq<T>, w: T -> real)
    requires s == [] || w(x) >= w(s[0])
    ensures InsertDesc(x, s, w) == [x] + s
  {
  }

  /** A sequence in strictly increasing order comes out of the ascending sort unchanged. */
  lemma SortAscSorted<T>(s: seq<T>, w: T -> real)
    requires Increasing(s, w)
    ensures SortAsc(s, w) == s
  {
    assert Decreasing(s, x => -w(x));
    SortDescSorted(s, x => -w(x));
  }

  lemma {:induction false} InsertDescSum<T>(x: T, s: seq<T>, w: T -> real, f: T -> real)
    ensures SumBy(InsertDesc(x, s, w), f) == f(x) + SumBy(s, f)
  {
    if s != [] && w(x) < w(s[0]) {
      var r := InsertDesc(x, s, w);
      assert r[1..] == InsertDesc(x, s[1..], w);
      InsertDescSum(x, s[1..], w, f);
    } else {
      assert ([x] + s)[1..] == s;
    }
  }

  /** Sorting does not change a column sum. */
  lemma {:induction false} SortDescSum<T>(s: seq<T>, w: T -> real, f: T -> real)
    ensures SumBy(SortDesc(s, w), f) == SumBy(s, f)
  {
    if s != [] {
      SortDescSum(s[1..], w, f);
      InsertDescSum(s[0], SortDesc(s[1..], w), w, f);
    }
  }

  lemma SortAscSum<T>(s: seq<T>, w: T -> real, f: T -> real)
    ensures SumBy(SortAsc(s, w), f) == SumBy(s, f)
  {
    SortDescSum(s, x => -w(x), f);
  }

  lemma {:induction false} InsertDescDistinct<T, K>(x: T, s: seq<T>, w: T -> real, key: T -> K)
    requires DistinctBy(s, key)
    requires forall y :: y in s ==> key(y) != key(x)
    ensures DistinctBy(InsertDesc(x, s, w), key)
  {
    if s != [] && w(x) < w(s[0]) {
      DistinctUncons(s, key);
      var rest := InsertDesc(x, s[1..], w);
      InsertDescDistinct(x, s[1..], w, key);
      forall y | y in rest ensures key(y) != key(s[0]) {
        assert y in multiset(rest);
        if y != x {
          assert y in s[1..];
        } else {
          assert s[0] in s;
        }
      }
      DistinctCons(s[0], rest, key);
      assert InsertDesc(x, s, w) == [s[0]] + rest;
    } else {
      DistinctCons(x, s, key);
    }
  }

  /** Sorting keeps the keys of a table distinct. */
  lemma {:induction false} SortDescDistinct<T, K>(s: seq<T>, w: T -> real, key: T -> K)
    requires DistinctBy(s, key)
    ensures DistinctBy(SortDesc(s, w), key)
  {
    if s != [] {
      DistinctUncons(s, key);
      SortDescDistinct(s[1..], w, key);
      forall y | y in SortDesc(s[1..], w) ensures key(y) != key(s[0]) {
        assert y in multiset(SortDesc(s[1..], w));
      }
      InsertDescDistinct(s[0], SortDesc(s[1..], w), w, key);
    }
  }

  lemma SortAscDistinct<T, K>(s: seq<T>, w: T -> real, key: T -> K)
    requires DistinctBy(s, key)
    ensures DistinctBy(SortAsc(s, w), key)
  {
    SortDescDistinct(s, x => -w(x), key);
  }
}
