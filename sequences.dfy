/**
 * Generic sequence helpers. `Init` and `Last` are the accessors the row
 * folds are written with: the rows are consumed from the end, so that a
 * fold over `rows + [x]` unfolds once. The rest are the shared vocabulary of
 * the tables: distinct keys, a column sum, an order-preserving subsequence.
 */
module Sequences {

  function Last<T>(s: seq<T>): T
    requires s != []
  {
    s[|s| - 1]
  }

  function Init<T>(s: seq<T>): seq<T>
    requires s != []
  {
    s[..|s| - 1]
  }

  /** No two elements share a key. */
  predicate DistinctBy<T, K(==)>(s: seq<T>, key: T -> K) {
    forall i, j :: 0 <= i < j < |s| ==> key(s[i]) != key(s[j])
  }

  /** The sum of `f` over the elements of `s`. */
  function SumBy<T>(s: seq<T>, f: T -> real): real {
    if s == [] then 0.0 else f(s[0]) + SumBy(s[1..], f)
  }

  /** `a` is `b` with some elements left out, the rest in the same order. */
  predicate IsSubsequence<T(==)>(a: seq<T>, b: seq<T>) {
    a == [] || (b != [] && ((Last(a) == Last(b) && IsSubsequence(Init(a), Init(b))) || IsSubsequence(a, Init(b))))
  }

  /** Putting an element whose key is new in front of a sequence with distinct keys keeps them distinct. */
  lemma DistinctCons<T, K>(y: T, rest: seq<T>, key: T -> K)
    requires DistinctBy(rest, key)
    requires forall z :: z in rest ==> key(z) != key(y)
    ensures DistinctBy([y] + rest, key)
  {
    var r := [y] + rest;
    forall i, j | 0 <= i < j < |r| ensures key(r[i]) != key(r[j]) {
      assert r[j] == rest[j - 1];
      if i == 0 {
        assert r[j] in rest;
      } else {
        assert r[i] == rest[i - 1];
      }
    }
  }

  /** A sequence with distinct keys is its head, whose key its tail does not repeat, before a tail with distinct keys. */
  lemma DistinctUncons<T, K>(s: seq<T>, key: T -> K)
    requires DistinctBy(s, key) && s != []
    ensures DistinctBy(s[1..], key)
    ensures forall z :: z in s[1..] ==> key(z) != key(s[0])
  {
    forall z | z in s[1..] ensures key(z) != key(s[0]) {
      var j :| 0 <= j < |s[1..]| && s[1..][j] == z;
      assert s[j + 1] == z;
    }
  }
}
