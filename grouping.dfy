/**
 * `groupby(key)[col].sum()` and `value_counts()` over `df_time` rows. One
 * pass builds, in order of first appearance, a bucket per distinct key
 * holding the number of rows with that key and the null-skipping sum of
 * one numeric column over them; the chart tables read whichever of the
 * two they need.
 */
module Grouping {
  import opened Wrappers
  import opened Sequences
  import opened Cleaning
  import opened Measures

  datatype Bucket<K> = Bucket(key: K, size: nat, total: real)

  function KeyOf<K>(b: Bucket<K>): K {
    b.key
  }

  function SizeOf<K>(b: Bucket<K>): real {
    b.size as real
  }

  function TotalOf<K>(b: Bucket<K>): real {
    b.total
  }

  /** The number of rows whose key is `k`. */
  function CountKey<K(==)>(rows: seq<Trip>, key: Trip -> K, k: K): nat {
    if rows == [] then 0 else CountKey(Init(rows), key, k) + (if key(Last(rows)) == k then 1 else 0)
  }

  /** The null-skipping sum of column `c` over the rows whose key is `k`. */
  function SumKey<K(==)>(rows: seq<Trip>, key: Trip -> K, k: K, c: Column): (s: real)
    ensures CountKey(rows, key, k) == 0 ==> s == 0.0
  {
    if rows == [] then 0.0
    else SumKey(Init(rows), key, k, c) + (if key(Last(rows)) == k then Value(Last(rows), c).GetOr(0.0) else 0.0)
  }

  /** A column with no value among the rows sums to 0 for every key. */
  lemma {:induction false} SumKeyOfNulls<K>(rows: seq<Trip>, key: Trip -> K, k: K, c: Column)
    requires forall t :: t in rows ==> Value(t, c).None?
    ensures SumKey(rows, key, k, c) == 0.0
  {
    if rows != [] {
      assert forall t :: t in Init(rows) ==> t in rows;
      assert Last(rows) in rows;
      SumKeyOfNulls(Init(rows), key, k, c);
    }
  }

  /** The first bucket of `t` with key `k`, if any. */
  function Lookup<K(==)>(t: seq<Bucket<K>>, k: K): (r: Option<Bucket<K>>)
    ensures r.Some? ==> r.value in t && r.value.key == k
  {
    if t == [] then None else if t[0].key == k then Some(t[0]) else Lookup(t[1..], k)
  }

  /** There is no bucket for `k` exactly when no bucket has key `k`. */
  lemma {:induction false} LookupMissing<K>(t: seq<Bucket<K>>, k: K)
    ensures Lookup(t, k).None? <==> forall b :: b in t ==> b.key != k
  {
    if t != [] {
      LookupMissing(t[1..], k);
      assert forall b :: b in t ==> b == t[0] || b in t[1..];
    }
  }

  function SizeIn<K(==)>(t: seq<Bucket<K>>, k: K): nat {
    match Lookup(t, k)
    case None => 0
    case Some(b) => b.size
  }

  function TotalIn<K(==)>(t: seq<Bucket<K>>, k: K): real {
    match Lookup(t, k)
    case None => 0.0
    case Some(b) => b.total
  }

  /** One row with key `k` and summed value `x` added to the buckets `t`. */
  function AddRow<K(==)>(t: seq<Bucket<K>>, k: K, x: real): seq<Bucket<K>> {
    if t == [] then [Bucket(k, 1, x)]
    else if t[0].key == k then [Bucket(k, t[0].size + 1, t[0].total + x)] + t[1..]
    else [t[0]] + AddRow(t[1..], k, x)
  }

  lemma LookupCons<K>(b: Bucket<K>, rest: seq<Bucket<K>>, k: K)
    ensures Lookup([b] + rest, k) == if b.key == k then Some(b) else Lookup(rest, k)
  {
    assert ([b] + rest)[0] == b && ([b] + rest)[1..] == rest;
  }

  /** Adding a row grows its own key's bucket by one row and `x`, and leaves every other bucket alone. */
  lemma AddRowLookup<K>(t: seq<Bucket<K>>, k: K, x: real, k': K)
    ensures Lookup(AddRow(t, k, x), k') ==
            (if k' == k then Some(Bucket(k, SizeIn(t, k) + 1, TotalIn(t, k) + x)) else Lookup(t, k'))
  {
    if k' == k {
      AddRowOwn(t, k, x);
    } else {
      AddRowOther(t, k, x, k');
    }
  }

  /** The bucket of the added row's key holds one more row and `x` more. */
  lemma {:induction false} AddRowOwn<K>(t: seq<Bucket<K>>, k: K, x: real)
    ensures Lookup(AddRow(t, k, x), k) == Some(Bucket(k, SizeIn(t, k) + 1, TotalIn(t, k) + x))
  {
    if t == [] {
      LookupCons(Bucket(k, 1, x), [], k);
    } else if t[0].key == k {
      var b := Bucket(k, t[0].size + 1, t[0].total + x);
      assert AddRow(t, k, x) == [b] + t[1..];
      LookupCons(b, t[1..], k);
    } else {
      var r := AddRow(t[1..], k, x);
      AddRowOwn(t[1..], k, x);
      assert AddRow(t, k, x) == [t[0]] + r;
      LookupCons(t[0], r, k);
      assert Lookup(AddRow(t, k, x), k) == Lookup(r, k);
      LookupSkip(t, k);
    }
  }

  /** Past a first bucket of another key, the key's size and total are those of the rest. */
  lemma LookupSkip<K>(t: seq<Bucket<K>>, k: K)
    requires t != [] && t[0].key != k
    ensures SizeIn(t, k) == SizeIn(t[1..], k) && TotalIn(t, k) == TotalIn(t[1..], k)
  {
  }

  /** Every other key's bucket is unchanged. */
  lemma {:induction false} AddRowOther<K>(t: seq<Bucket<K>>, k: K, x: real, k': K)
    requires k' != k
    ensures Lookup(AddRow(t, k, x), k') == Lookup(t, k')
  {
    if t == [] {
      LookupCons(Bucket(k, 1, x), [], k');
    } else if t[0].key == k {
      var b := Bucket(k, t[0].size + 1, t[0].total + x);
      assert AddRow(t, k, x) == [b] + t[1..];
      LookupCons(b, t[1..], k');
    } else {
      var r := AddRow(t[1..], k, x);
      AddRowOther(t[1..], k, x, k');
      assert AddRow(t, k, x) == [t[0]] + r;
      LookupCons(t[0], r, k');
    }
  }

  lemma {:induction false} AddRowDistinct<K>(t: seq<Bucket<K>>, k: K, x: real)
    requires DistinctBy(t, KeyOf)
    ensures DistinctBy(AddRow(t, k, x), KeyOf)
  {
    if t == [] {
      DistinctCons(Bucket(k, 1, x), [], KeyOf);
    } else {
      DistinctUncons(t, KeyOf);
      if t[0].key == k {
        DistinctCons(Bucket(k, t[0].size + 1, t[0].total + x), t[1..], KeyOf);
      } else {
        var rest := AddRow(t[1..], k, x);
        AddRowDistinct(t[1..], k, x);
        LookupMissing(t[1..], t[0].key);
        AddRowLookup(t[1..], k, x, t[0].key);
        LookupMissing(rest, t[0].key);
        DistinctCons(t[0], rest, KeyOf);
      }
    }
  }

  /**
   * The group-by table: in order of first appearance, the buckets built by
   * adding the rows one after another.
   */
  function GroupBy<K(==)>(rows: seq<Trip>, key: Trip -> K, c: Column): seq<Bucket<K>> {
    if rows == [] then []
    else AddRow(GroupBy(Init(rows), key, c), key(Last(rows)), Value(Last(rows), c).GetOr(0.0))
  }

  /**
   * The bucket for `k` exists exactly when some row has key `k`, and then it
   * holds the number of those rows and the sum of column `c` over them.
   */
  lemma {:induction false} GroupLookup<K>(rows: seq<Trip>, key: Trip -> K, c: Column, k: K)
    ensures Lookup(GroupBy(rows, key, c), k) ==
            (if CountKey(rows, key, k) == 0 then None
             else Some(Bucket(k, CountKey(rows, key, k), SumKey(rows, key, k, c))))
  {
    if rows != [] {
      GroupLookup(Init(rows), key, c, k);
      GroupLookup(Init(rows), key, c, key(Last(rows)));
      AddRowLookup(GroupBy(Init(rows), key, c), key(Last(rows)), Value(Last(rows), c).GetOr(0.0), k);
    }
  }

  /** The table has no two buckets with the same key. */
  lemma {:induction false} GroupDistinct<K>(rows: seq<Trip>, key: Trip -> K, c: Column)
    ensures DistinctBy(GroupBy(rows, key, c), KeyOf)
  {
    if rows != [] {
      GroupDistinct(Init(rows), key, c);
      AddRowDistinct(GroupBy(Init(rows), key, c), key(Last(rows)), Value(Last(rows), c).GetOr(0.0));
    }
  }

  lemma {:induction false} LookupDistinct<K>(t: seq<Bucket<K>>, i: nat)
    requires DistinctBy(t, KeyOf) && i < |t|
    ensures Lookup(t, t[i].key) == Some(t[i])
  {
    if i > 0 {
      assert t[0].key != t[i].key;
      assert DistinctBy(t[1..], KeyOf);
      LookupDistinct(t[1..], i - 1);
    }
  }

  /** The distinct keys of `rows`. */
  function RowKeys<K>(rows: seq<Trip>, key: Trip -> K): set<K> {
    set t | t in rows :: key(t)
  }

  /** The keys of the buckets of `t`. */
  function TableKeys<K>(t: seq<Bucket<K>>): set<K> {
    set b | b in t :: b.key
  }

  /** A key occurs among the rows exactly when some row has it. */
  lemma {:induction false} CountKeyPositive<K>(rows: seq<Trip>, key: Trip -> K, k: K)
    ensures CountKey(rows, key, k) > 0 <==> exists t :: t in rows && key(t) == k
  {
    if rows != [] {
      var pre, x := Init(rows), Last(rows);
      CountKeyPositive(pre, key, k);
      assert rows == pre + [x];
      if exists t :: t in rows && key(t) == k {
        var t :| t in rows && key(t) == k;
        assert t in pre || t == x;
      }
      if exists t :: t in pre && key(t) == k {
        var t :| t in pre && key(t) == k;
        assert t in rows;
      }
    }
  }

  /** Every bucket of the table is the size and the sum of its own key's rows, and is non-empty. */
  lemma GroupBuckets<K>(rows: seq<Trip>, key: Trip -> K, c: Column, b: Bucket<K>)
    requires b in GroupBy(rows, key, c)
    ensures b.size == CountKey(rows, key, b.key) >= 1
    ensures b.total == SumKey(rows, key, b.key, c)
  {
    var g := GroupBy(rows, key, c);
    var i :| 0 <= i < |g| && g[i] == b;
    GroupDistinct(rows, key, c);
    LookupDistinct(g, i);
    GroupLookup(rows, key, c, b.key);
  }

  /** The table's keys are exactly the distinct keys of `rows`. */
  lemma GroupKeys<K>(rows: seq<Trip>, key: Trip -> K, c: Column)
    ensures TableKeys(GroupBy(rows, key, c)) == RowKeys(rows, key)
  {
    var g := GroupBy(rows, key, c);
    var mine, theirs := TableKeys(g), RowKeys(rows, key);
    forall k | k in mine ensures k in theirs {
      var b :| b in g && b.key == k;
      GroupBuckets(rows, key, c, b);
      CountKeyPositive(rows, key, k);
    }
    forall k | k in theirs ensures k in mine {
      CountKeyPositive(rows, key, k);
      GroupLookup(rows, key, c, k);
      LookupMissing(g, k);
    }
  }

  lemma TableKeysCons<K>(t: seq<Bucket<K>>)
    requires t != []
    ensures TableKeys(t) == {t[0].key} + TableKeys(t[1..])
  {
    forall k | k in TableKeys(t) ensures k == t[0].key || k in TableKeys(t[1..]) {
      var b :| b in t && b.key == k;
      var j :| 0 <= j < |t| && t[j] == b;
      if j > 0 {
        assert t[1..][j - 1] == b;
      }
    }
  }

  lemma {:induction false} DistinctKeysCount<K>(t: seq<Bucket<K>>)
    requires DistinctBy(t, KeyOf)
    ensures |TableKeys(t)| == |t|
  {
    if t != [] {
      DistinctUncons(t, KeyOf);
      DistinctKeysCount(t[1..]);
      TableKeysCons(t);
      assert t[0].key !in TableKeys(t[1..]);
    }
  }

  /** The table has one row per distinct key. */
  lemma GroupCount<K>(rows: seq<Trip>, key: Trip -> K, c: Column)
    ensures |GroupBy(rows, key, c)| == |RowKeys(rows, key)|
  {
    GroupKeys(rows, key, c);
    GroupDistinct(rows, key, c);
    DistinctKeysCount(GroupBy(rows, key, c));
  }

  lemma {:induction false} AddRowSums<K>(t: seq<Bucket<K>>, k: K, x: real)
    ensures SumBy(AddRow(t, k, x), TotalOf) == SumBy(t, TotalOf) + x
    ensures SumBy(AddRow(t, k, x), SizeOf) == SumBy(t, SizeOf) + 1.0
  {
    var r := AddRow(t, k, x);
    if t == [] {
      assert r[1..] == [];
    } else if t[0].key == k {
      assert r[1..] == t[1..];
    } else {
      assert r[1..] == AddRow(t[1..], k, x);
      AddRowSums(t[1..], k, x);
    }
  }

  /**
   * The table decomposes its column: the bucket sums add up to the column's
   * null-skipping sum, and the bucket sizes to the number of rows.
   */
  lemma {:induction false} GroupSums<K>(rows: seq<Trip>, key: Trip -> K, c: Column)
    ensures SumBy(GroupBy(rows, key, c), TotalOf) == SumNonNull(rows, c)
    ensures SumBy(GroupBy(rows, key, c), SizeOf) == |rows| as real
  {
    if rows != [] {
      GroupSums(Init(rows), key, c);
      AddRowSums(GroupBy(Init(rows), key, c), key(Last(rows)), Value(Last(rows), c).GetOr(0.0));
    }
  }
}
