/**
 * The numeric columns of `df_time` and pandas' null-skipping reductions on
 * them: `sum(skipna=True)` (0 when nothing is summed), the count of non-null
 * values, and `mean(skipna=True)` (NaN, here `None`, when that count is 0).
 * Values are exact reals; floating-point rounding is not modelled.
 */
module Measures {
  import opened Wrappers
  import opened Sequences
  import opened Cleaning

  datatype Column = Distance | Fare | Passengers

  function Value(t: Trip, c: Column): Option<real> {
    match c
    case Distance => t.distance
    case Fare => t.fare
    case Passengers => t.passengers
  }

  /** `rows[c].sum(skipna=True)`. */
  function SumNonNull(rows: seq<Trip>, c: Column): real {
    if rows == [] then 0.0 else SumNonNull(Init(rows), c) + Value(Last(rows), c).GetOr(0.0)
  }

  /** `rows[c].count()`: the number of non-null values. */
  function CountNonNull(rows: seq<Trip>, c: Column): nat {
    if rows == [] then 0 else CountNonNull(Init(rows), c) + (if Value(Last(rows), c).Some? then 1 else 0)
  }

  /** `rows[c].mean(skipna=True)`, `None` standing for NaN. */
  function Mean(rows: seq<Trip>, c: Column): Option<real> {
    var n := CountNonNull(rows, c);
    if n == 0 then None else Some(SumNonNull(rows, c) / n as real)
  }

  /** No value is counted exactly when every value is null. */
  lemma {:induction false} CountNonNullZero(rows: seq<Trip>, c: Column)
    ensures CountNonNull(rows, c) == 0 <==> forall t :: t in rows ==> Value(t, c).None?
  {
    if rows != [] {
      CountNonNullZero(Init(rows), c);
      assert rows == Init(rows) + [Last(rows)];
    }
  }

  /** Nulls contribute nothing: with every value null the sum is 0. */
  lemma {:induction false} SumOfNulls(rows: seq<Trip>, c: Column)
    requires forall t :: t in rows ==> Value(t, c).None?
    ensures SumNonNull(rows, c) == 0.0
  {
    if rows != [] {
      assert forall t :: t in Init(rows) ==> t in rows;
      SumOfNulls(Init(rows), c);
    }
  }

  /** The mean is unavailable exactly when there is no non-null value. */
  lemma MeanUnavailable(rows: seq<Trip>, c: Column)
    ensures Mean(rows, c).None? <==> forall t :: t in rows ==> Value(t, c).None?
  {
    CountNonNullZero(rows, c);
  }

  /** An available mean is the sum of the non-null values over their count. */
  lemma MeanTimesCount(rows: seq<Trip>, c: Column, m: real)
    requires Mean(rows, c) == Some(m)
    ensures m * CountNonNull(rows, c) as real == SumNonNull(rows, c)
  {
    var n: real := CountNonNull(rows, c) as real;
    var x := SumNonNull(rows, c);
    assert n != 0.0 && m == x / n;
    DivTimes(x, n, m);
  }

  lemma DivTimes(x: real, n: real, q: real)
    requires n != 0.0 && q == x / n
    ensures q * n == x
  {
  }

  /** Sums decompose over concatenation. */
  lemma {:induction false} SumAppend(a: seq<Trip>, b: seq<Trip>, c: Column)
    ensures SumNonNull(a + b, c) == SumNonNull(a, c) + SumNonNull(b, c)
    ensures CountNonNull(a + b, c) == CountNonNull(a, c) + CountNonNull(b, c)
    decreases |b|
  {
    if b == [] {
      assert a + b == a;
    } else {
      assert Init(a + b) == a + Init(b);
      assert Last(a + b) == Last(b);
      SumAppend(a, Init(b), c);
    }
  }
}
