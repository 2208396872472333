/**
 * The five key figures of the filtered rows and their card texts. The
 * `"X" in dff` tests of the callback always hold, because cleaning creates
 * every numeric column (all null when the file lacks it), so each figure is
 * always computed and the text "N/A" only ever stands for a NaN average.
 */
module Kpis {
  import opened Wrappers
  import opened Sequences
  import opened Text
  import opened Cleaning
  import opened Measures
  import opened Filtering

  /** `int(x)` on a float: truncation toward zero. */
  function Trunc(x: real): (n: int)
    ensures 0.0 <= x ==> n as real <= x < n as real + 1.0
    ensures x < 0.0 ==> n as real - 1.0 < x <= n as real
  {
    if x >= 0.0 then x.Floor else -((-x).Floor)
  }

  /** The figures; an average is `None` where pandas gives NaN. */
  datatype Summary = Summary(
    trips: nat,
    passengers: int,
    revenue: real,
    avgFare: Option<real>,
    avgDistance: Option<real>)

  /** The KPI block of `update_all`. */
  function Summarize(dff: seq<Trip>): (k: Summary)
    ensures k.trips == |dff|
  {
    Summary(
      |dff|,
      Trunc(SumNonNull(dff, Passengers)),
      SumNonNull(dff, Fare),
      Mean(dff, Fare),
      Mean(dff, Distance))
  }

  /** With no rows every total is zero and both averages are unavailable. */
  lemma SummaryOfNothing()
    ensures Summarize([]) == Summary(0, 0, 0.0, None, None)
  {
  }

  /** Every present value of column `c` is a whole number. */
  predicate WholeValues(rows: seq<Trip>, c: Column) {
    forall t :: t in rows && Value(t, c).Some? ==> Value(t, c).value.Floor as real == Value(t, c).value
  }

  lemma {:induction false} SumOfWholes(rows: seq<Trip>, c: Column)
    requires WholeValues(rows, c)
    ensures SumNonNull(rows, c).Floor as real == SumNonNull(rows, c)
  {
    if rows != [] {
      assert forall t :: t in Init(rows) ==> t in rows;
      SumOfWholes(Init(rows), c);
      var x := Value(Last(rows), c).GetOr(0.0);
      assert x.Floor as real == x;
      assert SumNonNull(rows, c) == (SumNonNull(Init(rows), c).Floor + x.Floor) as real;
    }
  }

  lemma TruncWhole(x: real)
    requires x.Floor as real == x
    ensures Trunc(x) as real == x
  {
    var n, m := Trunc(x), x.Floor;
    assert n <= m < n + 1 || n - 1 < m <= n;
  }

  /**
   * The passenger total skips nulls: it is 0 when all are null, and it is
   * exactly the sum of the present counts when those are whole numbers.
   */
  lemma PassengersSkipNulls(dff: seq<Trip>)
    ensures (forall t :: t in dff ==> t.passengers.None?) ==> Summarize(dff).passengers == 0
    ensures WholeValues(dff, Passengers) ==> Summarize(dff).passengers as real == SumNonNull(dff, Passengers)
  {
    if forall t :: t in dff ==> t.passengers.None? {
      SumOfNulls(dff, Passengers);
    }
    if WholeValues(dff, Passengers) {
      SumOfWholes(dff, Passengers);
      TruncWhole(SumNonNull(dff, Passengers));
    }
  }

  /** Each average is unavailable exactly when no row has a value in its column. */
  lemma AveragesUnavailable(dff: seq<Trip>)
    ensures Summarize(dff).avgFare.None? <==> forall t :: t in dff ==> t.fare.None?
    ensures Summarize(dff).avgDistance.None? <==> forall t :: t in dff ==> t.distance.None?
  {
    MeanUnavailable(dff, Fare);
    MeanUnavailable(dff, Distance);
  }

  /** An available average fare times the number of fares is the revenue. */
  lemma AverageFareTimesCount(dff: seq<Trip>, m: real)
    requires Summarize(dff).avgFare == Some(m)
    ensures m * CountNonNull(dff, Fare) as real == Summarize(dff).revenue
  {
    MeanTimesCount(dff, Fare, m);
  }

  /** An available average distance times the number of distances is their sum. */
  lemma AverageDistanceTimesCount(dff: seq<Trip>, m: real)
    requires Summarize(dff).avgDistance == Some(m)
    ensures m * CountNonNull(dff, Distance) as real == SumNonNull(dff, Distance)
  {
    MeanTimesCount(dff, Distance, m);
  }

  /** A file without a Fare column reports revenue 0 and no average fare. */
  lemma NoFareValues(dff: seq<Trip>)
    requires forall t :: t in dff ==> t.fare.None?
    ensures Summarize(dff).revenue == 0.0 && Summarize(dff).avgFare == None
  {
    SumOfNulls(dff, Fare);
    MeanUnavailable(dff, Fare);
  }

  lemma {:induction false} SumNonNegative(rows: seq<Trip>, c: Column)
    requires forall t :: t in rows && Value(t, c).Some? ==> Value(t, c).value >= 0.0
    ensures SumNonNull(rows, c) >= 0.0
  {
    if rows != [] {
      assert forall t :: t in Init(rows) ==> t in rows;
      SumNonNegative(Init(rows), c);
    }
  }

  lemma {:induction false} SelectedSumBound(rows: seq<Trip>, f: FilterState, c: Column)
    requires forall t :: t in rows && Value(t, c).Some? ==> Value(t, c).value >= 0.0
    ensures SumNonNull(Selected(rows, f), c) <= SumNonNull(rows, c)
  {
    if rows != [] {
      assert forall t :: t in Init(rows) ==> t in rows;
      SelectedSumBound(Init(rows), f, c);
      var x := Last(rows);
      var prev := Selected(Init(rows), f);
      assert x in rows;
      var v := Value(x, c).GetOr(0.0);
      assert v >= 0.0;
      assert SumNonNull(rows, c) == SumNonNull(Init(rows), c) + v;
      if Matches(f, x) {
        assert Selected(rows, f) == prev + [x];
        SumAppend(prev, [x], c);
        assert Init([x]) == [] && Last([x]) == x;
        assert SumNonNull([x], c) == v;
      } else {
        assert Selected(rows, f) == prev;
      }
    }
  }

  /**
   * Filtering never raises the trip count, and with non-negative fares and
   * passenger counts it never raises revenue or the passenger total either.
   */
  lemma FilteringShrinksTotals(rows: seq<Trip>, f: FilterState)
    ensures Summarize(Selected(rows, f)).trips <= Summarize(rows).trips
    ensures (forall t :: t in rows && t.fare.Some? ==> t.fare.value >= 0.0) ==>
      Summarize(Selected(rows, f)).revenue <= Summarize(rows).revenue
    ensures (forall t :: t in rows && t.passengers.Some? ==> t.passengers.value >= 0.0) ==>
      Summarize(Selected(rows, f)).passengers <= Summarize(rows).passengers
  {
    SelectedLength(rows, f);
    if forall t :: t in rows && t.fare.Some? ==> t.fare.value >= 0.0 {
      SelectedSumBound(rows, f, Fare);
    }
    if forall t :: t in rows && t.passengers.Some? ==> t.passengers.value >= 0.0 {
      SelectedSumBound(rows, f, Passengers);
      SelectedMembers(rows, f);
      SumNonNegative(Selected(rows, f), Passengers);
    }
  }

  /** The five card texts. */
  datatype Cards = Cards(trips: string, passengers: string, revenue: string, avgFare: string, avgDistance: string)

  /**
   * The card formatting of `update_all`: counts with thousands separators,
   * "N/A" for a NaN average. The money and kilometre renderings of a float
   * are the parameters `money` and `km`.
   */
  function Render(k: Summary, money: real -> string, km: real -> string): (c: Cards)
  {
    Cards(
      FormatThousands(k.trips),
      FormatThousands(k.passengers),
      money(k.revenue),
      if k.avgFare.None? then "N/A" else money(k.avgFare.value),
      if k.avgDistance.None? then "N/A" else km(k.avgDistance.value))
  }

  /** The two count cards read back as the counts they show. */
  lemma CountCardsReadBack(k: Summary, money: real -> string, km: real -> string)
    ensures var c := Render(k, money, km);
      && Numeral(c.trips) && ParseThousands(c.trips) == k.trips
      && Numeral(c.passengers) && ParseThousands(c.passengers) == k.passengers
  {
    FormatThousandsSpec(k.trips);
    FormatThousandsSpec(k.passengers);
  }

  /**
   * Provided neither float rendering itself produces "N/A", a card reads
   * "N/A" exactly when its average is NaN, and the revenue card never does.
   */
  lemma UnavailableCards(k: Summary, money: real -> string, km: real -> string)
    requires forall x :: money(x) != "N/A"
    requires forall x :: km(x) != "N/A"
    ensures var c := Render(k, money, km);
      && c.revenue != "N/A"
      && (c.avgFare == "N/A" <==> k.avgFare.None?)
      && (c.avgDistance == "N/A" <==> k.avgDistance.None?)
  {
    assert money(k.revenue) != "N/A";
    if k.avgFare.Some? {
      var v := k.avgFare.value;
      assert money(v) != "N/A";
    }
    if k.avgDistance.Some? {
      var v := k.avgDistance.value;
      assert km(v) != "N/A";
    }
  }
}
