/**
 * The data behind the six charts of `update_all`: daily passenger and fare
 * totals in date order, revenue per ticket type by decreasing revenue, ticket
 * type counts, the ten busiest boarding stations, and the scatter rows. Only
 * the tables are modelled; drawing them is left to the plotting library.
 */
module Charts {
  import opened Sequences
  import opened Calendar
  import opened Cleaning
  import opened Measures
  import opened Sorting
  import opened Grouping
  import opened Kpis

  function DayOf(t: Trip): CalendarDate {
    t.date
  }

  function TicketOf(t: Trip): string {
    t.ticket
  }

  function StationOf(t: Trip): string {
    t.station
  }

  function DayOrder(b: Bucket<CalendarDate>): real {
    Ordinal(b.key) as real
  }

  /**
   * `r` is a group-by table of `rows` by `key` over column `c`: one bucket per
   * distinct key, each holding its key's row count and column sum, and the
   * buckets together accounting for every row and the whole column.
   */
  predicate Tabulates<K(==)>(r: seq<Bucket<K>>, rows: seq<Trip>, key: Trip -> K, c: Column) {
    && DistinctBy(r, KeyOf)
    && (forall b :: b in r ==> 1 <= b.size == CountKey(rows, key, b.key) && b.total == SumKey(rows, key, b.key, c))
    && TableKeys(r) == RowKeys(rows, key)
    && |r| == |RowKeys(rows, key)|
    && SumBy(r, TotalOf) == SumNonNull(rows, c)
    && SumBy(r, SizeOf) == |rows| as real
  }

  lemma GroupTabulates<K>(rows: seq<Trip>, key: Trip -> K, c: Column)
    ensures Tabulates(GroupBy(rows, key, c), rows, key, c)
  {
    GroupDistinct(rows, key, c);
    forall b | b in GroupBy(rows, key, c)
      ensures 1 <= b.size == CountKey(rows, key, b.key) && b.total == SumKey(rows, key, b.key, c)
    {
      GroupBuckets(rows, key, c, b);
    }
    GroupKeys(rows, key, c);
    GroupCount(rows, key, c);
    GroupSums(rows, key, c);
  }

  /** A rearrangement with the same buckets, the same keys and the same sums is the same table. */
  lemma RearrangedTabulates<K>(r: seq<Bucket<K>>, r': seq<Bucket<K>>, rows: seq<Trip>, key: Trip -> K, c: Column)
    requires Tabulates(r, rows, key, c)
    requires multiset(r') == multiset(r) && DistinctBy(r', KeyOf)
    requires SumBy(r', TotalOf) == SumBy(r, TotalOf) && SumBy(r', SizeOf) == SumBy(r, SizeOf)
    ensures Tabulates(r', rows, key, c)
  {
    assert forall b :: b in r' <==> b in r by {
      forall b ensures b in r' <==> b in r {
        assert b in r' <==> b in multiset(r');
        assert b in r <==> b in multiset(r);
      }
    }
    assert TableKeys(r') == TableKeys(r);
    assert |r'| == |multiset(r')| == |multiset(r)| == |r|;
  }

  lemma SortDescTabulates<K>(r: seq<Bucket<K>>, w: Bucket<K> -> real, rows: seq<Trip>, key: Trip -> K, c: Column)
    requires Tabulates(r, rows, key, c)
    ensures Tabulates(SortDesc(r, w), rows, key, c)
  {
    SortDescDistinct(r, w, KeyOf);
    SortDescSum(r, w, TotalOf);
    SortDescSum(r, w, SizeOf);
    RearrangedTabulates(r, SortDesc(r, w), rows, key, c);
  }

  lemma SortAscTabulates<K>(r: seq<Bucket<K>>, w: Bucket<K> -> real, rows: seq<Trip>, key: Trip -> K, c: Column)
    requires Tabulates(r, rows, key, c)
    ensures Tabulates(SortAsc(r, w), rows, key, c)
  {
    SortAscDistinct(r, w, KeyOf);
    SortAscSum(r, w, TotalOf);
    SortAscSum(r, w, SizeOf);
    RearrangedTabulates(r, SortAsc(r, w), rows, key, c);
  }

  /** `dff.groupby("Date")[c].sum()`: the per-day totals of column `c`, sorted by date. */
  function DailyTotals(dff: seq<Trip>, c: Column): seq<Bucket<CalendarDate>> {
    SortAsc(GroupBy(dff, DayOf, c), DayOrder)
  }

  /**
   * The daily table has one row per day on which some trip was made, in
   * strictly increasing date order, each with that day's total of column
   * `c`; its totals add up to the column's total.
   */
  lemma DailyTotalsSpec(dff: seq<Trip>, c: Column)
    ensures var r := DailyTotals(dff, c);
      && Tabulates(r, dff, DayOf, c)
      && forall i, j :: 0 <= i < j < |r| ==> Ordinal(r[i].key) < Ordinal(r[j].key)
  {
    var g := GroupBy(dff, DayOf, c);
    GroupTabulates(dff, DayOf, c);
    SortAscTabulates(g, DayOrder, dff, DayOf, c);
    var r := DailyTotals(dff, c);
    forall i, j | 0 <= i < j < |r| ensures Ordinal(r[i].key) < Ordinal(r[j].key) {
      assert DayOrder(r[i]) <= DayOrder(r[j]);
      assert KeyOf(r[i]) != KeyOf(r[j]);
      OrdinalOrder(r[i].key, r[j].key);
    }
  }

  /** The passengers trend adds up to the passenger card, and the revenue trend to the revenue card. */
  lemma TrendsMatchCards(dff: seq<Trip>)
    ensures Trunc(SumBy(DailyTotals(dff, Passengers), TotalOf)) == Summarize(dff).passengers
    ensures SumBy(DailyTotals(dff, Fare), TotalOf) == Summarize(dff).revenue
  {
    DailyTotalsSpec(dff, Passengers);
    DailyTotalsSpec(dff, Fare);
  }

  /** `groupby("Ticket_Type")["Fare"].sum().sort_values("Fare", ascending=False)`. */
  function RevenueByTicket(dff: seq<Trip>): seq<Bucket<string>> {
    SortDesc(GroupBy(dff, TicketOf, Fare), TotalOf)
  }

  /**
   * One row per ticket type present, with its fare total, from the highest
   * total down; the rows add up to the revenue card.
   */
  lemma RevenueByTicketSpec(dff: seq<Trip>)
    ensures var r := RevenueByTicket(dff);
      && Tabulates(r, dff, TicketOf, Fare)
      && NonIncreasing(r, TotalOf)
      && SumBy(r, TotalOf) == Summarize(dff).revenue
  {
    GroupTabulates(dff, TicketOf, Fare);
    SortDescTabulates(GroupBy(dff, TicketOf, Fare), TotalOf, dff, TicketOf, Fare);
  }

  /**
   * `value_counts()` of the ticket types, most frequent first (the column
   * summed alongside the counts is not shown and is irrelevant here).
   */
  function TicketShare(dff: seq<Trip>): seq<Bucket<string>> {
    SortDesc(GroupBy(dff, TicketOf, Fare), SizeOf)
  }

  /** One row per ticket type present with its number of trips; the counts add up to the trip card. */
  lemma TicketShareSpec(dff: seq<Trip>)
    ensures var r := TicketShare(dff);
      && Tabulates(r, dff, TicketOf, Fare)
      && NonIncreasing(r, SizeOf)
      && SumBy(r, SizeOf) == Summarize(dff).trips as real
  {
    GroupTabulates(dff, TicketOf, Fare);
    SortDescTabulates(GroupBy(dff, TicketOf, Fare), SizeOf, dff, TicketOf, Fare);
  }

  /** The number of stations the busiest-stations chart shows at most. */
  const TopCount := 10

  /**
   * `From_Station.value_counts()`, most boardings first (as for the ticket
   * share, the column summed alongside the counts is not shown).
   */
  function StationCounts(dff: seq<Trip>): seq<Bucket<string>> {
    SortDesc(GroupBy(dff, StationOf, Fare), SizeOf)
  }

  /** `.nlargest(10)`: the first ten rows of the station counts. */
  function TopStations(dff: seq<Trip>): seq<Bucket<string>> {
    var counts := StationCounts(dff);
    counts[..if |counts| < TopCount then |counts| else TopCount]
  }

  /** `top_stations.sort_values("Count")`: the chart draws the top stations by increasing count. */
  function TopStationsChart(dff: seq<Trip>): seq<Bucket<string>> {
    SortAsc(TopStations(dff), SizeOf)
  }

  /** The stations boarded from in `dff`. */
  function Stations(dff: seq<Trip>): set<string> {
    RowKeys(dff, StationOf)
  }

  lemma StationCountsSpec(dff: seq<Trip>)
    ensures Tabulates(StationCounts(dff), dff, StationOf, Fare)
    ensures NonIncreasing(StationCounts(dff), SizeOf)
  {
    GroupTabulates(dff, StationOf, Fare);
    SortDescTabulates(GroupBy(dff, StationOf, Fare), SizeOf, dff, StationOf, Fare);
  }

  /** In a table by non-increasing count, a bucket past the first `n` has no larger count than one among them. */
  lemma PrefixDominates<K>(counts: seq<Bucket<K>>, n: nat, b: Bucket<K>, b': Bucket<K>)
    requires NonIncreasing(counts, SizeOf) && n <= |counts|
    requires b in counts[..n] && b' in counts && b' !in counts[..n]
    ensures b'.size <= b.size
  {
    var j :| 0 <= j < |counts| && counts[j] == b';
    var i :| 0 <= i < n && counts[..n][i] == b;
    if j < n {
      assert false;
    }
    assert SizeOf(counts[i]) >= SizeOf(counts[j]);
  }

  /** The chart has ten stations, or every station when there are fewer. */
  lemma TopStationsCount(dff: seq<Trip>)
    ensures |TopStations(dff)| == if |Stations(dff)| < TopCount then |Stations(dff)| else TopCount
  {
    StationCountsSpec(dff);
  }

  /** The top stations are distinct stations of the rows, each with its number of boardings. */
  lemma TopStationsKept(dff: seq<Trip>)
    ensures DistinctBy(TopStations(dff), KeyOf)
    ensures forall b :: b in TopStations(dff) ==> b.key in Stations(dff) && b.size == CountKey(dff, StationOf, b.key)
  {
    var counts := StationCounts(dff);
    StationCountsSpec(dff);
    var top := TopStations(dff);
    assert forall i :: 0 <= i < |top| ==> top[i] == counts[i];
    forall b | b in top ensures b.key in Stations(dff) && b.size == CountKey(dff, StationOf, b.key) {
      assert b in counts;
      assert b.key in TableKeys(counts);
    }
  }

  /** A station left out of the chart has no more boardings than any station shown. */
  lemma TopStationsLargest(dff: seq<Trip>, s: string, b: Bucket<string>)
    requires s in Stations(dff) && b in TopStations(dff)
    requires forall b' :: b' in TopStations(dff) ==> b'.key != s
    ensures CountKey(dff, StationOf, s) <= b.size
  {
    var counts := StationCounts(dff);
    StationCountsSpec(dff);
    var top := TopStations(dff);
    assert s in TableKeys(counts);
    var b' :| b' in counts && b'.key == s;
    PrefixDominates(counts, |top|, b, b');
  }

  /** The chart shows the same stations and counts, from the fewest boardings up. */
  lemma TopStationsChartSpec(dff: seq<Trip>)
    ensures var chart := TopStationsChart(dff);
      && multiset(chart) == multiset(TopStations(dff))
      && NonDecreasing(chart, SizeOf)
  {
  }

  /** `dropna(subset=["Passengers", "Distance_km"])`: the rows with both values present, in order. */
  function ScatterRows(dff: seq<Trip>): seq<Trip> {
    if dff == [] then []
    else ScatterRows(Init(dff)) + (if Last(dff).passengers.Some? && Last(dff).distance.Some? then [Last(dff)] else [])
  }

  /** The scatter chart, or its placeholder when no row has both values. */
  datatype Scatter = NotEnoughData | Points(rows: seq<Trip>)

  function ScatterChart(dff: seq<Trip>): Scatter {
    var rows := ScatterRows(dff);
    if rows == [] then NotEnoughData else Points(rows)
  }

  /** A row is plotted exactly when it has both a passenger count and a distance. */
  lemma {:induction false} ScatterRowsMembers(dff: seq<Trip>)
    ensures forall t :: t in ScatterRows(dff) <==> t in dff && t.passengers.Some? && t.distance.Some?
  {
    if dff != [] {
      ScatterRowsMembers(Init(dff));
      assert dff == Init(dff) + [Last(dff)];
    }
  }

  /** A row with both values is plotted as many times as it occurs, and no other row is. */
  lemma {:induction false} ScatterCounts(dff: seq<Trip>)
    ensures forall t :: multiset(ScatterRows(dff))[t] == if t.passengers.Some? && t.distance.Some? then multiset(dff)[t] else 0
  {
    if dff != [] {
      ScatterCounts(Init(dff));
      assert dff == Init(dff) + [Last(dff)];
    }
  }

  /** The plotted rows keep their order. */
  lemma {:induction false} ScatterRowsOrder(dff: seq<Trip>)
    ensures IsSubsequence(ScatterRows(dff), dff)
  {
    if dff != [] {
      ScatterRowsOrder(Init(dff));
      var prev, x := ScatterRows(Init(dff)), Last(dff);
      if x.passengers.Some? && x.distance.Some? {
        assert ScatterRows(dff) == prev + [x];
        assert Init(prev + [x]) == prev && Last(prev + [x]) == x;
      } else {
        assert ScatterRows(dff) == prev;
      }
    }
  }

  /** The placeholder is shown exactly when no row has both values. */
  lemma ScatterPlaceholder(dff: seq<Trip>)
    ensures ScatterChart(dff).NotEnoughData? <==>
      forall t :: t in dff ==> t.passengers.None? || t.distance.None?
  {
    ScatterRowsMembers(dff);
    var r := ScatterRows(dff);
    if r != [] {
      var t := r[0];
      assert t in r;
      assert t in dff && t.passengers.Some? && t.distance.Some?;
    }
  }
}
