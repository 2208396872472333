/**
 * The callback `update_all` as a whole: filter `df_time`, then compute the
 * five KPI cards and the six chart tables from the filtered rows.
 */
module Dashboard {
  import opened Wrappers
  import opened Sequences
  import opened Text
  import opened Calendar
  import opened Cleaning
  import opened Measures
  import opened Sorting
  import opened Grouping
  import opened Filtering
  import opened Kpis
  import opened Charts

  /** Everything the callback returns, charts as the tables they draw. */
  datatype View = View(
    cards: Cards,
    passengersTrend: seq<Bucket<CalendarDate>>,
    revenueByTicket: seq<Bucket<string>>,
    ticketShare: seq<Bucket<string>>,
    topStations: seq<Bucket<string>>,
    revenueTrend: seq<Bucket<CalendarDate>>,
    scatter: Scatter)

  /** The outputs computed from the filtered rows `dff`. */
  function Present(dff: seq<Trip>, money: real -> string, km: real -> string): View {
    View(
      Render(Summarize(dff), money, km),
      DailyTotals(dff, Passengers),
      RevenueByTicket(dff),
      TicketShare(dff),
      TopStationsChart(dff),
      DailyTotals(dff, Fare),
      ScatterChart(dff))
  }

  /**
   * `update_all(start_date, end_date, selected_stations, selected_tickets)`:
   * the outputs for the filtered rows, whose cards and tables agree with each
   * other.
   */
  method UpdateAll(dfTime: seq<Trip>, f: FilterState, money: real -> string, km: real -> string)
    returns (v: View)
    ensures v == Present(Selected(dfTime, f), money, km)
    ensures Numeral(v.cards.trips) && ParseThousands(v.cards.trips) == |Selected(dfTime, f)|
    ensures SumBy(v.ticketShare, SizeOf) == |Selected(dfTime, f)| as real
    ensures SumBy(v.revenueByTicket, TotalOf) == SumBy(v.revenueTrend, TotalOf) == SumNonNull(Selected(dfTime, f), Fare)
  {
    var dff := ApplyFilters(dfTime, f);
    var k := Summarize(dff);
    v := View(
      Render(k, money, km),
      DailyTotals(dff, Passengers),
      RevenueByTicket(dff),
      TicketShare(dff),
      TopStationsChart(dff),
      DailyTotals(dff, Fare),
      ScatterChart(dff));
    CountCardsReadBack(k, money, km);
    TicketShareSpec(dff);
    RevenueByTicketSpec(dff);
    TrendsMatchCards(dff);
  }

  /** With no rows left, the counts read 0, the averages "N/A", every table is empty and the scatter is the placeholder. */
  lemma EmptyView(money: real -> string, km: real -> string)
    ensures Present([], money, km) == View(Cards("0", "0", money(0.0), "N/A", "N/A"), [], [], [], [], [], NotEnoughData)
  {
    assert Digits(0) == "0";
    assert FormatThousands(0) == "0";
  }

  /** An inverted date range is not an error: it shows the empty view. */
  lemma InvertedRangeView(dfTime: seq<Trip>, f: FilterState, money: real -> string, km: real -> string)
    requires f.start.Some? && f.end.Some? && Ordinal(f.end.value) < Ordinal(f.start.value)
    ensures Present(Selected(dfTime, f), money, km) ==
      View(Cards("0", "0", money(0.0), "N/A", "N/A"), [], [], [], [], [], NotEnoughData)
  {
    InvertedRangeIsEmpty(dfTime, f);
    EmptyView(money, km);
  }

  /**
   * A file without a Fare column: revenue reads as 0 and the average fare as
   * "N/A"; the revenue table still has a row for each ticket type shown, with
   * total 0.
   */
  lemma NoFareColumn(raw: RawTable, parseDate: string -> Option<CalendarDate>, parseNumber: string -> Option<real>,
                     f: FilterState)
    requires raw.Rectangular() && raw.fare.None?
    ensures var dff := Selected(TimeView(CleanFrame(raw, parseDate, parseNumber)), f);
      && Summarize(dff).revenue == 0.0
      && Summarize(dff).avgFare == None
      && |RevenueByTicket(dff)| == |RowKeys(dff, TicketOf)|
      && TableKeys(RevenueByTicket(dff)) == RowKeys(dff, TicketOf)
      && forall b :: b in RevenueByTicket(dff) ==> b.total == 0.0
  {
    var df := CleanFrame(raw, parseDate, parseNumber);
    var dff := Selected(TimeView(df), f);
    SelectedMembers(TimeView(df), f);
    forall t | t in dff ensures t.fare.None? {
      TimeViewRow(df, t);
    }
    NoFareValues(dff);
    RevenueByTicketSpec(dff);
    forall b | b in RevenueByTicket(dff) ensures b.total == 0.0 {
      SumKeyOfNulls(dff, TicketOf, b.key, Fare);
    }
  }

  const FirstDay: CalendarDate := Date(2024, 1, 1)
  const SecondDay: CalendarDate := Date(2024, 1, 2)

  function SampleTrip(d: CalendarDate, fare: Option<real>, passengers: Option<real>, ticket: string, station: string): Trip {
    Trip(d, None, fare, passengers, ticket, station, MonthLabel(d), d)
  }

  /** Three trips, two of them by Smart Card and one of those with no fare. */
  const TripA := SampleTrip(FirstDay, Some(10.0), Some(2.0), "Smart Card", "A")
  const TripB := SampleTrip(FirstDay, Some(20.0), None, "Token", "B")
  const TripC := SampleTrip(SecondDay, None, Some(5.0), "Smart Card", "A")
  const SmartCardOnly := FilterState(None, None, None, Some(["Smart Card"]))

  lemma SampleSelection()
    ensures Selected([TripA, TripB, TripC], SmartCardOnly) == [TripA, TripC]
  {
    var a, b, c, f := TripA, TripB, TripC, SmartCardOnly;
    assert Init([a, b, c]) == [a, b] && Init([a, b]) == [a] && Init([a]) == [];
    assert Last([a, b, c]) == c && Last([a, b]) == b && Last([a]) == a;
    assert Matches(f, a) && Matches(f, c);
    assert "Token" != "Smart Card" && !Matches(f, b);
    assert Selected([a], f) == [a];
    assert Selected([a, b], f) == [a];
    assert Selected([a, b, c], f) == [a] + [c];
  }

  lemma SampleTotals()
    ensures Summarize([TripA, TripC]) == Summary(2, 7, 10.0, Some(10.0), None)
  {
    var a, c := TripA, TripC;
    assert a.fare == Some(10.0) && a.passengers == Some(2.0) && a.distance == None;
    assert c.fare == None && c.passengers == Some(5.0) && c.distance == None;
    assert Init([a, c]) == [a] && Last([a, c]) == c && Init([a]) == [] && Last([a]) == a;
    assert Value(a, Fare) == Some(10.0) && Value(a, Passengers) == Some(2.0) && Value(a, Distance) == None;
    assert Value(c, Fare) == None && Value(c, Passengers) == Some(5.0) && Value(c, Distance) == None;
    assert CountNonNull([], Fare) == 0 && CountNonNull([], Distance) == 0;
    assert SumNonNull([a], Passengers) == 2.0;
    assert SumNonNull([a], Fare) == 10.0;
    assert SumNonNull([a, c], Passengers) == 2.0 + 5.0;
    assert SumNonNull([a, c], Fare) == 10.0 + 0.0;
    assert CountNonNull([a], Fare) == 1 && CountNonNull([a], Distance) == 0;
    assert CountNonNull([a, c], Fare) == 1 && CountNonNull([a, c], Distance) == 0;
  }

  const DayOne := Bucket(FirstDay, 1, 2.0)
  const DayTwo := Bucket(SecondDay, 1, 5.0)

  lemma SampleGroups()
    ensures GroupBy([TripA, TripC], DayOf, Passengers) == [DayOne, DayTwo]
  {
    var a, c := TripA, TripC;
    assert a.passengers == Some(2.0) && c.passengers == Some(5.0);
    assert Init([a, c]) == [a] && Last([a, c]) == c && Init([a]) == [] && Last([a]) == a;
    assert FirstDay != SecondDay;
    assert DayOf(a) == FirstDay && DayOf(c) == SecondDay;
    assert Value(a, Passengers).GetOr(0.0) == 2.0 && Value(c, Passengers).GetOr(0.0) == 5.0;
    assert GroupBy([], DayOf, Passengers) == [];
    var g1 := GroupBy([a], DayOf, Passengers);
    assert g1 == AddRow([], FirstDay, 2.0) == [DayOne];
    assert g1[1..] == [] && AddRow(g1[1..], SecondDay, 5.0) == [DayTwo];
    assert AddRow(g1, SecondDay, 5.0) == [g1[0]] + AddRow(g1[1..], SecondDay, 5.0);
  }

  lemma SampleDaily()
    ensures DailyTotals([TripA, TripC], Passengers) == [DayOne, DayTwo]
  {
    SampleGroups();
    assert Ordinal(FirstDay) == 20240101 && Ordinal(SecondDay) == 20240102;
    assert DayOrder(DayOne) < DayOrder(DayTwo);
    SortAscSorted([DayOne, DayTwo], DayOrder);
  }

  /**
   * Selecting Smart Card in the three-trip sample leaves two trips, seven
   * passengers and revenue 10 (the missing fare is skipped), with passengers
   * 2 and 5 on the two days.
   */
  lemma SmartCardSample()
    ensures var dff := Selected([TripA, TripB, TripC], SmartCardOnly);
      && dff == [TripA, TripC]
      && Summarize(dff).trips == 2
      && Summarize(dff).passengers == 7
      && Summarize(dff).revenue == 10.0
      && DailyTotals(dff, Passengers) == [DayOne, DayTwo]
  {
    SampleSelection();
    SampleTotals();
    SampleDaily();
  }
}
