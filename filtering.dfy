/**
 * The filter part of `update_all`: an optional inclusive date window, then
 * the From_Station and Ticket_Type multi-selects. A selection that is `None`
 * or empty restricts nothing (the widgets' value is tested for truth).
 */
module Filtering {
  import opened Wrappers
  import opened Sequences
  import opened Calendar
  import opened Cleaning

  /** The value of a multi-select dropdown: `None` or the list of chosen labels. */
  type Selection = Option<seq<string>>

  /** `if selected:` in the source: only a non-empty list restricts. */
  predicate Restricts(sel: Selection) {
    sel.Some? && sel.value != []
  }

  /** A label passes a selection when the selection restricts nothing or lists the label (`isin`). */
  predicate Admits(sel: Selection, name: string) {
    !Restricts(sel) || name in sel.value
  }

  /** The four callback inputs; a missing date bound is `None`. */
  datatype FilterState = FilterState(
    start: Option<CalendarDate>,
    end: Option<CalendarDate>,
    stations: Selection,
    tickets: Selection)

  /** The filter state with every input cleared. */
  const NoFilter := FilterState(None, None, None, None)

  /** The conjunction of all four conditions the callback applies. */
  predicate Matches(f: FilterState, t: Trip) {
    && (f.start.Some? ==> OnOrBefore(f.start.value, t.date))
    && (f.end.Some? ==> OnOrBefore(t.date, f.end.value))
    && Admits(f.stations, t.station)
    && Admits(f.tickets, t.ticket)
  }

  /** The rows of `rows` that match `f`, in their original order. */
  function Selected(rows: seq<Trip>, f: FilterState): seq<Trip> {
    if rows == [] then []
    else Selected(Init(rows), f) + (if Matches(f, Last(rows)) then [Last(rows)] else [])
  }

  /** One boolean-mask step `dff = dff[mask]` of the callback. */
  datatype Step = OnOrAfterDay(from: CalendarDate) | OnOrBeforeDay(to: CalendarDate)
                | StationIn(stations: seq<string>) | TicketIn(tickets: seq<string>)

  predicate Passes(s: Step, t: Trip) {
    match s
    case OnOrAfterDay(d) => OnOrBefore(d, t.date)
    case OnOrBeforeDay(d) => OnOrBefore(t.date, d)
    case StationIn(names) => t.station in names
    case TicketIn(names) => t.ticket in names
  }

  function Keep(rows: seq<Trip>, s: Step): seq<Trip> {
    if rows == [] then []
    else Keep(Init(rows), s) + (if Passes(s, Last(rows)) then [Last(rows)] else [])
  }

  /** One mask step narrows what was selected so far to the next, narrower, filter state. */
  lemma {:induction false} KeepSelected(rows: seq<Trip>, g: FilterState, g': FilterState, s: Step)
    requires forall t :: Matches(g', t) == (Matches(g, t) && Passes(s, t))
    ensures Keep(Selected(rows, g), s) == Selected(rows, g')
  {
    if rows != [] {
      KeepSelected(Init(rows), g, g', s);
      var prev, x := Selected(Init(rows), g), Last(rows);
      assert Matches(g', x) == (Matches(g, x) && Passes(s, x));
      if Matches(g, x) {
        var cur := prev + [x];
        assert Selected(rows, g) == cur;
        assert Init(cur) == prev && Last(cur) == x;
        assert Keep(cur, s) == Keep(prev, s) + (if Passes(s, x) then [x] else []);
      } else {
        assert Selected(rows, g) == prev;
      }
    }
  }

  /** Two filter states that accept the same rows select the same rows. */
  lemma {:induction false} SelectedAgree(rows: seq<Trip>, g: FilterState, g': FilterState)
    requires forall t :: Matches(g', t) == Matches(g, t)
    ensures Selected(rows, g) == Selected(rows, g')
  {
    if rows != [] {
      SelectedAgree(Init(rows), g, g');
    }
  }

  /** With nothing set, the filter keeps every row. */
  lemma {:induction false} SelectAll(rows: seq<Trip>, f: FilterState)
    requires f.start.None? && f.end.None? && !Restricts(f.stations) && !Restricts(f.tickets)
    ensures Selected(rows, f) == rows
  {
    if rows != [] {
      SelectAll(Init(rows), f);
    }
  }

  /**
   * `update_all`'s filtering as written: start from `df_time` and apply each
   * given condition in turn; the result is exactly the rows matching all of them.
   */
  method ApplyFilters(dfTime: seq<Trip>, f: FilterState) returns (dff: seq<Trip>)
    ensures dff == Selected(dfTime, f)
  {
    SelectAll(dfTime, NoFilter);
    ghost var g := NoFilter;
    dff := dfTime;
    if f.start.Some? {
      dff := Keep(dff, OnOrAfterDay(f.start.value));
      KeepSelected(dfTime, g, g.(start := f.start), OnOrAfterDay(f.start.value));
    }
    g := g.(start := f.start);
    if f.end.Some? {
      dff := Keep(dff, OnOrBeforeDay(f.end.value));
      KeepSelected(dfTime, g, g.(end := f.end), OnOrBeforeDay(f.end.value));
    }
    g := g.(end := f.end);
    if Restricts(f.stations) {
      dff := Keep(dff, StationIn(f.stations.value));
      KeepSelected(dfTime, g, g.(stations := f.stations), StationIn(f.stations.value));
    } else {
      SelectedAgree(dfTime, g, g.(stations := f.stations));
    }
    g := g.(stations := f.stations);
    if Restricts(f.tickets) {
      dff := Keep(dff, TicketIn(f.tickets.value));
      KeepSelected(dfTime, g, f, TicketIn(f.tickets.value));
    } else {
      SelectedAgree(dfTime, g, f);
    }
  }

  /** A row is kept exactly when it is a row of the input that matches the filter. */
  lemma {:induction false} SelectedMembers(rows: seq<Trip>, f: FilterState)
    ensures forall t :: t in Selected(rows, f) <==> t in rows && Matches(f, t)
  {
    if rows != [] {
      SelectedMembers(Init(rows), f);
      assert rows == Init(rows) + [Last(rows)];
    }
  }

  /** Every matching row is kept as many times as it occurs, and no other row is kept. */
  lemma {:induction false} SelectedCounts(rows: seq<Trip>, f: FilterState)
    ensures forall t :: multiset(Selected(rows, f))[t] == (if Matches(f, t) then multiset(rows)[t] else 0)
  {
    if rows != [] {
      SelectedCounts(Init(rows), f);
      assert rows == Init(rows) + [Last(rows)];
    }
  }

  /** The result is an order-preserving subsequence of the input. */
  lemma {:induction false} SelectedSubsequence(rows: seq<Trip>, f: FilterState)
    ensures IsSubsequence(Selected(rows, f), rows)
  {
    if rows != [] {
      SelectedSubsequence(Init(rows), f);
      var prev := Selected(Init(rows), f);
      if Matches(f, Last(rows)) {
        assert Init(prev + [Last(rows)]) == prev;
      } else {
        assert Selected(rows, f) == prev;
      }
    }
  }

  lemma {:induction false} SelectedLength(rows: seq<Trip>, f: FilterState)
    ensures |Selected(rows, f)| <= |rows|
  {
    if rows != [] {
      SelectedLength(Init(rows), f);
    }
  }

  /** Every kept row lies inside each date bound that is given. */
  lemma SelectedWithinBounds(rows: seq<Trip>, f: FilterState)
    ensures forall t :: t in Selected(rows, f) ==>
      (f.start.Some? ==> Ordinal(f.start.value) <= Ordinal(t.date)) &&
      (f.end.Some? ==> Ordinal(t.date) <= Ordinal(f.end.value))
  {
    SelectedMembers(rows, f);
    forall t | t in Selected(rows, f)
      ensures f.start.Some? ==> Ordinal(f.start.value) <= Ordinal(t.date)
      ensures f.end.Some? ==> Ordinal(t.date) <= Ordinal(f.end.value)
    {
      if f.start.Some? { OrdinalOrder(f.start.value, t.date); }
      if f.end.Some? { OrdinalOrder(t.date, f.end.value); }
    }
  }

  /** A start date after the end date selects nothing; it is not an error. */
  lemma InvertedRangeIsEmpty(rows: seq<Trip>, f: FilterState)
    requires f.start.Some? && f.end.Some? && Ordinal(f.end.value) < Ordinal(f.start.value)
    ensures Selected(rows, f) == []
  {
    SelectedWithinBounds(rows, f);
    assert forall t :: t !in Selected(rows, f);
  }

  /** A non-empty station or ticket selection keeps only rows whose label it lists, and keeps all of those that pass the rest. */
  lemma SelectionSemantics(rows: seq<Trip>, f: FilterState, t: Trip)
    requires t in rows
    ensures Restricts(f.stations) && t in Selected(rows, f) ==> t.station in f.stations.value
    ensures Restricts(f.tickets) && t in Selected(rows, f) ==> t.ticket in f.tickets.value
    ensures Restricts(f.stations) && t.station in f.stations.value && t in Selected(rows, f.(stations := None)) ==>
      t in Selected(rows, f)
    ensures Restricts(f.tickets) && t.ticket in f.tickets.value && t in Selected(rows, f.(tickets := None)) ==>
      t in Selected(rows, f)
  {
    SelectedMembers(rows, f);
    SelectedMembers(rows, f.(stations := None));
    SelectedMembers(rows, f.(tickets := None));
  }

  /** An empty selection means "all", the same as no selection. */
  lemma EmptySelectionIsAll(rows: seq<Trip>, f: FilterState)
    ensures Selected(rows, f.(stations := Some([]))) == Selected(rows, f.(stations := None))
    ensures Selected(rows, f.(tickets := Some([]))) == Selected(rows, f.(tickets := None))
  {
    SelectedAgree(rows, f.(stations := None), f.(stations := Some([])));
    SelectedAgree(rows, f.(tickets := None), f.(tickets := Some([])));
  }

  /** Filtering a second time with a filter at least as strict is the same as filtering once with it. */
  lemma {:induction false} SelectedNarrowing(rows: seq<Trip>, f: FilterState, g: FilterState)
    requires forall t :: Matches(g, t) ==> Matches(f, t)
    ensures Selected(Selected(rows, f), g) == Selected(rows, g)
  {
    if rows != [] {
      SelectedNarrowing(Init(rows), f, g);
      var prev, x := Selected(Init(rows), f), Last(rows);
      if Matches(f, x) {
        var cur := prev + [x];
        assert Selected(rows, f) == cur;
        assert Init(cur) == prev && Last(cur) == x;
        assert Selected(cur, g) == Selected(prev, g) + (if Matches(g, x) then [x] else []);
      } else {
        assert !Matches(g, x);
        assert Selected(rows, f) == prev;
      }
    }
  }

  /** Applying the same filter twice changes nothing. */
  lemma SelectedIdempotent(rows: seq<Trip>, f: FilterState)
    ensures Selected(Selected(rows, f), f) == Selected(rows, f)
  {
    SelectedNarrowing(rows, f, f);
  }

  /** A stricter filter never keeps more rows. */
  lemma SelectedMonotone(rows: seq<Trip>, f: FilterState, g: FilterState)
    requires forall t :: Matches(g, t) ==> Matches(f, t)
    ensures |Selected(rows, g)| <= |Selected(rows, f)|
  {
    SelectedNarrowing(rows, f, g);
    SelectedLength(Selected(rows, f), g);
  }

  /** Choosing stations where none were chosen never increases the row count. */
  lemma AddingStationRestriction(rows: seq<Trip>, f: FilterState, stations: seq<string>)
    requires !Restricts(f.stations)
    ensures |Selected(rows, f.(stations := Some(stations)))| <= |Selected(rows, f)|
  {
    SelectedMonotone(rows, f, f.(stations := Some(stations)));
  }

  /** Choosing ticket types where none were chosen never increases the row count. */
  lemma AddingTicketRestriction(rows: seq<Trip>, f: FilterState, tickets: seq<string>)
    requires !Restricts(f.tickets)
    ensures |Selected(rows, f.(tickets := Some(tickets)))| <= |Selected(rows, f)|
  {
    SelectedMonotone(rows, f, f.(tickets := Some(tickets)));
  }
}
