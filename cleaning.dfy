/**
 * The cleaning stage that runs once at start-up: type coercion of the raw
 * columns, ticket-type and station normalisation, and the time-aggregable
 * view `df_time` (dated rows only, with the `Month` and `Day` helper columns).
 *
 * The CSV reader and the parsers inside `pd.to_datetime` and `pd.to_numeric`
 * are foreign code; they enter as the parameters `parseDate` and
 * `parseNumber`, applied to the text of a non-empty cell.
 */
module Cleaning {
  import opened Wrappers
  import opened Text
  import opened Calendar

  /** A cell as the CSV reader delivers it: empty (NaN) or some text. */
  datatype RawCell = Missing | Cell(text: string)

  /**
   * The table as loaded, column by column. `Date`, `Ticket_Type` and
   * `From_Station` are always read; the three numeric columns may be absent
   * from the file (`None`).
   */
  datatype RawTable = RawTable(
    date: seq<RawCell>,
    distance: Option<seq<RawCell>>,
    fare: Option<seq<RawCell>>,
    passengers: Option<seq<RawCell>>,
    ticket: seq<RawCell>,
    station: seq<RawCell>)
  {
    /** Every column present has one cell per row. */
    predicate Rectangular() {
      && (distance.Some? ==> |distance.value| == |date|)
      && (fare.Some? ==> |fare.value| == |date|)
      && (passengers.Some? ==> |passengers.value| == |date|)
      && |ticket| == |date|
      && |station| == |date|
    }
  }

  /** The cleaned table `df`: every column coerced, every row kept. */
  datatype Frame = Frame(
    date: seq<Option<CalendarDate>>,
    distance: seq<Option<real>>,
    fare: seq<Option<real>>,
    passengers: seq<Option<real>>,
    ticket: seq<string>,
    station: seq<string>)
  {
    predicate Rectangular() {
      |distance| == |fare| == |passengers| == |ticket| == |station| == |date|
    }
  }

  /** A row of `df_time`: a dated trip with its `Month` and `Day` helper columns. */
  datatype Trip = Trip(
    date: CalendarDate,
    distance: Option<real>,
    fare: Option<real>,
    passengers: Option<real>,
    ticket: string,
    station: string,
    month: string,
    day: CalendarDate)

  /** `pd.to_datetime(..., errors="coerce")` on one cell: unparseable or empty becomes null. */
  function ToDate(c: RawCell, parseDate: string -> Option<CalendarDate>): Option<CalendarDate> {
    match c
    case Missing => None
    case Cell(t) => parseDate(t)
  }

  /** `pd.to_numeric(..., errors="coerce")` on one cell. */
  function ToNumber(c: RawCell, parseNumber: string -> Option<real>): Option<real> {
    match c
    case Missing => None
    case Cell(t) => parseNumber(t)
  }

  /**
   * `pd.to_numeric(df.get(name, pd.Series()), errors="coerce")`: a column of
   * `n` values or nulls; a column missing from the file becomes all null.
   */
  function NumericColumn(col: Option<seq<RawCell>>, n: nat, parseNumber: string -> Option<real>): (r: seq<Option<real>>)
    requires col.Some? ==> |col.value| == n
    ensures |r| == n
    ensures col.None? ==> forall i :: 0 <= i < n ==> r[i] == None
    ensures col.Some? ==> forall i :: 0 <= i < n ==> r[i] == ToNumber(col.value[i], parseNumber)
  {
    match col
    case None => seq(n, _ => None)
    case Some(cells) => seq(n, i requires 0 <= i < n => ToNumber(cells[i], parseNumber))
  }

  /** `astype(str)`: an empty cell is the NaN float, whose text is "nan". */
  function AsText(c: RawCell): string {
    match c
    case Missing => "nan"
    case Cell(t) => t
  }

  /**
   * The ticket-type cleaning `astype(str).str.strip().replace({"nan": "Unknown"})`:
   * the stripped text, except that exactly "nan" becomes "Unknown".
   */
  function NormalizeTicket(c: RawCell): (t: string)
    ensures Trimmed(t) && t != "nan"
    ensures Strip(AsText(c)) == "nan" ==> t == "Unknown"
    ensures Strip(AsText(c)) != "nan" ==> t == Strip(AsText(c))
  {
    StripSpec(AsText(c));
    var s := Strip(AsText(c));
    if s == "nan" then "Unknown" else s
  }

  /** The cleaned table, column by column (`app.py` lines 20-27). */
  function CleanFrame(raw: RawTable, parseDate: string -> Option<CalendarDate>, parseNumber: string -> Option<real>): (df: Frame)
    requires raw.Rectangular()
    ensures df.Rectangular() && |df.date| == |raw.date|
    ensures forall i :: 0 <= i < |raw.date| ==> df.date[i] == ToDate(raw.date[i], parseDate)
    ensures forall i :: 0 <= i < |raw.date| ==> df.ticket[i] == NormalizeTicket(raw.ticket[i])
    ensures forall i :: 0 <= i < |raw.date| ==> Trimmed(df.ticket[i]) && df.ticket[i] != "nan"
    ensures df.distance == NumericColumn(raw.distance, |raw.date|, parseNumber)
    ensures df.fare == NumericColumn(raw.fare, |raw.date|, parseNumber)
    ensures df.passengers == NumericColumn(raw.passengers, |raw.date|, parseNumber)
    ensures forall i :: 0 <= i < |raw.date| ==> df.station[i] == AsText(raw.station[i])
    ensures raw.distance.None? ==> forall i :: 0 <= i < |raw.date| ==> df.distance[i] == None
    ensures raw.fare.None? ==> forall i :: 0 <= i < |raw.date| ==> df.fare[i] == None
    ensures raw.passengers.None? ==> forall i :: 0 <= i < |raw.date| ==> df.passengers[i] == None
  {
    var n := |raw.date|;
    Frame(
      seq(n, i requires 0 <= i < n => ToDate(raw.date[i], parseDate)),
      NumericColumn(raw.distance, n, parseNumber),
      NumericColumn(raw.fare, n, parseNumber),
      NumericColumn(raw.passengers, n, parseNumber),
      seq(n, i requires 0 <= i < n => NormalizeTicket(raw.ticket[i])),
      seq(n, i requires 0 <= i < n => AsText(raw.station[i])))
  }

  /** The positions below `k` whose date parsed, in increasing order. */
  function DatedPositions(dates: seq<Option<CalendarDate>>, k: nat): (idx: seq<nat>)
    requires k <= |dates|
    ensures forall j :: 0 <= j < |idx| ==> idx[j] < k && dates[idx[j]].Some?
    ensures forall j, j' :: 0 <= j < j' < |idx| ==> idx[j] < idx[j']
    ensures forall i :: 0 <= i < k && dates[i].Some? ==> i in idx
  {
    if k == 0 then []
    else DatedPositions(dates, k - 1) + (if dates[k - 1].Some? then [k - 1] else [])
  }

  /** Row `i` of `df` as a `df_time` row, with `Month` and `Day` derived from its date. */
  function TripAt(df: Frame, i: nat): (t: Trip)
    requires df.Rectangular() && i < |df.date| && df.date[i].Some?
    ensures t.date == df.date[i].value && t.day == t.date
    ensures t.month == MonthLabel(t.date)
    ensures t.distance == df.distance[i] && t.fare == df.fare[i] && t.passengers == df.passengers[i]
    ensures t.ticket == df.ticket[i] && t.station == df.station[i]
  {
    var d := df.date[i].value;
    Trip(d, df.distance[i], df.fare[i], df.passengers[i], df.ticket[i], df.station[i], MonthLabel(d), d)
  }

  /**
   * `df_time = df.dropna(subset=["Date"])` with the helper columns
   * (`app.py` lines 30-34): the dated rows of `df`, in their original order.
   */
  function TimeView(df: Frame): seq<Trip>
    requires df.Rectangular()
  {
    var idx := DatedPositions(df.date, |df.date|);
    seq(|idx|, j requires 0 <= j < |idx| => TripAt(df, idx[j]))
  }

  /**
   * `df_time` holds exactly the dated rows of `df`, in order: it is `df`
   * read at a strictly increasing list of positions that contains every
   * position whose date parsed and no other.
   */
  lemma TimeViewSpec(df: Frame)
    requires df.Rectangular()
    ensures var v := TimeView(df);
      exists idx: seq<nat> ::
        && |idx| == |v|
        && (forall j, j' :: 0 <= j < j' < |idx| ==> idx[j] < idx[j'])
        && (forall j :: 0 <= j < |idx| ==> idx[j] < |df.date| && df.date[idx[j]].Some? && v[j] == TripAt(df, idx[j]))
        && (forall i :: 0 <= i < |df.date| && df.date[i].Some? ==> i in idx)
  {
    var idx := DatedPositions(df.date, |df.date|);
    assert |idx| == |TimeView(df)|;
  }

  /** Every row of `df_time` is a dated row of `df`. */
  lemma TimeViewRow(df: Frame, t: Trip)
    requires df.Rectangular() && t in TimeView(df)
    ensures exists i :: 0 <= i < |df.date| && df.date[i].Some? && t == TripAt(df, i)
  {
    var idx := DatedPositions(df.date, |df.date|);
    var j :| 0 <= j < |TimeView(df)| && TimeView(df)[j] == t;
    assert t == TripAt(df, idx[j]);
  }

  /**
   * The whole cleaning stage, as the script runs it: the columns of `df`
   * are overwritten one after another, then `df_time` is cut from `df`.
   */
  method Clean(raw: RawTable, parseDate: string -> Option<CalendarDate>, parseNumber: string -> Option<real>)
    returns (df: Frame, dfTime: seq<Trip>)
    requires raw.Rectangular()
    ensures df == CleanFrame(raw, parseDate, parseNumber)
    ensures dfTime == TimeView(df)
    ensures forall t :: t in dfTime ==> Trimmed(t.ticket) && t.ticket != "nan"
    ensures forall t :: t in dfTime ==> t.day == t.date && t.month == MonthLabel(t.date)
    ensures raw.fare.None? ==> forall t :: t in dfTime ==> t.fare == None
    ensures raw.distance.None? ==> forall t :: t in dfTime ==> t.distance == None
    ensures raw.passengers.None? ==> forall t :: t in dfTime ==> t.passengers == None
  {
    var n := |raw.date|;
    var dates := seq(n, i requires 0 <= i < n => ToDate(raw.date[i], parseDate));
    var distance := NumericColumn(raw.distance, n, parseNumber);
    var fare := NumericColumn(raw.fare, n, parseNumber);
    var passengers := NumericColumn(raw.passengers, n, parseNumber);
    var tickets := seq(n, i requires 0 <= i < n => NormalizeTicket(raw.ticket[i]));
    var stations := seq(n, i requires 0 <= i < n => AsText(raw.station[i]));
    df := Frame(dates, distance, fare, passengers, tickets, stations);
    assert df == CleanFrame(raw, parseDate, parseNumber);
    dfTime := TimeView(df);
    forall t | t in dfTime
      ensures Trimmed(t.ticket) && t.ticket != "nan"
      ensures raw.fare.None? ==> t.fare == None
      ensures raw.distance.None? ==> t.distance == None
      ensures raw.passengers.None? ==> t.passengers == None
    {
      TimeViewRow(df, t);
    }
  }

  /** A label that is already clean comes through the ticket cleaning unchanged. */
  lemma NormalizeTicketKeepsClean(s: string)
    requires Trimmed(s) && s != "nan"
    ensures NormalizeTicket(Cell(s)) == s
  {
    StripTrimmed(s);
  }

  /** Cleaning the ticket type twice is cleaning it once. */
  lemma NormalizeTicketIdempotent(c: RawCell)
    ensures NormalizeTicket(Cell(NormalizeTicket(c))) == NormalizeTicket(c)
  {
    NormalizeTicketKeepsClean(NormalizeTicket(c));
  }

  /** Empty cells and cells reading "nan" (after stripping) become "Unknown". */
  lemma NanTicketIsUnknown(c: RawCell)
    requires c.Missing? || Strip(c.text) == "nan"
    ensures NormalizeTicket(c) == "Unknown"
  {
    if c.Missing? {
      StripTrimmed("nan");
    }
  }

  /** A blank ticket type is not replaced: it becomes the empty string, not "Unknown". */
  lemma BlankTicketStaysEmpty(s: string)
    requires forall i :: 0 <= i < |s| ==> IsSpace(s[i])
    ensures NormalizeTicket(Cell(s)) == ""
  {
    StripSpec(s);
  }
}
