# Delhi Metro analytics dashboard: a verified model of its data core

The dashboard reads a CSV of metro trips and cleans it once at start-up. On
every change of its four filter widgets, the callback `update_all` filters the
cleaned rows and reports five KPI cards and six charts. The widgets are a
start date, an end date, a boarding-station multi-select and a ticket-type
multi-select. This project models in Dafny the cleaning stage, the filter,
the KPIs and their card texts, and the tables behind the charts, and proves
what each promises.

Modules and files:

- `wrappers.dfy` (`Wrappers`) and `sequences.dfy` (`Sequences`): `Option`; the
  `Init`/`Last` accessors the row folds are written with; distinct keys, a
  column sum over a table, and order-preserving subsequences.
- `text.dfy` (`Text`): Python's `str.strip` over Python's whitespace set, and
  `f"{n:,}"` thousands grouping with a proved read-back.
- `calendar.dfy` (`Calendar`): calendar dates, their order (an integer key
  `yyyymmdd`), and the `YYYY-MM` month label.
- `cleaning.dfy` (`Cleaning`): the raw table, type coercion, ticket and
  station normalisation, and `df_time`. The method `Clean` builds the columns
  in the order the script overwrites them.
- `measures.dfy` (`Measures`): pandas' null-skipping `sum`, `count` and
  `mean`.
- `grouping.dfy` (`Grouping`): one generic `groupby(key)` pass, giving one
  bucket per key with its row count and column sum.
- `sorting.dfy` (`Sorting`): `sort_values` as an insertion sort by a weight.
- `filtering.dfy` (`Filtering`): the filter. `ApplyFilters` rebinds `dff`
  step by step, as the callback does.
- `kpis.dfy` (`Kpis`): the five figures and the card texts.
- `charts.dfy` (`Charts`): the six chart tables.
- `dashboard.dfy` (`Dashboard`): the whole callback, `UpdateAll`, plus
  concrete scenarios.

Foreign code enters as parameters, not as models:
- `parseDate: string -> Option<CalendarDate>` stands for the parser inside
  `pd.to_datetime(errors="coerce")`.
- `parseNumber: string -> Option<real>` stands for the parser inside
  `pd.to_numeric(errors="coerce")`.
- `money, km: real -> string` stand for the float renderings `f"₹ {x:,.2f}"`
  and `f"{x:.2f} km"`.

Values are exact reals. A NaN result is `None`.

The model follows pandas 2.x. There `astype(str)` turns a missing cell into
the text `nan`, which the ticket clean-up then maps to `Unknown`. pandas 3's
default string dtype keeps the missing value instead.

Behaviour worth noting:
- Blank ticket type. A blank `Ticket_Type` strips to the empty string and is
  kept as `""`; only the text `nan` becomes `Unknown`. See
  `Cleaning.BlankTicketStaysEmpty`.
- Missing `Fare` column. Cleaning creates the column anyway, all null. So the
  `"Fare" in dff` tests always hold, revenue is `0` rather than unavailable,
  and average fare is `N/A`. The revenue-by-ticket table is not empty: it has
  one row of total `0` per ticket type. See `Dashboard.NoFareColumn`.
- The `"N/A"` passenger card and the "No Fare column available" charts. Their
  branches can never run, for the same reason, so they are not modelled.

## Model

| member | source | states |
|---|---|---|
| Text.Strip | app.py:26 | `str.strip()`: the text with leading and trailing whitespace removed (no contract; characterised by `Text.StripSpec`) |
| Text.StripSpec | app.py:26 | `str.strip()` returns a substring of its input with no whitespace at either end, and everything cut off is whitespace |
| Text.StripIdempotent | app.py:26 | stripping twice is stripping once |
| Text.FormatThousands | app.py:217-218 | `f"{n:,}"` consists only of digits, commas and a leading minus sign |
| Text.FormatThousandsSpec | app.py:217-218 | `f"{n:,}"` starts with a minus exactly when `n < 0`, its digits are grouped in threes from the right with commas, it has no leading zero, and reading it back gives `n` |
| Calendar.OrdinalOrder | app.py:198-201 | the integer key of a date orders dates exactly as the calendar does, and two dates have the same key only when they are the same date |
| Calendar.MonthLabel | app.py:33 | the `Month` label `to_period("M")` is seven characters: four digits, `-`, two digits |
| Calendar.MonthLabelReadsBack | app.py:33 | the label's first four digits read back as the year and its last two as the month |
| Cleaning.ToDate | app.py:20 | `to_datetime(errors="coerce")` on one cell: the parser's day for a text cell, null for an empty cell or an unparsable text (no contract) |
| Cleaning.ToNumber | app.py:21-23 | `to_numeric(errors="coerce")` on one cell: the parser's number, or null (no contract) |
| Cleaning.NumericColumn | app.py:21-23 | each numeric cell is coerced separately; a column the file lacks becomes a column of nulls of the table's length |
| Cleaning.AsText | app.py:26-27 | `astype(str)` on one cell: its text, and `nan` for an empty cell (no contract) |
| Cleaning.NormalizeTicket | app.py:26 | a cleaned ticket type is trimmed and never `nan`; text that strips to `nan` becomes `Unknown`, anything else becomes its stripped text |
| Cleaning.CleanFrame | app.py:20-27 | the cleaned table keeps every row. Its dates are the coerced date cells, and each numeric column is its coerced column, all null when absent. Each ticket is its cell cleaned, so trimmed and never `nan`, and each station is its cell's `str()` text |
| Cleaning.DatedPositions | app.py:30 | the positions with a parsed date, strictly increasing, each of them and no other |
| Cleaning.TripAt | app.py:30-34 | a `df_time` row carries the values of its `df` row, with `Day` equal to its date and `Month` equal to its month label |
| Cleaning.TimeView | app.py:30-34 | `df_time`: the dated rows of the cleaned table, in order, each with its `Month` and `Day` (no contract; characterised by `Cleaning.TimeViewSpec`) |
| Cleaning.TimeViewSpec | app.py:30 | `df_time` is `df` read at a strictly increasing list of positions covering exactly the rows whose date parsed |
| Cleaning.TimeViewRow | app.py:30 | every row of `df_time` is a dated row of `df` |
| Cleaning.Clean | app.py:20-34 | the cleaning stage produces the cleaned table and `df_time`. Every `df_time` row has a clean ticket type and consistent `Day` and `Month`, and a numeric column the file lacks is null in every row |
| Cleaning.NormalizeTicketKeepsClean | app.py:26 | a trimmed label other than `nan` is left unchanged |
| Cleaning.NormalizeTicketIdempotent | app.py:26 | cleaning a ticket type twice is cleaning it once |
| Cleaning.NanTicketIsUnknown | app.py:26 | an empty cell, or a cell that strips to `nan`, becomes `Unknown` |
| Cleaning.BlankTicketStaysEmpty | app.py:26 | a blank ticket type becomes `""`, not `Unknown` |
| Measures.SumNonNull | app.py:211-212 | `sum(skipna=True)`: the sum of the column's present values (no contract) |
| Measures.CountNonNull | app.py:213-214 | the number of present values in a column (no contract) |
| Measures.Mean | app.py:213-214 | `mean(skipna=True)`: the sum over the count, or NaN when the count is 0 (no contract; characterised by `Measures.MeanUnavailable` and `Measures.MeanTimesCount`) |
| Measures.CountNonNullZero | app.py:213-214 | a column's non-null count is 0 exactly when every value is null |
| Measures.SumOfNulls | app.py:211-212 | `sum(skipna=True)` over only nulls is 0 |
| Measures.MeanUnavailable | app.py:213-214 | `mean(skipna=True)` is NaN exactly when there is no non-null value |
| Measures.MeanTimesCount | app.py:213-214 | an available mean times the count of non-null values is their sum |
| Measures.SumAppend | app.py:211-212 | null-skipping sums and counts add up over concatenated rows |
| Sorting.SortDesc | app.py:231 | `sort_values(ascending=False)` returns a permutation of the rows, in non-increasing order of the sort column |
| Sorting.SortAsc | app.py:248 | `sort_values()` returns a permutation of the rows, in non-decreasing order of the sort column |
| Sorting.SortDescSorted | app.py:231 | rows already in strictly decreasing order, so without ties, come out unchanged; this holds of any correct sort |
| Sorting.SortAscSorted | app.py:248 | rows already in strictly increasing order, so without ties, come out unchanged; this holds of any correct sort |
| Sorting.SortDescSum | app.py:231 | sorting does not change a column's total |
| Sorting.SortDescDistinct | app.py:231 | sorting keeps the keys of a table distinct |
| Grouping.GroupBy | app.py:224 | `groupby(key)[c].sum()` with the group sizes: one bucket per key holding its row count and its column sum (no contract; characterised by `Grouping.GroupLookup` and the rows below) |
| Grouping.GroupLookup | app.py:224 | the `groupby` bucket for a key exists exactly when some row has that key. It holds that key's row count and sum |
| Grouping.GroupDistinct | app.py:231 | no two `groupby` buckets share a key |
| Grouping.GroupKeys | app.py:239 | the bucket keys are exactly the keys occurring in the rows |
| Grouping.GroupCount | app.py:239 | there is one bucket per distinct key |
| Grouping.GroupBuckets | app.py:231 | every bucket holds at least one row, and exactly its key's count and sum |
| Grouping.GroupSums | app.py:231 | the bucket sums add up to the column's null-skipping sum, and the bucket counts to the number of rows |
| Grouping.SumKeyOfNulls | app.py:231 | a group's sum over a column of nulls is 0 |
| Filtering.Matches | app.py:198-207 | a row satisfies every given condition (no contract) |
| Filtering.Selected | app.py:197-207 | the rows that satisfy every given condition, in order (no contract; characterised by `Filtering.SelectedCounts` and `Filtering.SelectedSubsequence`) |
| Filtering.Keep | app.py:199-207 | one boolean mask `dff[mask]` applied to the rows (no contract) |
| Filtering.ApplyFilters | app.py:196-207 | applying the four conditions one after another, each only when its input is given, keeps exactly the rows matching all given conditions, in order |
| Filtering.KeepSelected | app.py:198-207 | each mask step narrows the rows selected so far to those of the narrower filter |
| Filtering.SelectAll | app.py:196-207 | with no date given and empty or absent selections, every row is kept |
| Filtering.SelectedMembers | app.py:198-207 | a row is kept exactly when it is an input row matching every given condition |
| Filtering.SelectedCounts | app.py:198-207 | a matching row is kept exactly as many times as it occurs in the input, and a row that does not match is never kept |
| Filtering.SelectedSubsequence | app.py:198-207 | the kept rows are an order-preserving subsequence of the input |
| Filtering.SelectedLength | app.py:198-207 | filtering never adds rows |
| Filtering.SelectedWithinBounds | app.py:198-201 | every kept row's date lies within each given bound, both bounds inclusive |
| Filtering.InvertedRangeIsEmpty | app.py:198-201 | a start date after the end date keeps no rows |
| Filtering.SelectionSemantics | app.py:204-207 | with a non-empty station or ticket selection, only rows whose value is listed are kept, and a listed row is kept whenever it passes the other conditions |
| Filtering.EmptySelectionIsAll | app.py:204-207 | an empty selection filters the same as no selection |
| Filtering.SelectedNarrowing | app.py:198-207 | filtering a filtered result with a stricter filter equals filtering once with the stricter one |
| Filtering.SelectedIdempotent | app.py:198-207 | filtering twice with the same inputs equals filtering once |
| Filtering.SelectedMonotone | app.py:198-207 | a stricter filter never keeps more rows |
| Filtering.AddingStationRestriction | app.py:204-205 | choosing stations where none were chosen never raises the row count |
| Filtering.AddingTicketRestriction | app.py:206-207 | choosing ticket types where none were chosen never raises the row count |
| Kpis.Trunc | app.py:211 | `int()` truncates toward zero: the result is within 1 of the value, on the zero side |
| Kpis.Summarize | app.py:210 | the trip count is the number of filtered rows |
| Kpis.SummaryOfNothing | app.py:210-214 | with no rows, trips, passengers and revenue are 0 and both averages are NaN |
| Kpis.PassengersSkipNulls | app.py:211 | the passenger total is 0 when every count is null, and exactly the sum of the present counts when they are whole numbers |
| Kpis.AveragesUnavailable | app.py:213-214 | each average is NaN exactly when no filtered row has a value in its column |
| Kpis.AverageFareTimesCount | app.py:212-213 | the average fare times the number of fares is the revenue |
| Kpis.AverageDistanceTimesCount | app.py:214 | the average distance times the number of distances is their sum |
| Kpis.NoFareValues | app.py:212-213 | with no fare values, revenue is 0 and the average fare is NaN |
| Kpis.SelectedSumBound | app.py:197-212 | with non-negative values, a filtered column total never exceeds the unfiltered one |
| Kpis.FilteringShrinksTotals | app.py:197-212 | filtering never raises the trip count. With non-negative fares and passenger counts it never raises revenue or passengers either |
| Kpis.Render | app.py:217-221 | the five card texts: counts via `f"{n:,}"`, revenue with the money rendering, `N/A` for a NaN average (no contract; characterised by the two rows below) |
| Kpis.CountCardsReadBack | app.py:217-218 | the trips and passengers cards read back, without their commas, as the numbers they show |
| Kpis.UnavailableCards | app.py:219-221 | given float renderings that never print `N/A`, an average card reads `N/A` exactly when its average is NaN, and the revenue card never does |
| Charts.GroupTabulates | app.py:224 | one `groupby` pass yields a table with one bucket per distinct key, holding its count and sum, that accounts for every row and the column total |
| Charts.SortDescTabulates | app.py:231 | sorting descending keeps all of that |
| Charts.SortAscTabulates | app.py:224 | sorting ascending keeps all of that |
| Charts.DailyTotals | app.py:224 | the per-day table of a column (line 224 for passengers, line 254 for fares): the date groups in date order (no contract; characterised by `Charts.DailyTotalsSpec`) |
| Charts.DailyTotalsSpec | app.py:224 | `groupby("Date")[c].sum()` has one row per day on which trips were made. The rows are in strictly increasing date order, and each holds that day's total |
| Charts.TrendsMatchCards | app.py:224 | the passengers trend (line 224) sums to the passenger card, and the revenue trend (line 254) to the revenue card |
| Charts.RevenueByTicket | app.py:231 | fare totals per ticket type, largest first (no contract) |
| Charts.RevenueByTicketSpec | app.py:231 | revenue by ticket type has one row per ticket type, with its fare total, in non-increasing order of revenue, summing to the revenue card |
| Charts.TicketShare | app.py:239 | trip counts per ticket type, most frequent first (no contract) |
| Charts.TicketShareSpec | app.py:239 | `value_counts()` of ticket types gives one row per type with its trip count, most frequent first, summing to the trip count |
| Charts.StationCounts | app.py:246 | boarding counts per station, most frequent first (no contract) |
| Charts.TopStations | app.py:246 | the first ten rows of the station counts, or all of them (no contract) |
| Charts.StationCountsSpec | app.py:246 | station `value_counts()` gives one row per station with its boarding count, most frequent first |
| Charts.TopStationsCount | app.py:246 | `nlargest(10)` keeps ten stations, or all of them when there are fewer |
| Charts.TopStationsKept | app.py:246 | the kept stations are distinct stations of the rows, each with its boarding count |
| Charts.TopStationsLargest | app.py:246 | a station left out has no more boardings than any station kept |
| Charts.TopStationsChart | app.py:248 | the top stations re-sorted by increasing count (no contract) |
| Charts.TopStationsChartSpec | app.py:248 | the bar chart shows the same stations and counts, in non-decreasing order of count |
| Charts.ScatterRows | app.py:261 | `dropna(subset=["Passengers", "Distance_km"], how="any")`: the rows with both values, in order (no contract; characterised by `Charts.ScatterCounts` and `Charts.ScatterRowsOrder`) |
| Charts.ScatterChart | app.py:261-269 | the scatter's rows, or the placeholder when there are none (no contract) |
| Charts.ScatterRowsMembers | app.py:261 | a row is plotted exactly when it has both a passenger count and a distance |
| Charts.ScatterCounts | app.py:261 | a row with both values is plotted exactly as many times as it occurs, and no other row is plotted |
| Charts.ScatterRowsOrder | app.py:261 | the plotted rows keep their order |
| Charts.ScatterPlaceholder | app.py:261-262 | the placeholder chart is shown exactly when no row has both values |
| Dashboard.Present | app.py:209-283 | the callback's eleven outputs computed from the filtered rows: five card texts and six tables (no contract; characterised by `Dashboard.UpdateAll` and the scenario rows) |
| Dashboard.UpdateAll | app.py:195-283 | the callback's output is computed from the filtered rows. Its trips card reads back as their count, the ticket share counts add up to that count, and revenue by ticket type and the revenue trend both total the filtered revenue |
| Dashboard.EmptyView | app.py:210-262 | with no rows, the counts read `0`, the averages `N/A`, every table is empty and the scatter is the placeholder |
| Dashboard.InvertedRangeView | app.py:198-201 | an inverted date range produces that empty view rather than an error |
| Dashboard.NoFareColumn | app.py:22 | a file with no `Fare` column shows revenue 0 and average fare `N/A`, with a revenue table row of total 0 for each ticket type present |
| Dashboard.SmartCardSample | app.py:206-224 | three sample trips filtered to Smart Card give 2 trips, 7 passengers, revenue 10 and daily passengers 2 and 5 |

## Left out

- The Dash layout, the widgets, the callback wiring and the server are not modelled: they are I/O.
- Reading the CSV (`pd.read_csv`) and its type inference are not modelled. Every cell arrives as text or as an empty cell. The `Date`, `Ticket_Type` and `From_Station` columns are taken as present.
- The parsers inside `pd.to_datetime` and `pd.to_numeric` are parameters, not models. Time of day is not modelled: a parsed date is a calendar day, so grouping by `Date` groups by day.
- Plotly figures and their styling are left out. Only the tables they draw are modelled.
- Floating point is left out: values are exact reals, and the two-decimal money and kilometre renderings are parameters.
- Sorting.SortDesc, Sorting.SortAsc: no order is asserted among rows with equal sort value. pandas' default sort and `nlargest` do not promise the stable order the model happens to produce.
- In-place column assignment is modelled as building the new value and rebinding it. No aliasing of pandas objects is modelled.
