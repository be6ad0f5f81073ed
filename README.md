# S&P 500 dashboard: cleaning and presentation logic in Dafny

This project models the data logic of a small S&P 500 dashboard. The logic has two parts.

**The cleaning script** (`scraping/data_cleaning.py`) reads eight spreadsheet tables. It then:
- selects and renames the five weekly price columns and reverses the weekly rows;
- rewrites every `Date` column as `YYYY-MM-DD` text;
- strips decoration from three value columns (everything but `[0-9.]` from PE ratios, `" trillion"` from GDP, `"%"` from inflation) and parses what is left as a float;
- sorts every table by `Date` in place and makes `Date` the index.

**The dashboard's `load_data` and view code** (`dashboard/app.py`):
- sorts the weekly rows by date;
- computes the weekly percent change of `Close`;
- classifies it into twelve movement labels with `pd.cut`, with a default label for the first row;
- colours each label green or red and renders the date as text;
- filters the rows from a start date that depends on the selected time range;
- for the Table view, projects seven columns and sorts them newest first by the date text.

Modules:

- `Wrappers`, `Sequences`: `Option`, `IndexOf`, boolean-mask row selection (`Filter`), reversal, and an in-place insertion sort on an array. The sort is proved sorted and a permutation for any total preorder.
- `Strings`: Python's ordering of `str` (`<`), the substring test `in`, and decimal digits.
- `Calendar`: proleptic Gregorian dates, day numbers (`Ordinal`, as in `date.toordinal`), `strftime('%Y-%m-%d')` and reading it back. It also proves that string order on the formatted dates is chronological order.
- `NumericText`: the three strip transforms and Python's `float()` on the text they leave, over exact rationals.
- `Frames`: a pandas-like table of cells with a row index. `class DataFrame` has one method per in-place pandas step: select columns, rename, `iloc[::-1].reset_index(drop=True)`, column assignment, `sort_values`, `set_index`.
- `DataCleaning`: `clean_date`, the per-sheet preparations, and `Clean`, the whole script over eight `DataFrame` objects.
- `Dashboard`: `load_data`, the time-range filter and the Table view.

Design decisions:

- **Dates.** In the spreadsheet, dates are timestamps (`Cell.Stamp`). Changes are reals; the first row's change is `None`. Labels are indices 0..11 into the label list. Dates in the dashboard are timestamps (`Calendar.Timestamp`, a date within the nanosecond range). The time-range arithmetic works on their day numbers (`Calendar.Ordinal`), so a week is 7 days.
- **Sorts.** pandas' default sort is not stable, so for every sort the model claims only "sorted, and a permutation of the input".
- **Failures.** A step that would raise (a missing column, text that `float()` rejects, a date that does not parse or lies outside the timestamp range, a look-back before the first timestamp day) returns `None` or `ok == false`.

Behaviour of the code that the model keeps:
- The first row's default label is `'Small Increase'`.
- GDP text `"$1.2 trillion"` is stripped to `"$1.2"`, which `float()` rejects.
- PE text `"Est. 21.3x"` is stripped to `".21.3"`, which `float()` rejects.
- `set_index` does not make dates unique, so no uniqueness is claimed.
- `pd.to_datetime` produces nanosecond timestamps, so a date text before 1677-09-22 or after 2262-04-11 aborts the run.

## Model

| member | source | states |
|---|---|---|
| Sequences.Reversed | scraping/data_cleaning.py:34 | element i of the reversal is element n-1-i of the input |
| Sequences.ReversedInvolution | scraping/data_cleaning.py:34 | reversing twice gives back the rows |
| Sequences.ReversedPermutes | scraping/data_cleaning.py:34 | reversal keeps the same multiset of rows |
| Sequences.InsertionSort | scraping/data_cleaning.py:66-73 | an in-place sort leaves the array sorted by any total preorder and a permutation of what it held |
| Strings.LessEqTotalOrder | dashboard/app.py:121 | Python string order is total, transitive and antisymmetric |
| Strings.ContainsAt | dashboard/app.py:42 | `t in s` holds iff `t` occurs at some position of `s` |
| Calendar.Ordinal | dashboard/app.py:70-83 | 0001-01-01 is day 1, and every day of a year is numbered after all days of the earlier years |
| Calendar.OrdinalOrder | dashboard/app.py:83 | day numbers order dates as (year, month, day) does, and differ for different dates |
| Calendar.OrdinalBefore | dashboard/app.py:83 | an earlier date has a smaller day number |
| Calendar.FourWeeksBeforeJune7 | dashboard/app.py:73 | four weeks before 2024-06-07 is 2024-05-10 |
| Calendar.Format | scraping/data_cleaning.py:7 | the date text has length 10, `-` at positions 4 and 7 and digits elsewhere |
| Calendar.Pad2RoundTrip | scraping/data_cleaning.py:7 | a two-digit zero-padded field reads back as its number |
| Calendar.Pad2Read | scraping/data_cleaning.py:7 | every two-digit text is the padding of its value |
| Calendar.Pad4RoundTrip | scraping/data_cleaning.py:7 | a four-digit zero-padded year reads back as its number |
| Calendar.Pad4Read | scraping/data_cleaning.py:7 | every four-digit text is the padding of its value |
| Calendar.FormatThenParse | scraping/data_cleaning.py:7 | formatting a date and reading the text back gives the date |
| Calendar.ParseThenFormat | scraping/data_cleaning.py:7 | a text that reads as a date is exactly that date's formatting |
| Calendar.Pad2Order | scraping/data_cleaning.py:7 | padded two-digit fields compare as strings exactly as their numbers do |
| Calendar.Pad4Order | scraping/data_cleaning.py:7 | padded four-digit fields compare as strings exactly as their numbers do |
| Calendar.FormatOrder | scraping/data_cleaning.py:66-73 | one date text is less than another iff its date comes first |
| Calendar.FormatChronological | dashboard/app.py:121 | date texts compare as strings exactly as their day numbers do |
| NumericText.KeepNumeric | scraping/data_cleaning.py:47 | the PE strip leaves only characters in `[0-9.]` |
| NumericText.KeepNumericConcat | scraping/data_cleaning.py:47 | the strip works piece by piece, so kept characters keep their order |
| NumericText.KeepNumericCounts | scraping/data_cleaning.py:47 | each character in `[0-9.]` is kept as often as it occurs, and every other character is dropped |
| NumericText.KeepNumericFixes | scraping/data_cleaning.py:47 | text that is all `[0-9.]` is unchanged |
| NumericText.KeepNumericIdempotent | scraping/data_cleaning.py:47 | stripping twice is stripping once |
| NumericText.RemoveAll | scraping/data_cleaning.py:50 | removal never adds a character: every character of the result comes from the input, and the result is no longer than the input |
| NumericText.RemoveAllMatch | scraping/data_cleaning.py:50 | the first occurrence of the pattern is removed: the text before it is kept in order and removal continues after it |
| NumericText.PercentFirst | scraping/data_cleaning.py:54 | `"%12"` becomes `"12"` |
| NumericText.RemoveAllAbsent | scraping/data_cleaning.py:50 | text without `" trillion"` is unchanged |
| NumericText.RemoveAllSkips | scraping/data_cleaning.py:50 | a prefix that cannot start a match is kept and removal continues after it |
| NumericText.RemoveTrailing | scraping/data_cleaning.py:50 | a number followed by `" trillion"` loses exactly the suffix |
| NumericText.RemoveAllCanReassemble | scraping/data_cleaning.py:50 | removal is one left-to-right pass of non-overlapping matches, so removed pieces can leave a new match behind |
| NumericText.RemoveCharCounts | scraping/data_cleaning.py:54 | removing `%` leaves no `%` and every other character as often as it occurred |
| NumericText.RemoveCharIdempotent | scraping/data_cleaning.py:54 | removing `%` twice is removing it once |
| NumericText.ParseFloat | scraping/data_cleaning.py:47-54 | `float()` rejects empty or blank text, a lone sign and a lone point |
| NumericText.ParseNumeric | scraping/data_cleaning.py:47 | `float()` of stripped PE text is the plain decimal reading |
| NumericText.ParseNegated | scraping/data_cleaning.py:54 | a leading minus sign negates the value, and the parse fails exactly when the unsigned parse does |
| NumericText.MantissaPoint | scraping/data_cleaning.py:47 | digits, a point and digits read as their decimal value |
| NumericText.ParseRender | scraping/data_cleaning.py:50 | decimal text of digits with an optional point and fraction parses back to its value |
| NumericText.MantissaOfNumeric | scraping/data_cleaning.py:47 | stripped PE text is a decimal iff it has at most one point and at least one digit |
| NumericText.KeptParses | scraping/data_cleaning.py:47 | `float()` accepts the stripped PE text iff it has at most one point and at least one digit |
| NumericText.GarbledStrip | scraping/data_cleaning.py:47 | `"Est. 21.3x"` strips to `".21.3"` |
| NumericText.GarbledPoints | scraping/data_cleaning.py:47 | `".21.3"` has two points |
| NumericText.GarbledPeRejected | scraping/data_cleaning.py:47 | `"Est. 21.3x"` strips to `".21.3"`, which `float()` rejects |
| NumericText.ReadsAs | scraping/data_cleaning.py:47 | a text of digits, a point and digits parses to its decimal value |
| NumericText.InflationExample | scraping/data_cleaning.py:54 | `"24.5%"` becomes 24.5 |
| NumericText.GdpExample | scraping/data_cleaning.py:50 | `"27.36 trillion"` becomes 27.36 |
| NumericText.ParseScientific | scraping/data_cleaning.py:47-54 | `float()` reads digits, an optional point and fraction, `e` and exponent digits as the decimal value shifted by the exponent |
| NumericText.ParseBareExponent | scraping/data_cleaning.py:47-54 | `float()` rejects a number ending in `e` with no exponent digits |
| NumericText.ScientificExample | scraping/data_cleaning.py:47-54 | `"2.5e1"` reads as 25 |
| NumericText.BareExponentExample | scraping/data_cleaning.py:47-54 | `"1e"` is rejected |
| NumericText.DollarGdpRejected | scraping/data_cleaning.py:50 | `"$1.2 trillion"` becomes `"$1.2"`, which `float()` rejects |
| Frames.Select | scraping/data_cleaning.py:22 | selection succeeds iff every name is a column; result column j is the source column of that name, and the row keys are kept |
| Frames.Rename | scraping/data_cleaning.py:23-32 | mapped labels are replaced, the rest and all rows are kept |
| Frames.ReverseReset | scraping/data_cleaning.py:34 | row i holds the cells of row n-1-i under the new key i, and the index has no name |
| Frames.ReverseResetTwice | scraping/data_cleaning.py:34 | on a freshly read table, reversing and renumbering twice gives the table back |
| Frames.WithColumn | scraping/data_cleaning.py:47 | column assignment replaces one column and keeps the others and the row keys |
| Frames.Drop | scraping/data_cleaning.py:75 | dropping a position keeps the elements before it and shifts the rest down |
| Frames.SetIndex | scraping/data_cleaning.py:75-82 | `set_index` succeeds iff the column exists; it becomes each row's key and leaves the columns |
| Frames.CellLe | scraping/data_cleaning.py:66-73 | missing cells sort after every cell and only before missing cells; times sort in calendar order |
| Frames.CellLeTotalPreorder | scraping/data_cleaning.py:66-73 | the cell order of `sort_values` (missing values last) is a total preorder |
| Frames.ByColumnTotalPreorder | scraping/data_cleaning.py:66-73 | ordering rows by one column's cells is a total preorder |
| Frames.DataFrame.constructor | scraping/data_cleaning.py:12-19 | a frame holds the table it was read from |
| Frames.DataFrame.SelectColumns | scraping/data_cleaning.py:22 | the frame becomes the selection, or is unchanged when a column is missing |
| Frames.DataFrame.RenameColumns | scraping/data_cleaning.py:23-32 | the frame's labels are renamed in place |
| Frames.DataFrame.ReverseRows | scraping/data_cleaning.py:34 | the frame's rows are reversed and renumbered |
| Frames.DataFrame.AssignColumn | scraping/data_cleaning.py:47 | one column of the frame is replaced |
| Frames.DataFrame.SortValues | scraping/data_cleaning.py:66-73 | succeeds iff the column exists and its cells are comparable; the rows are then sorted by it and a permutation of the old rows |
| Frames.DataFrame.SetIndexColumn | scraping/data_cleaning.py:75-82 | the frame becomes `SetIndex` of itself, or is unchanged when the column is missing |
| DataCleaning.ConvertDate | scraping/data_cleaning.py:7 | a converted cell is blank or `YYYY-MM-DD` text of a day in the timestamp range, standing for the same date as the input |
| DataCleaning.ConvertDateDomain | scraping/data_cleaning.py:7 | conversion succeeds exactly on timestamps, missing cells and date text of a day from 1677-09-22 to 2262-04-11; date text is kept as is |
| DataCleaning.ConvertDateLastDay | scraping/data_cleaning.py:7 | `"2262-04-11"`, the last whole day a timestamp holds, converts |
| DataCleaning.ConvertDateTooLate | scraping/data_cleaning.py:7 | `"2300-01-01"` aborts the run |
| DataCleaning.ConvertDateTooEarly | scraping/data_cleaning.py:7 | `"1677-09-21"` aborts the run |
| DataCleaning.ConvertDates | scraping/data_cleaning.py:7 | a column converts iff every cell does |
| DataCleaning.CleanDateTable | scraping/data_cleaning.py:6-8 | the result keeps the columns and index name, and exists only when the column does |
| DataCleaning.CleanDateResult | scraping/data_cleaning.py:6-8 | `clean_date` succeeds iff the column exists and every cell converts; it keeps each row's date and key and leaves the other columns alone |
| DataCleaning.CleanDateIdempotent | scraping/data_cleaning.py:6-8 | cleaning a cleaned date column changes nothing |
| DataCleaning.CleanDate | scraping/data_cleaning.py:6-8 | the frame's date column is rewritten in place when every cell converts, and left unchanged otherwise |
| DataCleaning.StripCell | scraping/data_cleaning.py:47-54 | a stripped cell is a number or missing, and the strip fails exactly on text whose stripped form `float()` rejects |
| DataCleaning.StripCells | scraping/data_cleaning.py:47-54 | a column strips iff it is empty or holds text and every text cell parses; the result is one number or missing cell per cell |
| DataCleaning.StripTable | scraping/data_cleaning.py:47 | a stripped table keeps its columns and index name |
| DataCleaning.StripResult | scraping/data_cleaning.py:47 | a strip succeeds iff the column exists, the `.str` accessor applies and every text cell parses; text cells become their parsed value, other cells become missing, other columns are kept |
| DataCleaning.PeCellParses | scraping/data_cleaning.py:47 | a PE cell parses iff its stripped text has at most one point and a digit |
| DataCleaning.InflationTextHasNoPercent | scraping/data_cleaning.py:54 | stripped inflation text has no `%` |
| DataCleaning.WeeklyNamesInjective | scraping/data_cleaning.py:23-32 | the weekly rename map sends different labels to different labels |
| DataCleaning.PrepareWeekly | scraping/data_cleaning.py:22-37 | the prepared weekly table exists only when the five source columns do; it has the columns Date, High, Open, Close, Low, as many rows as were read, and an unnamed index |
| DataCleaning.PreparePe | scraping/data_cleaning.py:40-47 | the prepared PE table exists only when `Date` and `PE Ratio Value` do, and keeps the columns and row keys |
| DataCleaning.PrepareGdp | scraping/data_cleaning.py:43-51 | the prepared GDP table exists only when `Date` and `GDP Value` do; only the GDP label is renamed and the row keys are kept |
| DataCleaning.PrepareInflation | scraping/data_cleaning.py:44-55 | the prepared inflation table exists only when `Date` and `Inflation Rate` do; only the inflation label is renamed and the row keys are kept |
| DataCleaning.WeeklyShape | scraping/data_cleaning.py:22-37 | the weekly table ends with the columns Date, High, Open, Close, Low and as many rows as it had; it succeeds iff the five source columns exist and every date converts |
| DataCleaning.RenamedLabel | scraping/data_cleaning.py:51 | renaming one label to a fresh one replaces it |
| DataCleaning.GdpColumnRenamed | scraping/data_cleaning.py:51 | the GDP column is called `GDP Value - trillion` after cleaning |
| DataCleaning.InflationColumnRenamed | scraping/data_cleaning.py:55 | the inflation column is called `Inflation Rate %` after cleaning |
| DataCleaning.SortedDatesChronological | scraping/data_cleaning.py:66-82 | sorting cleaned date text and indexing by it gives keys in chronological order, with missing dates last |
| DataCleaning.StripKeepsDates | scraping/data_cleaning.py:47 | stripping a value column keeps the cleaned dates |
| DataCleaning.RenameKeepsDates | scraping/data_cleaning.py:51 | renaming other columns keeps the cleaned dates |
| DataCleaning.WeeklyDates | scraping/data_cleaning.py:22-37 | the prepared weekly table has cleaned dates |
| DataCleaning.CleanedDates | scraping/data_cleaning.py:38-44 | a date-cleaned table has cleaned dates |
| DataCleaning.PeDates | scraping/data_cleaning.py:47 | the prepared PE table has cleaned dates |
| DataCleaning.GdpDates | scraping/data_cleaning.py:50-51 | the prepared GDP table has cleaned dates |
| DataCleaning.InflationDates | scraping/data_cleaning.py:54-55 | the prepared inflation table has cleaned dates |
| DataCleaning.SortByDate | scraping/data_cleaning.py:66-73 | a frame with cleaned dates is sorted by `Date`, and its rows are a permutation of the old ones |
| DataCleaning.IndexByDate | scraping/data_cleaning.py:75-82 | a sorted frame is indexed by `Date`, and its keys are then chronological |
| DataCleaning.StripColumn | scraping/data_cleaning.py:47 | the frame's column is stripped and parsed in place, or left unchanged on failure |
| DataCleaning.PrepareWeeklyFrame | scraping/data_cleaning.py:22-37 | the weekly frame is selected, renamed, reversed and date-cleaned in place |
| DataCleaning.CleanAllDates | scraping/data_cleaning.py:22-44 | all eight frames are date-cleaned, and the run succeeds iff every conversion does |
| DataCleaning.StripPe | scraping/data_cleaning.py:47 | the PE frame becomes its prepared table |
| DataCleaning.StripGdp | scraping/data_cleaning.py:50-51 | the GDP frame is stripped and renamed into its prepared table |
| DataCleaning.StripInflation | scraping/data_cleaning.py:54-55 | the inflation frame is stripped and renamed into its prepared table |
| DataCleaning.FinishAll | scraping/data_cleaning.py:66-82 | each of the eight frames is sorted and then indexed by `Date`, with chronological keys |
| DataCleaning.Clean | scraping/data_cleaning.py:21-82 | the script succeeds iff every sheet's preparation does; each frame then holds its prepared table sorted by date and indexed by it, with chronological keys |
| Dashboard.ChangeSign | dashboard/app.py:19 | with a positive previous close, the change is positive, zero or negative exactly when the close rose, stayed or fell |
| Dashboard.Change | dashboard/app.py:19 | the change applied to the previous close gives back the new close |
| Dashboard.Changes | dashboard/app.py:19 | the first row has no change; every later row has the change against the row before |
| Dashboard.Bin | dashboard/app.py:21-38 | every change gets one of the twelve labels, the one whose right-closed interval holds it |
| Dashboard.EdgesIncreasing | dashboard/app.py:21 | the bin edges increase strictly |
| Dashboard.BinIsInterval | dashboard/app.py:21-38 | a change gets label b iff it lies in b's right-closed interval, so every change has exactly one label |
| Dashboard.BinMonotone | dashboard/app.py:21-38 | a larger change never gets a lower label |
| Dashboard.BinEdges | dashboard/app.py:21-38 | 0 is a minimal decrease, 0.5 a minimal increase, 3 a large increase, above 3 extreme, at most -3 extreme decrease |
| Dashboard.LabelOf | dashboard/app.py:38-39 | every row gets one of the twelve labels |
| Dashboard.Colour | dashboard/app.py:41-43 | the colour is green or red, and green exactly when `Increase` occurs somewhere in the label |
| Dashboard.IncreaseIsGreen | dashboard/app.py:41-43 | a label ending in `Increase` is green |
| Dashboard.DecreaseIsRed | dashboard/app.py:41-43 | a label without a capital I is red |
| Dashboard.ColourByIndex | dashboard/app.py:41-43 | the six upper labels are green and the six lower ones red |
| Dashboard.ColourCorners | dashboard/app.py:39-43 | a 0% change is red and the first row is green |
| Dashboard.DeriveRow | dashboard/app.py:38-44 | a row's label is its change's interval or the default, it is green when the label is one of the upper six and red otherwise, and its date text reads back as its date |
| Dashboard.Derive | dashboard/app.py:19-44 | one derived row per sorted row, in order; the first has no change and the default label, every later one the change against the close before |
| Dashboard.DeriveRows | dashboard/app.py:19-44 | each derived row keeps its weekly data; it carries the change against the row before (none on the first), that change's label or `Small Increase`, the label's colour, and date text that reads back as its date |
| Dashboard.ByDateTotalPreorder | dashboard/app.py:17 | the date order of `sort_values('Date')` is a total preorder |
| Dashboard.SortByDate | dashboard/app.py:17 | the weekly rows are sorted by date and a permutation of the input |
| Dashboard.LoadData | dashboard/app.py:14-46 | `load_data` returns the input rows sorted by date, each with its derived columns |
| Dashboard.Latest | dashboard/app.py:70 | the latest date is at least every date and is one of them |
| Dashboard.Earliest | dashboard/app.py:81 | the earliest date is at most every date and is one of them |
| Dashboard.RangeOf | dashboard/app.py:72-80 | each of 1M, 3M, 1Y and 5Y selects its own range; any other choice, All included, selects the whole history |
| Dashboard.RangeChoices | dashboard/app.py:72-81 | the five selector choices pick the five ranges |
| Dashboard.StartDate | dashboard/app.py:70-81 | for All the start is the earliest date; otherwise it is the range's look-back before the latest date, and it fails exactly when that look-back falls before the first day a timestamp holds |
| Dashboard.EarlyDataOverflows | dashboard/app.py:77-79 | with every date on 1680-01-01, the 1Y start exists and the 5Y start overflows |
| Dashboard.StartDates | dashboard/app.py:70-81 | 1M, 3M, 1Y and 5Y start 28, 91, 364 and 1820 days before the latest date unless that leaves the timestamp range; All starts at the earliest |
| Dashboard.Filtered | dashboard/app.py:70-83 | the block fails exactly when the start does; otherwise the selected rows are exactly the rows dated on or after the start; an empty table selects nothing |
| Dashboard.Since | dashboard/app.py:83 | the filter returns no more rows than it is given, each dated on or after the start |
| Dashboard.SinceMembers | dashboard/app.py:83 | the filter keeps exactly the rows dated on or after the start |
| Dashboard.SinceConcat | dashboard/app.py:83 | the filter works piece by piece, so kept rows keep their order |
| Dashboard.SinceNests | dashboard/app.py:83 | filtering from a later start equals filtering the earlier filter's result again |
| Dashboard.SinceAll | dashboard/app.py:83 | a start no later than every date keeps every row |
| Dashboard.ShorterNests | dashboard/app.py:72-83 | where both starts exist, a range's rows are the rows of a range looking further back (or of All) filtered again; a longer look-back that fits makes the shorter one fit |
| Dashboard.RangesNest | dashboard/app.py:72-83 | 1M is within 3M, 3M within 1Y, 1Y within 5Y and 5Y within All |
| Dashboard.LookbacksFit | dashboard/app.py:72-79 | if the 5Y start exists so does the 1Y one, and likewise 1Y to 3M and 3M to 1M |
| Dashboard.AllKeepsEverything | dashboard/app.py:80-83 | All starts at the earliest date and returns the data unchanged |
| Dashboard.RangeKeepsLatest | dashboard/app.py:70-83 | every range with a start keeps the latest rows |
| Dashboard.LabelNamesDistinct | dashboard/app.py:22-36 | no two labels share a name, so a name identifies its bin |
| Dashboard.Project | dashboard/app.py:117 | a table row shows the derived row's date text, Open, High, Low, Close and change, and its label name identifies the bin |
| Dashboard.NewestFirstTotalPreorder | dashboard/app.py:121 | the descending order on date text is a total preorder |
| Dashboard.DescendingTextIsNewestFirst | dashboard/app.py:121 | rows sorted descending by date text are in reverse chronological order |
| Dashboard.TableView | dashboard/app.py:116-121 | the Table view holds each filtered row's seven columns once, newest date first |

## Left out

- Spreadsheet reading and writing, the `print` calls, Streamlit widgets and caching, Plotly figures and click events, and the OpenAI call in `dashboard/chatgpt_integration.py`. All are I/O or foreign libraries. The tables enter the model as values.
- `scraping/data_extraction.py` is not part of this model. It consists of HTTP, HTML parsing and a market-data download.
- `pd.to_datetime`'s flexible recognition of date formats. Date cells are timestamps or `YYYY-MM-DD` text; any other text, and numbers, are treated as conversion errors.
- IEEE floating point. Values are exact rationals, so `pct_change`'s rounding and the exact float that `astype(float)` produces are not modelled. `float()`'s `inf`, `nan`, underscores and non-ASCII digits are rejected rather than accepted.
- Dashboard.TableView: the `round(x, 2) if x != 0 else 0` display step is not modelled. The table carries unrounded values where the code shows them rounded to two decimals (4532.127 is shown as 4532.13), with an exact zero shown as `0`.
- Dashboard.LoadData: requires every close to be non-zero, because changes are exact reals. The code accepts zero closes without error. A zero previous close gives an infinite or NaN change, which `pd.cut` bins or `fillna` turns into the default label. A zero latest close gives a change of -100%. The precondition excludes both, although only the previous close is a divisor, because it is stated on the unsorted rows.
- Dashboard.LoadData: every row has a date. A row with a missing date (NaT), which the cleaned sheet can hold, is not modelled. In the code such a row sorts last, takes part in `pct_change`, gets a missing `Dates` text and is dropped by every range filter.
- Dashboard.Change: models `Close` as a total column. A missing close, which `pct_change` would forward-fill, is not modelled.
- DataCleaning.StripResult: the `.str` accessor's type check is approximated. A column with no text cell fails unless it is empty. A column mixing text with other values turns the others into missing values.
- Frames.Select: a table with duplicate column labels is handled by the first occurrence of each label.
- Frames.DataFrame.SortValues: unordered mixes of cell kinds (text next to numbers, which pandas refuses to compare) fail as a whole. Missing values are placed last; the order among them is not modelled.
- DataCleaning.Clean: the script stops at the first exception. The model reports failure but does not state what the frames hold after a failed step.
