/**
 * The dashboard's data logic: `load_data` (weekly percent change, the twelve movement
 * labels with their default, the two colours, the date text), the time-range start date
 * and filter, and the Table view's projection and newest-first sort.
 */
module Dashboard {
  import opened Wrappers
  import opened Sequences
  import opened Strings
  import opened Calendar

  /** One row of the cleaned weekly sheet. */
  datatype Weekly = Weekly(date: Timestamp, open: real, high: real, low: real, close: real)

  /**
   * A row of `load_data`'s result: the weekly row plus "Weekly Change (%)" (NaN on the
   * first row), "Bins" (a label index), "Color" and "Dates".
   */
  datatype Derived = Derived(row: Weekly, change: Option<real>, bin: nat, color: string, dates: string)

  // ---------------------------------------------------------------- percent change

  /**
   * `pct_change() * 100` for one step: `(cur / prev - 1) * 100`. Applied to the previous
   * close, the change gives back the new close.
   */
  function Change(prev: real, cur: real): (c: real)
    requires prev != 0.0
    ensures cur == prev * (1.0 + c / 100.0)
  {
    var q := cur / prev;
    assert prev * q == cur;
    (q - 1.0) * 100.0
  }

  /** With a positive previous close, the change is positive iff the close rose and zero iff it stayed. */
  lemma ChangeSign(prev: real, cur: real)
    requires prev > 0.0
    ensures Change(prev, cur) > 0.0 <==> cur > prev
    ensures Change(prev, cur) == 0.0 <==> cur == prev
    ensures Change(prev, cur) < 0.0 <==> cur < prev
  {
    var q := cur / prev;
    assert cur == q * prev;
    if q > 1.0 {
      assert q * prev > 1.0 * prev;
    } else if q < 1.0 {
      assert q * prev < 1.0 * prev;
    }
  }

  /** The weekly changes of a column of closes: none for the first row, then step by step. */
  function Changes(closes: seq<real>): (r: seq<Option<real>>)
    requires forall i :: 0 <= i < |closes| - 1 ==> closes[i] != 0.0
    ensures |r| == |closes|
    ensures 0 < |closes| ==> r[0] == None
    ensures forall i :: 0 < i < |closes| ==> r[i] == Some(Change(closes[i - 1], closes[i]))
  {
    seq(|closes|, i requires 0 <= i < |closes| => if i == 0 then None else Some(Change(closes[i - 1], closes[i])))
  }

  // ---------------------------------------------------------------- bins and labels

  /** The inner bin edges; the outer ones are -inf and +inf. */
  const Edges: seq<real> := [-3.0, -2.0, -1.5, -1.0, -0.5, 0.0, 0.5, 1.0, 1.5, 2.0, 3.0]

  const LabelNames: seq<string> := [
    "Extreme Decrease", "Large Decrease", "Significant Decrease", "Moderate Decrease", "Small Decrease", "Minimal Decrease",
    "Minimal Increase", "Small Increase", "Moderate Increase", "Significant Increase", "Large Increase", "Extreme Increase"
  ]

  /** The label `fillna` gives the first row, whose change is undefined: "Small Increase". */
  const DefaultLabel: nat := 7

  predicate StrictlyIncreasing(e: seq<real>)
  {
    forall i, j :: 0 <= i < j < |e| ==> e[i] < e[j]
  }

  /** Each edge above its predecessor makes the whole sequence increasing. */
  lemma {:induction false} StepsIncreasing(e: seq<real>)
    requires forall i :: 0 < i < |e| ==> e[i - 1] < e[i]
    ensures StrictlyIncreasing(e)
  {
    if e != [] {
      StepsIncreasing(e[1..]);
      forall j | 0 < j < |e|
        ensures e[0] < e[j]
      {
        if j > 1 {
          assert e[1..][0] < e[1..][j - 1];
        }
      }
    }
  }

  lemma EdgesIncreasing()
    ensures StrictlyIncreasing(Edges)
  {
    StepsIncreasing(Edges);
  }

  /** How many edges lie strictly below `x`. */
  function CountBelow(e: seq<real>, x: real): (n: nat)
    ensures n <= |e|
  {
    if e == [] then 0 else (if e[0] < x then 1 else 0) + CountBelow(e[1..], x)
  }

  /**
   * On increasing edges, the count below `x` is the one position `k` with the edge before
   * it below `x` and the edge at it not: `x` lies in `(e[k-1], e[k]]`.
   */
  lemma {:induction false} CountBelowBracket(e: seq<real>, x: real, k: nat)
    requires StrictlyIncreasing(e) && k <= |e|
    ensures CountBelow(e, x) == k <==> (k == 0 || e[k - 1] < x) && (k == |e| || x <= e[k])
  {
    if e != [] {
      assert StrictlyIncreasing(e[1..]);
      if k > 0 {
        CountBelowBracket(e[1..], x, k - 1);
      }
      if e[0] < x {
        if k == 0 {
          CountBelowBracket(e[1..], x, 0);
        }
      } else {
        CountBelowNone(e, x);
      }
    }
  }

  lemma {:induction false} CountBelowNone(e: seq<real>, x: real)
    requires StrictlyIncreasing(e) && (e == [] || x <= e[0])
    ensures CountBelow(e, x) == 0
  {
    if e != [] {
      assert StrictlyIncreasing(e[1..]);
      if |e| > 1 {
        assert e[0] < e[1];
      }
      CountBelowNone(e[1..], x);
    }
  }

  lemma {:induction false} CountBelowMonotone(e: seq<real>, x: real, y: real)
    requires x <= y
    ensures CountBelow(e, x) <= CountBelow(e, y)
  {
    if e != [] {
      CountBelowMonotone(e[1..], x, y);
    }
  }

  /** `pd.cut(x, bins, labels)`: the index of the right-closed interval `(lo, hi]` holding `x`. */
  function Bin(x: real): (b: nat)
    ensures b < 12
    ensures (b == 0 || Edges[b - 1] < x) && (b == 11 || x <= Edges[b])
  {
    EdgesIncreasing();
    CountBelowBracket(Edges, x, CountBelow(Edges, x));
    CountBelow(Edges, x)
  }

  /** Every change falls in exactly one interval, and that interval's index is its bin. */
  lemma BinIsInterval(x: real, b: nat)
    requires b < 12
    ensures Bin(x) == b <==> (b == 0 || Edges[b - 1] < x) && (b == 11 || x <= Edges[b])
  {
    EdgesIncreasing();
    CountBelowBracket(Edges, x, b);
  }

  /** A larger change never gets a lower label. */
  lemma BinMonotone(x: real, y: real)
    requires x <= y
    ensures Bin(x) <= Bin(y)
  {
    CountBelowMonotone(Edges, x, y);
  }

  /** The edges themselves: 0 is a minimal decrease, 0.5 a minimal increase, 3 a large increase; above 3 is extreme. */
  lemma BinEdges(x: real)
    ensures Bin(0.0) == 5 && Bin(0.5) == 6 && Bin(3.0) == 10
    ensures x > 3.0 ==> Bin(x) == 11
    ensures x <= -3.0 ==> Bin(x) == 0
  {
    BinIsInterval(0.0, 5);
    BinIsInterval(0.5, 6);
    BinIsInterval(3.0, 10);
    if x > 3.0 {
      BinIsInterval(x, 11);
    }
    if x <= -3.0 {
      BinIsInterval(x, 0);
    }
  }

  /** The label of a row: its change's bin, or the default where the change is undefined. */
  function LabelOf(change: Option<real>): (b: nat)
    ensures b < 12
  {
    match change
    case None => DefaultLabel
    case Some(x) => Bin(x)
  }

  /** No label name occurs before its own position. */
  lemma LabelNamesDistinct(b: nat)
    requires b < 12
    ensures IndexOf(LabelNames, LabelNames[b]) == b
  {
    forall i | 0 <= i < b
      ensures LabelNames[i] != LabelNames[b]
    {
      LabelCodes(i);
      LabelCodes(b);
    }
  }

  /** A label's position, read off its first two letters and the initial of its direction. */
  function NameCode(n: string): int
    requires 8 <= |n|
  {
    var rank :=
      if n[0] == 'M' && n[1] == 'i' then 0
      else if n[0] == 'S' && n[1] == 'm' then 1
      else if n[0] == 'M' then 2
      else if n[0] == 'S' then 3
      else if n[0] == 'L' then 4
      else 5;
    if n[|n| - 8] == 'I' then 6 + rank else 5 - rank
  }

  lemma LabelCodes(b: nat)
    requires b < 12
    ensures 8 <= |LabelNames[b]| && NameCode(LabelNames[b]) == b
  {
  }

  const Green: string := "rgba(12, 156, 132, 0.5)"
  const Red: string := "rgba(242, 54, 69, 0.5)"

  /** The bar colour: green when the label contains "Increase", red otherwise. */
  function Colour(name: string): (c: string)
    ensures c == Green || c == Red
    ensures c == Green <==> exists i :: OccursAt(name, "Increase", i)
  {
    ContainsAt(name, "Increase");
    if Contains(name, "Increase") then Green else Red
  }

  /** A label ending in "Increase" is green. */
  lemma IncreaseIsGreen(name: string)
    requires 8 <= |name| && name[|name| - 8..] == "Increase"
    ensures Colour(name) == Green
  {
    assert OccursAt(name, "Increase", |name| - 8);
    ContainsAt(name, "Increase");
  }

  /** A label without a capital I, such as any "... Decrease" label here, is red. */
  lemma DecreaseIsRed(name: string)
    requires 'I' !in name
    ensures Colour(name) == Red
  {
    ContainsNeedsHead(name, "Increase");
  }

  lemma UpperLabelsGreen(b: nat)
    requires 6 <= b < 12
    ensures Colour(LabelNames[b]) == Green
  {
    var name := LabelNames[b];
    assert name[|name| - 8..] == "Increase";
    IncreaseIsGreen(name);
  }

  lemma LowerLabelsRed(b: nat)
    requires b < 6
    ensures Colour(LabelNames[b]) == Red
  {
    DecreaseIsRed(LabelNames[b]);
  }

  /** The six upper labels are green, the six lower ones red. */
  lemma ColourByIndex(b: nat)
    requires b < 12
    ensures Colour(LabelNames[b]) == (if b >= 6 then Green else Red)
  {
    if b >= 6 {
      UpperLabelsGreen(b);
    } else {
      LowerLabelsRed(b);
    }
  }

  /** A 0% change is red; the first row is green. */
  lemma ColourCorners()
    ensures Colour(LabelNames[LabelOf(Some(0.0))]) == Red
    ensures Colour(LabelNames[LabelOf(None)]) == Green
  {
    BinEdges(0.0);
    ColourByIndex(5);
    ColourByIndex(DefaultLabel);
  }

  // ---------------------------------------------------------------- load_data

  /** Every close is non-zero, so every percent change is defined. */
  predicate NonZeroCloses(rows: seq<Weekly>)
  {
    forall i :: 0 <= i < |rows| ==> rows[i].close != 0.0
  }

  function Closes(rows: seq<Weekly>): (c: seq<real>)
    ensures |c| == |rows| && forall i :: 0 <= i < |rows| ==> c[i] == rows[i].close
  {
    seq(|rows|, i requires 0 <= i < |rows| => rows[i].close)
  }

  /**
   * What a derived row says about its weekly row and change: the label is the bin of the
   * change or the default, the colour is green exactly for the six upper labels, and the
   * date text reads back as the row's date.
   */
  predicate Describes(d: Derived, row: Weekly, change: Option<real>)
  {
    && d.row == row && d.change == change && d.bin < 12
    && (change.None? ==> d.bin == DefaultLabel)
    && (change.Some? ==> (d.bin == 0 || Edges[d.bin - 1] < change.value) && (d.bin == 11 || change.value <= Edges[d.bin]))
    && d.color == (if d.bin >= 6 then Green else Red)
    && ParseIso(d.dates) == Some(row.date)
  }

  /** One row's derived columns, given its change. */
  function DeriveRow(row: Weekly, change: Option<real>): (d: Derived)
    ensures Describes(d, row, change)
  {
    var b := LabelOf(change);
    ColourByIndex(b);
    FormatThenParse(row.date);
    Derived(row, change, b, Colour(LabelNames[b]), Format(row.date))
  }

  /**
   * The derived columns on rows already in date order: one derived row per row, in order,
   * with the change against the previous close; the first row has none.
   */
  function Derive(rows: seq<Weekly>): (d: seq<Derived>)
    requires NonZeroCloses(rows)
    ensures |d| == |rows|
    ensures forall i :: 0 <= i < |rows| ==> d[i].row == rows[i]
    ensures 0 < |rows| ==> d[0].change == None && d[0].bin == DefaultLabel
    ensures forall i :: 0 < i < |rows| ==> d[i].change == Some(Change(rows[i - 1].close, rows[i].close))
  {
    var changes := Changes(Closes(rows));
    seq(|rows|, i requires 0 <= i < |rows| => DeriveRow(rows[i], changes[i]))
  }

  /**
   * What `load_data` promises about each row: it describes the weekly row together with
   * the change against the previous row, and the first row has no change.
   */
  lemma DeriveRows(rows: seq<Weekly>, i: nat)
    requires NonZeroCloses(rows)
    requires i < |rows|
    ensures Describes(Derive(rows)[i], rows[i], if i == 0 then None else Some(Change(rows[i - 1].close, rows[i].close)))
  {
    DeriveAt(rows, i);
  }

  lemma DeriveAt(rows: seq<Weekly>, i: nat)
    requires NonZeroCloses(rows) && i < |rows|
    ensures Derive(rows)[i] == DeriveRow(rows[i], if i == 0 then None else Some(Change(rows[i - 1].close, rows[i].close)))
  {
    var changes := Changes(Closes(rows));
    assert Derive(rows)[i] == DeriveRow(rows[i], changes[i]);
  }

  /** The row order of `sort_values('Date')`. */
  function ByDate(): (le: (Weekly, Weekly) -> bool)
    ensures forall a, b :: le(a, b) == (Ordinal(a.date) <= Ordinal(b.date))
  {
    (a: Weekly, b: Weekly) => Ordinal(a.date) <= Ordinal(b.date)
  }

  lemma ByDateTotalPreorder()
    ensures TotalPreorder(ByDate())
  {
  }

  predicate Ascending(rows: seq<Weekly>)
  {
    forall i, j :: 0 <= i < j < |rows| ==> Ordinal(rows[i].date) <= Ordinal(rows[j].date)
  }

  function Originals(d: seq<Derived>): (r: seq<Weekly>)
    ensures |r| == |d| && forall i :: 0 <= i < |d| ==> r[i] == d[i].row
  {
    seq(|d|, i requires 0 <= i < |d| => d[i].row)
  }

  /** The rows sorted by date with `sort_values('Date')`, which is not stable. */
  method SortByDate(rows: seq<Weekly>) returns (sorted: seq<Weekly>)
    ensures multiset(sorted) == multiset(rows)
    ensures Ascending(sorted)
  {
    var a := new Weekly[|rows|](i requires 0 <= i < |rows| => rows[i]);
    assert a[..] == rows;
    ByDateTotalPreorder();
    InsertionSort(a, ByDate());
    sorted := a[..];
  }

  lemma NonZeroClosesPermuted(rows: seq<Weekly>, other: seq<Weekly>)
    requires NonZeroCloses(rows) && multiset(other) == multiset(rows)
    ensures NonZeroCloses(other)
  {
    forall i | 0 <= i < |other|
      ensures other[i].close != 0.0
    {
      assert other[i] in multiset(rows);
      var j :| 0 <= j < |rows| && rows[j] == other[i];
    }
  }

  /**
   * `load_data`: the rows sorted by date, then the derived columns. A zero close would
   * make a percent change divide by zero.
   */
  method LoadData(rows: seq<Weekly>) returns (data: seq<Derived>)
    requires NonZeroCloses(rows)
    ensures multiset(Originals(data)) == multiset(rows)
    ensures Ascending(Originals(data))
    ensures NonZeroCloses(Originals(data)) && data == Derive(Originals(data))
  {
    var sorted := SortByDate(rows);
    NonZeroClosesPermuted(rows, sorted);
    data := Derive(sorted);
    DeriveKeepsRows(sorted);
  }

  lemma DeriveKeepsRows(rows: seq<Weekly>)
    requires NonZeroCloses(rows)
    ensures Originals(Derive(rows)) == rows
  {
  }

  // ---------------------------------------------------------------- time range

  /** `data['Date'].max()`. */
  function Latest(data: seq<Derived>): (m: int)
    requires 0 < |data|
    ensures forall i :: 0 <= i < |data| ==> Ordinal(data[i].row.date) <= m
    ensures exists i :: 0 <= i < |data| && Ordinal(data[i].row.date) == m
  {
    var here := Ordinal(data[|data| - 1].row.date);
    if |data| == 1 then here
    else
      var rest := Latest(data[..|data| - 1]);
      if rest < here then here else rest
  }

  /** `data['Date'].min()`. */
  function Earliest(data: seq<Derived>): (m: int)
    requires 0 < |data|
    ensures forall i :: 0 <= i < |data| ==> m <= Ordinal(data[i].row.date)
    ensures exists i :: 0 <= i < |data| && Ordinal(data[i].row.date) == m
  {
    var here := Ordinal(data[|data| - 1].row.date);
    if |data| == 1 then here
    else
      var rest := Earliest(data[..|data| - 1]);
      if here < rest then here else rest
  }

  /** The choices of the time-range selector; anything else falls to the earliest date, like "All". */
  datatype Range = OneMonth | ThreeMonths | OneYear | FiveYears | Everything

  /** Each of the four look-back tokens selects its own range; every other text selects the whole history. */
  function RangeOf(choice: string): (r: Range)
    ensures r == OneMonth <==> choice == "1M"
    ensures r == ThreeMonths <==> choice == "3M"
    ensures r == OneYear <==> choice == "1Y"
    ensures r == FiveYears <==> choice == "5Y"
  {
    if choice == "1M" then OneMonth
    else if choice == "3M" then ThreeMonths
    else if choice == "1Y" then OneYear
    else if choice == "5Y" then FiveYears
    else Everything
  }

  /** The selector's five labels pick the five ranges. */
  lemma RangeChoices()
    ensures RangeOf("1M") == OneMonth && RangeOf("3M") == ThreeMonths
    ensures RangeOf("1Y") == OneYear && RangeOf("5Y") == FiveYears
    ensures RangeOf("All") == Everything
  {
    assert "3M"[0] != "1M"[0];
    assert "1Y"[1] != "1M"[1] && "1Y"[1] != "3M"[1] && "1Y"[0] != "3M"[0];
    assert "5Y"[0] != "1M"[0] && "5Y"[0] != "3M"[0] && "5Y"[0] != "1Y"[0];
    assert |"All"| == 3;
  }

  /** How far before the latest date a range reaches, in days: 4, 13, 52 or 260 weeks. */
  function Lookback(r: Range): nat
    requires !r.Everything?
  {
    match r
    case OneMonth => 7 * 4
    case ThreeMonths => 7 * 13
    case OneYear => 7 * 52
    case FiveYears => 7 * 260
  }

  /** Every timestamp falls on or after the first day a timestamp holds. */
  lemma StampFromFirstDay(d: Timestamp)
    ensures Ordinal(FirstStampDay) <= Ordinal(d)
  {
    OrdinalOrder(d, FirstStampDay);
  }

  /**
   * The day number the chosen range starts at: for "All" the earliest date, otherwise the
   * look-back before the latest date. A look-back that lands before the first day a
   * timestamp holds overflows pandas' nanosecond range and raises; that is `None`.
   */
  function StartDate(r: Range, data: seq<Derived>): (start: Option<int>)
    requires 0 < |data|
    ensures start.None? <==> !r.Everything? && Latest(data) - Lookback(r) < Ordinal(FirstStampDay)
    ensures start.Some? ==> Ordinal(FirstStampDay) <= start.value
    ensures start.Some? && r.Everything? ==> forall i :: 0 <= i < |data| ==> start.value <= Ordinal(data[i].row.date)
    ensures start.Some? && !r.Everything? ==> forall i :: 0 <= i < |data| ==> Ordinal(data[i].row.date) <= start.value + Lookback(r)
    ensures start.Some? ==> exists i :: 0 <= i < |data| && Ordinal(data[i].row.date) == start.value + (if r.Everything? then 0 else Lookback(r))
  {
    if r.Everything? then
      var e := Earliest(data);
      var i :| 0 <= i < |data| && Ordinal(data[i].row.date) == e;
      StampFromFirstDay(data[i].row.date);
      Some(e)
    else Back(Latest(data), Lookback(r))
  }

  /** `latest - timedelta(days)`, or `None` when it leaves the timestamp range. */
  function Back(latest: int, days: nat): Option<int>
  {
    if latest - days < Ordinal(FirstStampDay) then None else Some(latest - days)
  }

  /**
   * The selector's choices: four look-backs from the latest date, in days, and the
   * earliest date for "All".
   */
  lemma StartDates(data: seq<Derived>)
    requires 0 < |data|
    ensures StartDate(RangeOf("1M"), data) == Back(Latest(data), 28)
    ensures StartDate(RangeOf("3M"), data) == Back(Latest(data), 91)
    ensures StartDate(RangeOf("1Y"), data) == Back(Latest(data), 364)
    ensures StartDate(RangeOf("5Y"), data) == Back(Latest(data), 1820)
    ensures StartDate(RangeOf("All"), data) == Some(Earliest(data))
  {
    RangeChoices();
  }

  /**
   * Data that ends on 1680-01-01 is 831 days past the first timestamp day: a one-year
   * look-back fits and a five-year one overflows.
   */
  lemma EarlyDataOverflows(data: seq<Derived>)
    requires 0 < |data| && forall i :: 0 <= i < |data| ==> data[i].row.date == Date(1680, 1, 1)
    ensures StartDate(OneYear, data) == Some(Latest(data) - 364)
    ensures StartDate(FiveYears, data) == None
  {
    EarlyStampDays();
  }

  /** The mask `data['Date'] >= start`, with dates as day numbers. */
  function OnOrAfter(start: int): Derived -> bool {
    (d: Derived) => Ordinal(d.row.date) >= start
  }

  /** `data[data['Date'] >= start]`. */
  function Since(data: seq<Derived>, start: int): (r: seq<Derived>)
    ensures |r| <= |data|
    ensures forall x :: x in r ==> Ordinal(x.row.date) >= start
  {
    Filter(data, OnOrAfter(start))
  }

  /** The filter keeps exactly the rows dated on or after the start. */
  lemma SinceMembers(data: seq<Derived>, start: int, x: Derived)
    ensures x in Since(data, start) <==> x in data && Ordinal(x.row.date) >= start
  {
    FilterMembers(data, OnOrAfter(start), x);
  }

  /** The filter works piece by piece, so kept rows stay in their original order. */
  lemma SinceConcat(a: seq<Derived>, b: seq<Derived>, start: int)
    ensures Since(a + b, start) == Since(a, start) + Since(b, start)
  {
    FilterConcat(a, b, OnOrAfter(start));
  }

  /** Filtering from a later start is filtering the earlier filter's rows again. */
  lemma SinceNests(data: seq<Derived>, early: int, late: int)
    requires early <= late
    ensures Since(data, late) == Since(Since(data, early), late)
  {
    FilterAgain(data, OnOrAfter(early), OnOrAfter(late));
  }

  /**
   * The time-range block as a whole: the rows from the chosen range's start date, or
   * `None` where computing the start raises. On an empty table the latest date is missing,
   * every comparison with it is false, and nothing is selected.
   */
  function Filtered(choice: string, data: seq<Derived>): (r: Option<seq<Derived>>)
    ensures data == [] ==> r == Some([])
    ensures 0 < |data| ==> (r.None? <==> StartDate(RangeOf(choice), data).None?)
    ensures r.Some? ==> forall x :: x in r.value ==> x in data
    ensures r.Some? && 0 < |data| ==>
      forall x :: x in r.value <==> x in data && Ordinal(x.row.date) >= StartDate(RangeOf(choice), data).value
  {
    if data == [] then Some([])
    else
      match StartDate(RangeOf(choice), data)
      case None => None
      case Some(start) =>
        SinceMembersAll(data, start);
        Some(Since(data, start))
  }

  lemma SinceMembersAll(data: seq<Derived>, start: int)
    ensures forall x :: x in Since(data, start) <==> x in data && Ordinal(x.row.date) >= start
  {
    forall x
      ensures x in Since(data, start) <==> x in data && Ordinal(x.row.date) >= start
    {
      SinceMembers(data, start, x);
    }
  }

  /** Filtering from a start no later than every date keeps everything. */
  lemma SinceAll(data: seq<Derived>, start: int)
    requires forall i :: 0 <= i < |data| ==> start <= Ordinal(data[i].row.date)
    ensures Since(data, start) == data
  {
    FilterAll(data, OnOrAfter(start));
  }

  /**
   * Where both ranges have a start, the shorter range's rows are the longer range's rows
   * filtered again.
   */
  predicate NestsIn(data: seq<Derived>, short: Range, long: Range)
    requires 0 < |data|
  {
    StartDate(short, data).Some? && StartDate(long, data).Some? ==>
      Since(data, StartDate(short, data).value) == Since(Since(data, StartDate(long, data).value), StartDate(short, data).value)
  }

  /** A range nests in a range that looks further back, and every range nests in "All". */
  lemma ShorterNests(data: seq<Derived>, short: Range, long: Range)
    requires 0 < |data| && !short.Everything?
    requires long.Everything? || Lookback(short) <= Lookback(long)
    ensures NestsIn(data, short, long)
    ensures !long.Everything? && StartDate(long, data).Some? ==> StartDate(short, data).Some?
  {
    var s, l := StartDate(short, data), StartDate(long, data);
    if s.Some? && l.Some? {
      if long.Everything? {
        SinceAll(data, l.value);
      } else {
        SinceNests(data, l.value, s.value);
      }
    }
  }

  /**
   * The ranges nest: 1M within 3M within 1Y within 5Y within All.
   */
  lemma RangesNest(data: seq<Derived>)
    requires 0 < |data|
    ensures NestsIn(data, OneMonth, ThreeMonths)
    ensures NestsIn(data, ThreeMonths, OneYear)
    ensures NestsIn(data, OneYear, FiveYears)
    ensures NestsIn(data, FiveYears, Everything)
  {
    ShorterNests(data, OneMonth, ThreeMonths);
    ShorterNests(data, ThreeMonths, OneYear);
    ShorterNests(data, OneYear, FiveYears);
    ShorterNests(data, FiveYears, Everything);
  }

  /** "All" starts at the earliest date and returns the data unchanged. */
  lemma AllKeepsEverything(data: seq<Derived>)
    requires 0 < |data|
    ensures StartDate(Everything, data) == Some(Earliest(data))
    ensures Since(data, Earliest(data)) == data
  {
    SinceAll(data, Earliest(data));
  }

  /** A look-back that stays in the timestamp range makes every shorter look-back stay in it too. */
  lemma LookbacksFit(data: seq<Derived>)
    requires 0 < |data|
    ensures StartDate(FiveYears, data).Some? ==> StartDate(OneYear, data).Some?
    ensures StartDate(OneYear, data).Some? ==> StartDate(ThreeMonths, data).Some?
    ensures StartDate(ThreeMonths, data).Some? ==> StartDate(OneMonth, data).Some?
  {
    ShorterNests(data, OneMonth, ThreeMonths);
    ShorterNests(data, ThreeMonths, OneYear);
    ShorterNests(data, OneYear, FiveYears);
  }

  /** Every range that has a start keeps the rows of the latest date, so its view is not empty. */
  lemma RangeKeepsLatest(r: Range, data: seq<Derived>, i: nat)
    requires i < |data| && Ordinal(data[i].row.date) == Latest(data)
    ensures StartDate(r, data).Some? ==> data[i] in Since(data, StartDate(r, data).value)
  {
    if StartDate(r, data).Some? {
      SinceMembers(data, StartDate(r, data).value, data[i]);
    }
  }

  // ---------------------------------------------------------------- Table view

  /** A row of the Table view: "Dates", "Open", "High", "Low", "Close", "Weekly Change (%)", "Bins". */
  datatype TableRow = TableRow(dates: string, open: real, high: real, low: real, close: real, change: Option<real>, bins: string)

  /** The seven shown columns of a derived row; the label's name identifies its bin. */
  function Project(d: Derived): (t: TableRow)
    requires d.bin < 12
    ensures t.dates == d.dates && t.change == d.change
    ensures t.open == d.row.open && t.high == d.row.high && t.low == d.row.low && t.close == d.row.close
    ensures IndexOf(LabelNames, t.bins) == d.bin
  {
    LabelNamesDistinct(d.bin);
    TableRow(d.dates, d.row.open, d.row.high, d.row.low, d.row.close, d.change, LabelNames[d.bin])
  }

  /** The row order of `sort_values(by='Dates', ascending=False)`. */
  function NewestFirst(): (le: (TableRow, TableRow) -> bool)
    ensures forall a, b :: le(a, b) == LessEq(b.dates, a.dates)
  {
    (a: TableRow, b: TableRow) => LessEq(b.dates, a.dates)
  }

  lemma NewestFirstTotalPreorder()
    ensures TotalPreorder(NewestFirst())
  {
    var le := NewestFirst();
    forall a, b, c
      ensures le(a, b) || le(b, a)
      ensures le(a, b) && le(b, c) ==> le(a, c)
    {
      LessEqTotalOrder(c.dates, b.dates, a.dates);
      LessEqTotalOrder(a.dates, b.dates, c.dates);
    }
  }

  /** Rows whose date text reads as a date, newest date first. */
  predicate NewestDateFirst(rows: seq<TableRow>)
  {
    && (forall i :: 0 <= i < |rows| ==> ParseIso(rows[i].dates).Some?)
    && forall i, j :: 0 <= i < j < |rows| ==> Ordinal(ParseIso(rows[j].dates).value) <= Ordinal(ParseIso(rows[i].dates).value)
  }

  /**
   * The string sort of the Table view is a newest-first date sort, because every date
   * text is fixed-width, zero-padded `YYYY-MM-DD`.
   */
  lemma {:induction false} DescendingTextIsNewestFirst(rows: seq<TableRow>)
    requires forall i :: 0 <= i < |rows| ==> ParseIso(rows[i].dates).Some?
    requires SortedBy(rows, NewestFirst())
    ensures NewestDateFirst(rows)
  {
    forall i, j | 0 <= i < j < |rows|
      ensures Ordinal(ParseIso(rows[j].dates).value) <= Ordinal(ParseIso(rows[i].dates).value)
    {
      var a, b := rows[i].dates, rows[j].dates;
      var da, db := ParseIso(a).value, ParseIso(b).value;
      ParseThenFormat(a, da);
      ParseThenFormat(b, db);
      assert LessEq(b, a);
      FormatChronological(db, da);
    }
  }

  /** The shown columns of every filtered row, in the filtered order. */
  function Projected(filtered: seq<Derived>): (p: seq<TableRow>)
    requires forall i :: 0 <= i < |filtered| ==> filtered[i].bin < 12 && ParseIso(filtered[i].dates).Some?
    ensures |p| == |filtered|
    ensures forall i :: 0 <= i < |p| ==> p[i] == Project(filtered[i])
    ensures forall i :: 0 <= i < |p| ==> ParseIso(p[i].dates).Some?
  {
    seq(|filtered|, i requires 0 <= i < |filtered| => Project(filtered[i]))
  }

  /** Rearranging rows keeps every date text readable. */
  lemma RearrangedDatesParse(table: seq<TableRow>, rows: seq<TableRow>)
    requires multiset(table) == multiset(rows)
    requires forall i :: 0 <= i < |rows| ==> ParseIso(rows[i].dates).Some?
    ensures forall i :: 0 <= i < |table| ==> ParseIso(table[i].dates).Some?
  {
    forall i | 0 <= i < |table|
      ensures ParseIso(table[i].dates).Some?
    {
      assert table[i] in multiset(rows);
    }
  }

  /**
   * The Table view: the seven columns of the filtered rows, sorted newest first in place
   * (not stable). Every row of the filtered data appears once, and the dates run backwards.
   */
  method TableView(filtered: seq<Derived>) returns (table: seq<TableRow>)
    requires forall i :: 0 <= i < |filtered| ==> filtered[i].bin < 12 && ParseIso(filtered[i].dates).Some?
    ensures multiset(table) == multiset(Projected(filtered))
    ensures NewestDateFirst(table)
  {
    var projected := Projected(filtered);
    var a := new TableRow[|projected|](i requires 0 <= i < |projected| => projected[i]);
    assert a[..] == projected;
    NewestFirstTotalPreorder();
    InsertionSort(a, NewestFirst());
    table := a[..];
    RearrangedDatesParse(table, projected);
    DescendingTextIsNewestFirst(table);
  }
}
