/**
 * The cleaning run over the eight sheets of the workbook: the weekly S&P 500 column
 * selection, renaming and reversal, `clean_date` on every sheet, the PE / GDP /
 * inflation unit strips with their `float` parse, and the per-sheet sort by date
 * followed by `set_index('Date')`.
 */
module DataCleaning {
  import opened Wrappers
  import opened Sequences
  import opened Strings
  import opened Calendar
  import opened NumericText
  import opened Frames

  // ---------------------------------------------------------------- clean_date

  /**
   * `pd.to_datetime` then `.dt.strftime('%Y-%m-%d')` on one cell; `None` is the error that
   * aborts the run. Text must read as a date that a nanosecond timestamp can hold
   * (OutOfBoundsDatetime otherwise). A converted cell is ISO text or blank and stands for
   * the same date as before.
   */
  function ConvertDate(c: Cell): (r: Option<Cell>)
    ensures r.Some? ==> IsoDateCell(r.value) && DateOf(r.value) == DateOf(c)
  {
    match c
    case Stamp(d) =>
      FormatThenParse(d);
      Some(Text(Format(d)))
    case Text(s) =>
      (match ParseIso(s)
       case Some(d) =>
         if InTimestampRange(d) then
           FormatThenParse(d);
           Some(Text(Format(d)))
         else None
       case None => None)
    case Missing => Some(Missing)
    case Num(_) => None
  }

  /** The date a cell stands for, if any. */
  function DateOf(c: Cell): Option<Date>
  {
    match c
    case Stamp(d) => Some(d)
    case Text(s) => ParseIso(s)
    case _ => None
  }

  /** A cleaned date cell: missing, or `YYYY-MM-DD` text of a day in the timestamp range. */
  predicate IsoDateCell(c: Cell)
  {
    c.Missing? || (c.Text? && ParseIso(c.s).Some? && InTimestampRange(ParseIso(c.s).value))
  }

  /**
   * Exactly the timestamps, the blanks and the ISO date texts within the timestamp range
   * convert; text is left as it was.
   */
  lemma ConvertDateDomain(c: Cell)
    ensures ConvertDate(c).Some? <==> c.Stamp? || c.Missing? || (c.Text? && ParseIso(c.s).Some? && InTimestampRange(ParseIso(c.s).value))
    ensures c.Text? && ConvertDate(c).Some? ==> ConvertDate(c).value == c
  {
    if c.Text? && ParseIso(c.s).Some? {
      ParseThenFormat(c.s, ParseIso(c.s).value);
    }
  }

  /** The last day a timestamp can hold converts. */
  lemma ConvertDateLastDay()
    ensures ConvertDate(Text("2262-04-11")) == Some(Text("2262-04-11"))
  {
    assert Pad2(22) == "22" && Pad2(62) == "62" && Pad2(4) == "04" && Pad2(11) == "11";
    assert Format(Date(2262, 4, 11)) == "2262-04-11";
    FormatThenParse(Date(2262, 4, 11));
  }

  /** A later day aborts the run. */
  lemma ConvertDateTooLate()
    ensures ConvertDate(Text("2300-01-01")) == None
  {
    assert Pad2(23) == "23" && Pad2(0) == "00" && Pad2(1) == "01";
    assert Format(Date(2300, 1, 1)) == "2300-01-01";
    FormatThenParse(Date(2300, 1, 1));
  }

  /** The day on which the first timestamp falls is not whole, and aborts the run. */
  lemma ConvertDateTooEarly()
    ensures ConvertDate(Text("1677-09-21")) == None
  {
    assert Pad2(16) == "16" && Pad2(77) == "77" && Pad2(9) == "09" && Pad2(21) == "21";
    assert Format(Date(1677, 9, 21)) == "1677-09-21";
    FormatThenParse(Date(1677, 9, 21));
  }

  /** The converted column, or `None` when some cell does not convert. */
  function ConvertDates(cells: seq<Cell>): (r: Option<seq<Cell>>)
    ensures r.Some? <==> forall i :: 0 <= i < |cells| ==> ConvertDate(cells[i]).Some?
    ensures r.Some? ==> |r.value| == |cells|
  {
    if forall i :: 0 <= i < |cells| ==> ConvertDate(cells[i]).Some? then
      Some(seq(|cells|, i requires 0 <= i < |cells| => ConvertDate(cells[i]).value))
    else None
  }

  /** `clean_date(df, column)`: KeyError when the column is absent, otherwise the column converted. */
  function CleanDateTable(t: Table, column: string): (r: Option<Table>)
    requires Rectangular(t)
    ensures r.Some? ==> Rectangular(r.value) && r.value.columns == t.columns && r.value.indexName == t.indexName
    ensures r.Some? ==> column in t.columns && Keys(r.value.rows) == Keys(t.rows)
  {
    var k := IndexOf(t.columns, column);
    if k == |t.columns| then None
    else match ConvertDates(Column(t, k))
      case None => None
      case Some(cells) => Some(WithColumn(t, k, cells))
  }

  /** Every cell of the named column is a cleaned date cell. */
  predicate DatesCleaned(t: Table, column: string)
    requires Rectangular(t)
  {
    var k := IndexOf(t.columns, column);
    k < |t.columns| && forall i :: 0 <= i < |t.rows| ==> IsoDateCell(t.rows[i].cells[k])
  }

  /**
   * `clean_date` succeeds exactly when the column exists and each of its cells is a
   * timestamp, an ISO date text or blank; it then leaves only cleaned date cells standing
   * for the same dates, and changes nothing else.
   */
  lemma CleanDateResult(t: Table, column: string)
    requires Rectangular(t)
    ensures var k := IndexOf(t.columns, column);
      CleanDateTable(t, column).Some? <==> k < |t.columns| && forall i :: 0 <= i < |t.rows| ==> ConvertDate(t.rows[i].cells[k]).Some?
    ensures CleanDateTable(t, column).Some? ==> var u := CleanDateTable(t, column).value; var k := IndexOf(t.columns, column);
      && DatesCleaned(u, column)
      && Keys(u.rows) == Keys(t.rows)
      && (forall i :: 0 <= i < |t.rows| ==> DateOf(u.rows[i].cells[k]) == DateOf(t.rows[i].cells[k]))
      && (forall j :: 0 <= j < |t.columns| && j != k ==> Column(u, j) == Column(t, j))
  {
    var k := IndexOf(t.columns, column);
    if CleanDateTable(t, column).Some? {
      var u := CleanDateTable(t, column).value;
      forall i | 0 <= i < |t.rows|
        ensures IsoDateCell(u.rows[i].cells[k]) && DateOf(u.rows[i].cells[k]) == DateOf(t.rows[i].cells[k])
      {
        assert u.rows[i].cells[k] == Column(u, k)[i];
      }
    }
  }

  /** Replacing a column by its own cells changes nothing. */
  lemma WithOwnColumn(t: Table, k: nat)
    requires Rectangular(t) && k < |t.columns|
    ensures WithColumn(t, k, Column(t, k)) == t
  {
    var u := WithColumn(t, k, Column(t, k));
    forall i | 0 <= i < |t.rows|
      ensures u.rows[i] == t.rows[i]
    {
      assert t.rows[i].cells[k := t.rows[i].cells[k]] == t.rows[i].cells;
    }
  }

  /** Running `clean_date` on its own output changes nothing. */
  lemma CleanDateIdempotent(t: Table, column: string)
    requires Rectangular(t) && CleanDateTable(t, column).Some?
    ensures CleanDateTable(CleanDateTable(t, column).value, column) == CleanDateTable(t, column)
  {
    var u := CleanDateTable(t, column).value;
    var k := IndexOf(t.columns, column);
    CleanDateResult(t, column);
    forall i | 0 <= i < |u.rows|
      ensures ConvertDate(u.rows[i].cells[k]) == Some(u.rows[i].cells[k])
    {
      ConvertDateDomain(u.rows[i].cells[k]);
    }
    assert IndexOf(u.columns, column) == k;
    var col := Column(u, k);
    assert forall i :: 0 <= i < |col| ==> ConvertDate(col[i]) == Some(col[i]) by {
      assert forall i :: 0 <= i < |u.rows| ==> col[i] == u.rows[i].cells[k];
    }
    assert ConvertDates(col).value == col;
    WithOwnColumn(u, k);
  }

  /** `clean_date` on a DataFrame: the column is overwritten in place and the same frame returned. */
  method CleanDate(df: DataFrame, column: string) returns (ok: bool)
    requires df.Valid()
    modifies df
    ensures df.Valid()
    ensures ok == CleanDateTable(old(df.Value()), column).Some?
    ensures ok ==> df.Value() == CleanDateTable(old(df.Value()), column).value
    ensures !ok ==> df.Value() == old(df.Value())
  {
    var k := IndexOf(df.columns, column);
    if k == |df.columns| {
      return false;
    }
    var cells := ConvertDates(Column(df.Value(), k));
    if cells.None? {
      return false;
    }
    df.AssignColumn(k, cells.value);
    ok := true;
  }

  // ---------------------------------------------------------------- unit strips

  /** What `str.replace` removes: the PE pattern `[^0-9.]+`, or a literal unit text. */
  datatype Strip = NonNumeric | Unit(text: string)

  function StripText(how: Strip, s: string): string
  {
    match how
    case NonNumeric => KeepNumeric(s)
    case Unit(u) => RemoveAll(s, u)
  }

  /**
   * `.str.replace(...)` then `.astype(float)` on one cell of a text column: text is
   * stripped and parsed (a ValueError is `None`); any other cell becomes NaN.
   */
  function StripCell(how: Strip, c: Cell): (r: Option<Cell>)
    ensures r.Some? ==> r.value.Num? || r.value.Missing?
    ensures r.None? <==> c.Text? && ParseFloat(StripText(how, c.s)).None?
  {
    if c.Text? then
      match ParseFloat(StripText(how, c.s))
      case Some(v) => Some(Num(v))
      case None => None
    else Some(Missing)
  }

  /** Some cell holds text. */
  predicate HoldsText(cells: seq<Cell>)
  {
    exists i :: 0 <= i < |cells| && cells[i].Text?
  }

  /**
   * The stripped column. The `.str` accessor refuses (AttributeError) a non-empty column
   * without any text, which pandas stores as numbers or times.
   */
  function StripCells(how: Strip, cells: seq<Cell>): (r: Option<seq<Cell>>)
    ensures r.Some? <==> (|cells| == 0 || HoldsText(cells)) && forall i :: 0 <= i < |cells| && cells[i].Text? ==> ParseFloat(StripText(how, cells[i].s)).Some?
    ensures r.Some? ==> |r.value| == |cells| && forall i :: 0 <= i < |cells| ==> r.value[i].Num? || r.value[i].Missing?
  {
    if 0 < |cells| && !HoldsText(cells) then None
    else if forall i :: 0 <= i < |cells| ==> StripCell(how, cells[i]).Some? then
      Some(seq(|cells|, i requires 0 <= i < |cells| => StripCell(how, cells[i]).value))
    else None
  }

  /** `df[column] = df[column].str.replace(...).astype(float)`. */
  function StripTable(t: Table, column: string, how: Strip): (r: Option<Table>)
    requires Rectangular(t)
    ensures r.Some? ==> Rectangular(r.value) && r.value.columns == t.columns && r.value.indexName == t.indexName
    ensures r.Some? ==> column in t.columns && Keys(r.value.rows) == Keys(t.rows)
  {
    var k := IndexOf(t.columns, column);
    if k == |t.columns| then None
    else match StripCells(how, Column(t, k))
      case None => None
      case Some(cells) => Some(WithColumn(t, k, cells))
  }

  /**
   * A strip succeeds exactly when the column exists, holds text (or no rows at all), and
   * the stripped text of each text cell is a number; the column then holds those numbers,
   * NaN where there was no text, and nothing else changes.
   */
  lemma StripResult(t: Table, column: string, how: Strip)
    requires Rectangular(t)
    ensures var k := IndexOf(t.columns, column);
      StripTable(t, column, how).Some? <==>
        && k < |t.columns|
        && (|t.rows| == 0 || HoldsText(Column(t, k)))
        && forall i :: 0 <= i < |t.rows| && t.rows[i].cells[k].Text? ==> ParseFloat(StripText(how, t.rows[i].cells[k].s)).Some?
    ensures StripTable(t, column, how).Some? ==> var u := StripTable(t, column, how).value; var k := IndexOf(t.columns, column);
      && Keys(u.rows) == Keys(t.rows)
      && (forall i :: 0 <= i < |t.rows| && t.rows[i].cells[k].Text? ==>
            u.rows[i].cells[k] == Num(ParseFloat(StripText(how, t.rows[i].cells[k].s)).value))
      && (forall i :: 0 <= i < |t.rows| && !t.rows[i].cells[k].Text? ==> u.rows[i].cells[k] == Missing)
      && (forall j :: 0 <= j < |t.columns| && j != k ==> Column(u, j) == Column(t, j))
  {
    var k := IndexOf(t.columns, column);
    if k < |t.columns| {
      var col := Column(t, k);
      assert forall i :: 0 <= i < |t.rows| ==> col[i] == t.rows[i].cells[k];
      if StripTable(t, column, how).Some? {
        var u := StripTable(t, column, how).value;
        assert forall i :: 0 <= i < |t.rows| ==> u.rows[i].cells[k] == Column(u, k)[i];
      }
    }
  }

  /** The PE strip parses exactly the cells whose kept characters hold a digit and at most one point. */
  lemma PeCellParses(s: string)
    ensures StripCell(NonNumeric, Text(s)).Some? <==> Points(KeepNumeric(s)) <= 1 && HasDigit(KeepNumeric(s))
  {
    KeptParses(s);
  }

  /** The inflation strip leaves no '%' in the text it parses. */
  lemma InflationTextHasNoPercent(s: string)
    ensures '%' !in StripText(Unit("%"), s)
  {
    RemoveCharCounts(s, '%', '%');
  }

  // ---------------------------------------------------------------- the run

  /** The weekly sheet's columns as downloaded. */
  const WeeklySource: seq<string> := ["Date_", "High_^GSPC", "Open_^GSPC", "Close_^GSPC", "Low_^GSPC"]

  /** The weekly sheet's rename map. */
  const WeeklyNames: map<string, string> :=
    map["Date_" := "Date", "High_^GSPC" := "High", "Open_^GSPC" := "Open", "Close_^GSPC" := "Close", "Low_^GSPC" := "Low"]

  const GdpNames: map<string, string> := map["GDP Value" := "GDP Value - trillion"]
  const InflationNames: map<string, string> := map["Inflation Rate" := "Inflation Rate %"]

  /** No two weekly source columns receive the same new name. */
  lemma WeeklyNamesInjective()
    ensures forall a, b :: a in WeeklyNames && b in WeeklyNames && WeeklyNames[a] == WeeklyNames[b] ==> a == b
  {
  }

  /** The weekly sheet up to and including `clean_date`. */
  function PrepareWeekly(t: Table): (r: Option<Table>)
    requires Rectangular(t)
    ensures r.Some? ==> forall j :: 0 <= j < |WeeklySource| ==> WeeklySource[j] in t.columns
    ensures r.Some? ==> Rectangular(r.value) && r.value.columns == ["Date", "High", "Open", "Close", "Low"]
    ensures r.Some? ==> |r.value.rows| == |t.rows| && r.value.indexName == None
  {
    match Select(t, WeeklySource)
    case None => None
    case Some(s) =>
      var u := ReverseReset(Rename(s, WeeklyNames));
      assert u.columns == ["Date", "High", "Open", "Close", "Low"];
      CleanDateTable(u, "Date")
  }

  /** A sheet whose only step before sorting is `clean_date`. */
  function PrepareDated(t: Table): Option<Table>
    requires Rectangular(t)
  {
    CleanDateTable(t, "Date")
  }

  /** `clean_date`, then the PE strip: both columns must exist, and the columns and row keys stay. */
  function PreparePe(t: Table): (r: Option<Table>)
    requires Rectangular(t)
    ensures r.Some? ==> "Date" in t.columns && "PE Ratio Value" in t.columns
    ensures r.Some? ==> Rectangular(r.value) && r.value.columns == t.columns && Keys(r.value.rows) == Keys(t.rows)
  {
    match CleanDateTable(t, "Date")
    case None => None
    case Some(u) => StripTable(u, "PE Ratio Value", NonNumeric)
  }

  /** `clean_date`, the GDP strip and the rename: both columns must exist, and only the GDP label changes. */
  function PrepareGdp(t: Table): (r: Option<Table>)
    requires Rectangular(t)
    ensures r.Some? ==> "Date" in t.columns && "GDP Value" in t.columns
    ensures r.Some? ==> Rectangular(r.value) && r.value.columns == RenameLabels(t.columns, GdpNames) && Keys(r.value.rows) == Keys(t.rows)
  {
    match CleanDateTable(t, "Date")
    case None => None
    case Some(u) =>
      match StripTable(u, "GDP Value", Unit(" trillion"))
      case None => None
      case Some(v) => Some(Rename(v, GdpNames))
  }

  /** `clean_date`, the inflation strip and the rename: both columns must exist, and only the inflation label changes. */
  function PrepareInflation(t: Table): (r: Option<Table>)
    requires Rectangular(t)
    ensures r.Some? ==> "Date" in t.columns && "Inflation Rate" in t.columns
    ensures r.Some? ==> Rectangular(r.value) && r.value.columns == RenameLabels(t.columns, InflationNames) && Keys(r.value.rows) == Keys(t.rows)
  {
    match CleanDateTable(t, "Date")
    case None => None
    case Some(u) =>
      match StripTable(u, "Inflation Rate", Unit("%"))
      case None => None
      case Some(v) => Some(Rename(v, InflationNames))
  }

  /**
   * The weekly sheet keeps exactly the five renamed columns, its rows reversed from the
   * download order; it fails only when a source column is missing or a date does not convert.
   */
  lemma WeeklyShape(t: Table)
    requires Rectangular(t)
    ensures PrepareWeekly(t).Some? ==> PrepareWeekly(t).value.columns == ["Date", "High", "Open", "Close", "Low"]
    ensures PrepareWeekly(t).Some? ==> |PrepareWeekly(t).value.rows| == |t.rows|
    ensures PrepareWeekly(t).Some? <==>
      && (forall j :: 0 <= j < |WeeklySource| ==> WeeklySource[j] in t.columns)
      && var k := IndexOf(t.columns, "Date_");
         forall i :: 0 <= i < |t.rows| ==> ConvertDate(t.rows[i].cells[k]).Some?
  {
    if s :| Select(t, WeeklySource) == Some(s) {
      var r := ReverseReset(Rename(s, WeeklyNames));
      assert r.columns == ["Date", "High", "Open", "Close", "Low"];
      assert IndexOf(r.columns, "Date") == 0;
      assert IndexOf(WeeklySource, "Date_") == 0;
      CleanDateResult(r, "Date");
      var k := IndexOf(t.columns, "Date_");
      assert Column(s, 0) == Column(t, k);
      forall i | 0 <= i < |t.rows|
        ensures r.rows[|t.rows| - 1 - i].cells[0] == t.rows[i].cells[k]
      {
        assert s.rows[i].cells[0] == Column(s, 0)[i];
      }
      if !forall i :: 0 <= i < |t.rows| ==> ConvertDate(t.rows[i].cells[k]).Some? {
        var i :| 0 <= i < |t.rows| && ConvertDate(t.rows[i].cells[k]).None?;
        assert ConvertDate(r.rows[|t.rows| - 1 - i].cells[0]).None?;
      }
    }
  }

  /** Renaming a present label that no other column carries: the new label is there, the old one gone. */
  lemma RenamedLabel(t: Table, was: string, now: string)
    requires Rectangular(t) && was in t.columns && now !in t.columns && was != now
    ensures now in Rename(t, map[was := now]).columns && was !in Rename(t, map[was := now]).columns
  {
    var k := IndexOf(t.columns, was);
    assert Rename(t, map[was := now]).columns[k] == now;
  }

  /** The GDP sheet ends up with its unit in the column name. */
  lemma GdpColumnRenamed(t: Table)
    requires Rectangular(t) && "GDP Value - trillion" !in t.columns
    ensures PrepareGdp(t).Some? ==> "GDP Value - trillion" in PrepareGdp(t).value.columns
    ensures PrepareGdp(t).Some? ==> "GDP Value" !in PrepareGdp(t).value.columns
  {
    if PrepareGdp(t).Some? {
      var u := CleanDateTable(t, "Date").value;
      var v := StripTable(u, "GDP Value", Unit(" trillion")).value;
      RenamedLabel(v, "GDP Value", "GDP Value - trillion");
    }
  }

  /** The inflation sheet ends up with its unit in the column name. */
  lemma InflationColumnRenamed(t: Table)
    requires Rectangular(t) && "Inflation Rate %" !in t.columns
    ensures PrepareInflation(t).Some? ==> "Inflation Rate %" in PrepareInflation(t).value.columns
    ensures PrepareInflation(t).Some? ==> "Inflation Rate" !in PrepareInflation(t).value.columns
  {
    if PrepareInflation(t).Some? {
      var u := CleanDateTable(t, "Date").value;
      var v := StripTable(u, "Inflation Rate", Unit("%")).value;
      RenamedLabel(v, "Inflation Rate", "Inflation Rate %");
    }
  }

  /** The key a row carries after `set_index('Date')`, read as a date. */
  function KeyDate(r: Row): Option<Date>
  {
    match r.key
    case Label(Text(s)) => ParseIso(s)
    case _ => None
  }

  /**
   * The index of a finished sheet: every key is a real date or blank, dates run forward
   * in time, and the blanks come last.
   */
  predicate Chronological(t: Table)
  {
    && (forall i :: 0 <= i < |t.rows| ==> KeyDate(t.rows[i]).Some? || t.rows[i].key == Label(Missing))
    && (forall i, j :: 0 <= i < j < |t.rows| && KeyDate(t.rows[i]).Some? && KeyDate(t.rows[j]).Some? ==>
          Ordinal(KeyDate(t.rows[i]).value) <= Ordinal(KeyDate(t.rows[j]).value))
    && (forall i, j :: 0 <= i < j < |t.rows| && t.rows[i].key == Label(Missing) ==> t.rows[j].key == Label(Missing))
  }

  /** `u` is what sorting the prepared sheet `p` by date and indexing it by date leaves. */
  ghost predicate Finished(p: Option<Table>, u: Table)
  {
    p.Some? && Rectangular(p.value)
    && exists s :: Rectangular(s) && SortedVersion(p.value, "Date", s) && SetIndex(s, "Date") == Some(u)
  }

  /**
   * Sorting text `YYYY-MM-DD` dates as strings sorts them in time: the string sort of
   * `sort_values` followed by `set_index` yields a chronological index.
   */
  lemma SortedDatesChronological(p: Table, s: Table)
    requires Rectangular(p) && Rectangular(s) && DatesCleaned(p, "Date")
    requires SortedVersion(p, "Date", s)
    ensures SetIndex(s, "Date").Some? && Chronological(SetIndex(s, "Date").value)
  {
    var k := IndexOf(p.columns, "Date");
    var u := SetIndex(s, "Date").value;
    assert forall i :: 0 <= i < |s.rows| ==> IsoDateCell(s.rows[i].cells[k]) by {
      forall i | 0 <= i < |s.rows|
        ensures IsoDateCell(s.rows[i].cells[k])
      {
        assert s.rows[i] in multiset(p.rows);
      }
    }
    forall i, j | 0 <= i < j < |u.rows| && KeyDate(u.rows[i]).Some? && KeyDate(u.rows[j]).Some?
      ensures Ordinal(KeyDate(u.rows[i]).value) <= Ordinal(KeyDate(u.rows[j]).value)
    {
      var a, b := s.rows[i].cells[k].s, s.rows[j].cells[k].s;
      var da, db := ParseIso(a).value, ParseIso(b).value;
      ParseThenFormat(a, da);
      ParseThenFormat(b, db);
      assert CellLe(SortCell(s.rows[i], k), SortCell(s.rows[j], k));
      FormatChronological(da, db);
      if a == b {
        assert da == db;
      }
    }
  }

  /** A strip of another column keeps the cleaned dates. */
  lemma StripKeepsDates(u: Table, column: string, how: Strip)
    requires Rectangular(u) && DatesCleaned(u, "Date") && column != "Date"
    ensures StripTable(u, column, how).Some? ==> DatesCleaned(StripTable(u, column, how).value, "Date")
  {
    if StripTable(u, column, how).Some? {
      var v := StripTable(u, column, how).value;
      var k := IndexOf(u.columns, "Date");
      StripResult(u, column, how);
      forall i | 0 <= i < |u.rows|
        ensures IsoDateCell(v.rows[i].cells[k])
      {
        assert v.rows[i].cells[k] == Column(v, k)[i] == Column(u, k)[i];
      }
    }
  }

  /** A rename that neither takes nor gives the label "Date" keeps the cleaned dates. */
  lemma RenameKeepsDates(v: Table, m: map<string, string>)
    requires Rectangular(v) && DatesCleaned(v, "Date")
    requires "Date" !in m && forall c :: c in m ==> m[c] != "Date"
    ensures DatesCleaned(Rename(v, m), "Date")
  {
    var w := Rename(v, m);
    assert forall i :: 0 <= i < |v.columns| ==> (w.columns[i] == "Date" <==> v.columns[i] == "Date");
    assert IndexOf(w.columns, "Date") == IndexOf(v.columns, "Date");
  }

  lemma WeeklyDates(t: Table)
    requires Rectangular(t)
    ensures PrepareWeekly(t).Some? ==> DatesCleaned(PrepareWeekly(t).value, "Date")
  {
    if s :| Select(t, WeeklySource) == Some(s) {
      CleanDateResult(ReverseReset(Rename(s, WeeklyNames)), "Date");
    }
  }

  lemma CleanedDates(t: Table)
    requires Rectangular(t)
    ensures CleanDateTable(t, "Date").Some? ==> DatesCleaned(CleanDateTable(t, "Date").value, "Date")
  {
    CleanDateResult(t, "Date");
  }

  lemma PeDates(t: Table)
    requires Rectangular(t)
    ensures PreparePe(t).Some? ==> DatesCleaned(PreparePe(t).value, "Date")
  {
    CleanedDates(t);
    if u :| CleanDateTable(t, "Date") == Some(u) {
      StripKeepsDates(u, "PE Ratio Value", NonNumeric);
    }
  }

  lemma GdpDates(t: Table)
    requires Rectangular(t)
    ensures PrepareGdp(t).Some? ==> DatesCleaned(PrepareGdp(t).value, "Date")
  {
    CleanedDates(t);
    if u :| CleanDateTable(t, "Date") == Some(u) {
      StripKeepsDates(u, "GDP Value", Unit(" trillion"));
      if v :| StripTable(u, "GDP Value", Unit(" trillion")) == Some(v) {
        RenameKeepsDates(v, GdpNames);
      }
    }
  }

  lemma InflationDates(t: Table)
    requires Rectangular(t)
    ensures PrepareInflation(t).Some? ==> DatesCleaned(PrepareInflation(t).value, "Date")
  {
    CleanedDates(t);
    if u :| CleanDateTable(t, "Date") == Some(u) {
      StripKeepsDates(u, "Inflation Rate", Unit("%"));
      if v :| StripTable(u, "Inflation Rate", Unit("%")) == Some(v) {
        RenameKeepsDates(v, InflationNames);
      }
    }
  }

  /** `sort_values(by='Date', inplace=True)` on a sheet whose dates are cleaned: it cannot fail. */
  method SortByDate(df: DataFrame)
    requires df.Valid() && DatesCleaned(df.Value(), "Date")
    modifies df
    ensures df.Valid() && Rectangular(old(df.Value()))
    ensures SortedVersion(old(df.Value()), "Date", df.Value())
  {
    ghost var p := df.Value();
    var ok := df.SortValues("Date");
    assert ok by {
      var k := IndexOf(p.columns, "Date");
      assert forall i :: 0 <= i < |p.rows| ==> Column(p, k)[i] == p.rows[i].cells[k];
    }
  }

  /** `set_index('Date', inplace=True)` on a sorted sheet `p`: the sheet is finished, its index chronological. */
  method IndexByDate(df: DataFrame, ghost p: Table)
    requires df.Valid() && Rectangular(p) && DatesCleaned(p, "Date")
    requires SortedVersion(p, "Date", df.Value())
    modifies df
    ensures df.Valid()
    ensures Finished(Some(p), df.Value()) && Chronological(df.Value())
  {
    SortedDatesChronological(p, df.Value());
    var ok := df.SetIndexColumn("Date");
  }

  /** `df[column] = df[column].str.replace(...).astype(float)` on a DataFrame. */
  method StripColumn(df: DataFrame, column: string, how: Strip) returns (ok: bool)
    requires df.Valid()
    modifies df
    ensures df.Valid()
    ensures ok == StripTable(old(df.Value()), column, how).Some?
    ensures ok ==> df.Value() == StripTable(old(df.Value()), column, how).value
    ensures !ok ==> df.Value() == old(df.Value())
  {
    var k := IndexOf(df.columns, column);
    if k == |df.columns| {
      return false;
    }
    var cells := StripCells(how, Column(df.Value(), k));
    if cells.None? {
      return false;
    }
    df.AssignColumn(k, cells.value);
    ok := true;
  }

  /** The weekly sheet's steps up to `clean_date`: select, rename, reverse, clean the dates. */
  method PrepareWeeklyFrame(weekly: DataFrame) returns (ok: bool)
    requires weekly.Valid()
    modifies weekly
    ensures weekly.Valid()
    ensures ok == PrepareWeekly(old(weekly.Value())).Some?
    ensures ok ==> weekly.Value() == PrepareWeekly(old(weekly.Value())).value
  {
    ok := weekly.SelectColumns(WeeklySource);
    if !ok {
      return;
    }
    weekly.RenameColumns(WeeklyNames);
    weekly.ReverseRows();
    ok := CleanDate(weekly, "Date");
  }

  /** Eight different frame objects: each sheet is read into a frame of its own. */
  predicate Separate(weekly: DataFrame, dividend: DataFrame, earnings: DataFrame, pe: DataFrame,
                     historical: DataFrame, cpi: DataFrame, gdp: DataFrame, inflation: DataFrame)
  {
    weekly != dividend && weekly != earnings && weekly != pe && weekly != historical && weekly != cpi && weekly != gdp && weekly != inflation
    && dividend != earnings && dividend != pe && dividend != historical && dividend != cpi && dividend != gdp && dividend != inflation
    && earnings != pe && earnings != historical && earnings != cpi && earnings != gdp && earnings != inflation
    && pe != historical && pe != cpi && pe != gdp && pe != inflation
    && historical != cpi && historical != gdp && historical != inflation
    && cpi != gdp && cpi != inflation
    && gdp != inflation
  }

  /** The weekly preparation and the eight `clean_date` calls, in script order. */
  method CleanAllDates(weekly: DataFrame, dividend: DataFrame, earnings: DataFrame, pe: DataFrame,
                       historical: DataFrame, cpi: DataFrame, gdp: DataFrame, inflation: DataFrame)
    returns (ok: bool)
    requires Separate(weekly, dividend, earnings, pe, historical, cpi, gdp, inflation)
    requires weekly.Valid() && dividend.Valid() && earnings.Valid() && pe.Valid()
    requires historical.Valid() && cpi.Valid() && gdp.Valid() && inflation.Valid()
    modifies weekly, dividend, earnings, pe, historical, cpi, gdp, inflation
    ensures weekly.Valid() && dividend.Valid() && earnings.Valid() && pe.Valid()
    ensures historical.Valid() && cpi.Valid() && gdp.Valid() && inflation.Valid()
    ensures ok <==>
      && PrepareWeekly(old(weekly.Value())).Some?
      && CleanDateTable(old(dividend.Value()), "Date").Some?
      && CleanDateTable(old(earnings.Value()), "Date").Some?
      && CleanDateTable(old(pe.Value()), "Date").Some?
      && CleanDateTable(old(historical.Value()), "Date").Some?
      && CleanDateTable(old(cpi.Value()), "Date").Some?
      && CleanDateTable(old(gdp.Value()), "Date").Some?
      && CleanDateTable(old(inflation.Value()), "Date").Some?
    ensures ok ==> weekly.Value() == PrepareWeekly(old(weekly.Value())).value
    ensures ok ==> dividend.Value() == CleanDateTable(old(dividend.Value()), "Date").value
    ensures ok ==> earnings.Value() == CleanDateTable(old(earnings.Value()), "Date").value
    ensures ok ==> pe.Value() == CleanDateTable(old(pe.Value()), "Date").value
    ensures ok ==> historical.Value() == CleanDateTable(old(historical.Value()), "Date").value
    ensures ok ==> cpi.Value() == CleanDateTable(old(cpi.Value()), "Date").value
    ensures ok ==> gdp.Value() == CleanDateTable(old(gdp.Value()), "Date").value
    ensures ok ==> inflation.Value() == CleanDateTable(old(inflation.Value()), "Date").value
  {
    ok := PrepareWeeklyFrame(weekly);
    if !ok { return; }
    ok := CleanDate(dividend, "Date");
    if !ok { return; }
    ok := CleanDate(earnings, "Date");
    if !ok { return; }
    ok := CleanDate(pe, "Date");
    if !ok { return; }
    ok := CleanDate(historical, "Date");
    if !ok { return; }
    ok := CleanDate(cpi, "Date");
    if !ok { return; }
    ok := CleanDate(gdp, "Date");
    if !ok { return; }
    ok := CleanDate(inflation, "Date");
  }

  /** The PE strip, on the PE sheet read as `t0` whose dates are already converted. */
  method StripPe(pe: DataFrame, ghost t0: Table) returns (ok: bool)
    requires pe.Valid() && Rectangular(t0) && CleanDateTable(t0, "Date") == Some(pe.Value())
    modifies pe
    ensures pe.Valid()
    ensures ok == PreparePe(t0).Some?
    ensures ok ==> PreparePe(t0) == Some(pe.Value())
  {
    ok := StripColumn(pe, "PE Ratio Value", NonNumeric);
  }

  /** The GDP strip and rename, on the GDP sheet read as `t0` whose dates are already converted. */
  method StripGdp(gdp: DataFrame, ghost t0: Table) returns (ok: bool)
    requires gdp.Valid() && Rectangular(t0) && CleanDateTable(t0, "Date") == Some(gdp.Value())
    modifies gdp
    ensures gdp.Valid()
    ensures ok == PrepareGdp(t0).Some?
    ensures ok ==> PrepareGdp(t0) == Some(gdp.Value())
  {
    ok := StripColumn(gdp, "GDP Value", Unit(" trillion"));
    if ok {
      gdp.RenameColumns(GdpNames);
    }
  }

  /** The inflation strip and rename, on the inflation sheet read as `t0` whose dates are already converted. */
  method StripInflation(inflation: DataFrame, ghost t0: Table) returns (ok: bool)
    requires inflation.Valid() && Rectangular(t0) && CleanDateTable(t0, "Date") == Some(inflation.Value())
    modifies inflation
    ensures inflation.Valid()
    ensures ok == PrepareInflation(t0).Some?
    ensures ok ==> PrepareInflation(t0) == Some(inflation.Value())
  {
    ok := StripColumn(inflation, "Inflation Rate", Unit("%"));
    if ok {
      inflation.RenameColumns(InflationNames);
    }
  }

  /** The eight sorts by date, then the eight `set_index('Date')` calls. */
  method FinishAll(weekly: DataFrame, dividend: DataFrame, earnings: DataFrame, pe: DataFrame,
                   historical: DataFrame, cpi: DataFrame, gdp: DataFrame, inflation: DataFrame)
    requires Separate(weekly, dividend, earnings, pe, historical, cpi, gdp, inflation)
    requires weekly.Valid() && dividend.Valid() && earnings.Valid() && pe.Valid()
    requires historical.Valid() && cpi.Valid() && gdp.Valid() && inflation.Valid()
    requires DatesCleaned(weekly.Value(), "Date") && DatesCleaned(dividend.Value(), "Date")
    requires DatesCleaned(earnings.Value(), "Date") && DatesCleaned(pe.Value(), "Date")
    requires DatesCleaned(historical.Value(), "Date") && DatesCleaned(cpi.Value(), "Date")
    requires DatesCleaned(gdp.Value(), "Date") && DatesCleaned(inflation.Value(), "Date")
    modifies weekly, dividend, earnings, pe, historical, cpi, gdp, inflation
    ensures Finished(Some(old(weekly.Value())), weekly.Value()) && Chronological(weekly.Value())
    ensures Finished(Some(old(dividend.Value())), dividend.Value()) && Chronological(dividend.Value())
    ensures Finished(Some(old(earnings.Value())), earnings.Value()) && Chronological(earnings.Value())
    ensures Finished(Some(old(pe.Value())), pe.Value()) && Chronological(pe.Value())
    ensures Finished(Some(old(historical.Value())), historical.Value()) && Chronological(historical.Value())
    ensures Finished(Some(old(cpi.Value())), cpi.Value()) && Chronological(cpi.Value())
    ensures Finished(Some(old(gdp.Value())), gdp.Value()) && Chronological(gdp.Value())
    ensures Finished(Some(old(inflation.Value())), inflation.Value()) && Chronological(inflation.Value())
  {
    ghost var w0, d0, e0, p0 := weekly.Value(), dividend.Value(), earnings.Value(), pe.Value();
    ghost var h0, c0, g0, i0 := historical.Value(), cpi.Value(), gdp.Value(), inflation.Value();
    SortByDate(weekly);
    SortByDate(dividend);
    SortByDate(earnings);
    SortByDate(pe);
    SortByDate(historical);
    SortByDate(cpi);
    SortByDate(gdp);
    SortByDate(inflation);
    IndexByDate(weekly, w0);
    IndexByDate(dividend, d0);
    IndexByDate(earnings, e0);
    IndexByDate(pe, p0);
    IndexByDate(historical, h0);
    IndexByDate(cpi, c0);
    IndexByDate(gdp, g0);
    IndexByDate(inflation, i0);
  }

  /**
   * The whole run over the eight sheets. It completes exactly when every sheet's
   * preparation succeeds; each sheet is then its prepared table sorted by date and
   * indexed by date, with a chronological index. `false` is an exception that stops
   * the run before anything is written.
   */
  method Clean(weekly: DataFrame, dividend: DataFrame, earnings: DataFrame, pe: DataFrame,
               historical: DataFrame, cpi: DataFrame, gdp: DataFrame, inflation: DataFrame)
    returns (ok: bool)
    requires Separate(weekly, dividend, earnings, pe, historical, cpi, gdp, inflation)
    requires weekly.Valid() && dividend.Valid() && earnings.Valid() && pe.Valid()
    requires historical.Valid() && cpi.Valid() && gdp.Valid() && inflation.Valid()
    modifies weekly, dividend, earnings, pe, historical, cpi, gdp, inflation
    ensures ok <==>
      && PrepareWeekly(old(weekly.Value())).Some?
      && PrepareDated(old(dividend.Value())).Some?
      && PrepareDated(old(earnings.Value())).Some?
      && PreparePe(old(pe.Value())).Some?
      && PrepareDated(old(historical.Value())).Some?
      && PrepareDated(old(cpi.Value())).Some?
      && PrepareGdp(old(gdp.Value())).Some?
      && PrepareInflation(old(inflation.Value())).Some?
    ensures ok ==> Finished(PrepareWeekly(old(weekly.Value())), weekly.Value()) && Chronological(weekly.Value())
    ensures ok ==> Finished(PrepareDated(old(dividend.Value())), dividend.Value()) && Chronological(dividend.Value())
    ensures ok ==> Finished(PrepareDated(old(earnings.Value())), earnings.Value()) && Chronological(earnings.Value())
    ensures ok ==> Finished(PreparePe(old(pe.Value())), pe.Value()) && Chronological(pe.Value())
    ensures ok ==> Finished(PrepareDated(old(historical.Value())), historical.Value()) && Chronological(historical.Value())
    ensures ok ==> Finished(PrepareDated(old(cpi.Value())), cpi.Value()) && Chronological(cpi.Value())
    ensures ok ==> Finished(PrepareGdp(old(gdp.Value())), gdp.Value()) && Chronological(gdp.Value())
    ensures ok ==> Finished(PrepareInflation(old(inflation.Value())), inflation.Value()) && Chronological(inflation.Value())
  {
    ghost var w0, d0, e0, p0 := weekly.Value(), dividend.Value(), earnings.Value(), pe.Value();
    ghost var h0, c0, g0, i0 := historical.Value(), cpi.Value(), gdp.Value(), inflation.Value();
    ok := CleanAllDates(weekly, dividend, earnings, pe, historical, cpi, gdp, inflation);
    if !ok { return; }
    ok := StripPe(pe, p0);
    if !ok { return; }
    ok := StripGdp(gdp, g0);
    if !ok { return; }
    ok := StripInflation(inflation, i0);
    if !ok { return; }
    WeeklyDates(w0);
    CleanedDates(d0);
    CleanedDates(e0);
    PeDates(p0);
    CleanedDates(h0);
    CleanedDates(c0);
    GdpDates(g0);
    InflationDates(i0);
    FinishAll(weekly, dividend, earnings, pe, historical, cpi, gdp, inflation);
  }
}
