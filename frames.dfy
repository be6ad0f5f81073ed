/**
 * The slice of pandas that the cleaning run uses: a DataFrame as labelled columns over
 * rows, each row carrying its index key. Pure functions on `Table` values state what
 * each operation computes; the `DataFrame` class performs the same operations in place.
 */
module Frames {
  import opened Wrappers
  import opened Sequences
  import opened Strings
  import opened Calendar

  /** One spreadsheet cell as `read_excel` delivers it; `Missing` is NaN / NaT. */
  datatype Cell = Text(s: string) | Num(x: real) | Stamp(d: Timestamp) | Missing

  /** A row's index key: a RangeIndex position, or the label moved there by `set_index`. */
  datatype Key = Position(n: nat) | Label(c: Cell)

  datatype Row = Row(key: Key, cells: seq<Cell>)

  /** Column labels, rows (index key and one cell per column), and the index's name. */
  datatype Table = Table(columns: seq<string>, rows: seq<Row>, indexName: Option<string>)

  /** Every row has one cell per column. */
  predicate Rectangular(t: Table)
  {
    forall i :: 0 <= i < |t.rows| ==> |t.rows[i].cells| == |t.columns|
  }

  /** `df.iloc[:, k]`: the cells of column `k`, top to bottom. */
  function Column(t: Table, k: nat): (c: seq<Cell>)
    requires Rectangular(t) && k < |t.columns|
    ensures |c| == |t.rows|
  {
    seq(|t.rows|, i requires 0 <= i < |t.rows| => t.rows[i].cells[k])
  }

  /** The row keys, top to bottom. */
  function Keys(rows: seq<Row>): (ks: seq<Key>)
    ensures |ks| == |rows|
  {
    seq(|rows|, i requires 0 <= i < |rows| => rows[i].key)
  }

  /** The cells of one row at the given column positions. */
  function Pick(cells: seq<Cell>, at: seq<nat>): (r: seq<Cell>)
    requires forall j :: 0 <= j < |at| ==> at[j] < |cells|
    ensures |r| == |at|
  {
    seq(|at|, j requires 0 <= j < |at| => cells[at[j]])
  }

  /** `df[names]`: KeyError (`None`) unless every name is a column; otherwise those columns in that order. */
  function Select(t: Table, names: seq<string>): (r: Option<Table>)
    requires Rectangular(t)
    ensures r.Some? <==> forall j :: 0 <= j < |names| ==> names[j] in t.columns
    ensures r.Some? ==> Rectangular(r.value) && r.value.columns == names && Keys(r.value.rows) == Keys(t.rows)
    ensures r.Some? ==> forall j :: 0 <= j < |names| ==> Column(r.value, j) == Column(t, IndexOf(t.columns, names[j]))
  {
    if forall j :: 0 <= j < |names| ==> names[j] in t.columns then
      var at := seq(|names|, j requires 0 <= j < |names| => IndexOf(t.columns, names[j]));
      Some(Table(names, seq(|t.rows|, i requires 0 <= i < |t.rows| => Row(t.rows[i].key, Pick(t.rows[i].cells, at))), t.indexName))
    else None
  }

  /** The label a column gets from `rename(columns=m)`: labels not in `m` are kept. */
  function RenameLabel(c: string, m: map<string, string>): string
  {
    if c in m then m[c] else c
  }

  function RenameLabels(cols: seq<string>, m: map<string, string>): (r: seq<string>)
    ensures |r| == |cols|
  {
    seq(|cols|, i requires 0 <= i < |cols| => RenameLabel(cols[i], m))
  }

  /** `rename(columns=m)`: only the labels change; keys missing from the frame are ignored. */
  function Rename(t: Table, m: map<string, string>): (r: Table)
    requires Rectangular(t)
    ensures Rectangular(r) && r.rows == t.rows && |r.columns| == |t.columns|
    ensures forall i :: 0 <= i < |t.columns| && t.columns[i] !in m ==> r.columns[i] == t.columns[i]
    ensures forall i :: 0 <= i < |t.columns| && t.columns[i] in m ==> r.columns[i] == m[t.columns[i]]
  {
    Table(RenameLabels(t.columns, m), t.rows, t.indexName)
  }

  /** The rows, keyed 0, 1, 2, ... as `reset_index(drop=True)` leaves them. */
  function Renumber(rows: seq<Row>): (r: seq<Row>)
    ensures |r| == |rows|
  {
    seq(|rows|, i requires 0 <= i < |rows| => Row(Position(i), rows[i].cells))
  }

  /** `iloc[::-1].reset_index(drop=True)`: the rows last first, renumbered from 0. */
  function ReverseReset(t: Table): (r: Table)
    requires Rectangular(t)
    ensures Rectangular(r) && r.columns == t.columns && |r.rows| == |t.rows|
    ensures forall i :: 0 <= i < |t.rows| ==> r.rows[i] == Row(Position(i), t.rows[|t.rows| - 1 - i].cells)
    ensures r.indexName == None
  {
    Table(t.columns, Renumber(Reversed(t.rows)), None)
  }

  /** The frame `read_excel` builds: a RangeIndex without a name. */
  predicate FreshlyRead(t: Table)
  {
    t.indexName == None && forall i :: 0 <= i < |t.rows| ==> t.rows[i].key == Position(i)
  }

  /** Reversing a freshly read frame twice gives it back unchanged. */
  lemma ReverseResetTwice(t: Table)
    requires Rectangular(t) && FreshlyRead(t)
    ensures ReverseReset(ReverseReset(t)) == t
  {
    var r := ReverseReset(ReverseReset(t));
    assert |r.rows| == |t.rows|;
    forall i | 0 <= i < |t.rows|
      ensures r.rows[i] == t.rows[i]
    {
    }
  }

  /** `df[df.columns[k]] = cells`: column `k` replaced, everything else kept. */
  function WithColumn(t: Table, k: nat, cells: seq<Cell>): (r: Table)
    requires Rectangular(t) && k < |t.columns| && |cells| == |t.rows|
    ensures Rectangular(r) && r.columns == t.columns && Keys(r.rows) == Keys(t.rows)
    ensures Column(r, k) == cells
    ensures forall j :: 0 <= j < |t.columns| && j != k ==> Column(r, j) == Column(t, j)
  {
    var rows := seq(|t.rows|, i requires 0 <= i < |t.rows| => Row(t.rows[i].key, t.rows[i].cells[k := cells[i]]));
    var r := Table(t.columns, rows, t.indexName);
    assert forall j :: 0 <= j < |t.columns| && j != k ==> Column(r, j) == Column(t, j);
    r
  }

  /** The cells of a row without the one at `k`. */
  function Drop<T>(s: seq<T>, k: nat): (r: seq<T>)
    requires k < |s|
    ensures |r| == |s| - 1
    ensures forall j :: 0 <= j < k ==> r[j] == s[j]
    ensures forall j :: k <= j < |r| ==> r[j] == s[j + 1]
  {
    s[..k] + s[k + 1..]
  }

  /**
   * `set_index(name)`: KeyError (`None`) unless `name` is a column; otherwise that
   * column becomes the row keys and leaves the columns. Duplicate keys are accepted.
   */
  function SetIndex(t: Table, name: string): (r: Option<Table>)
    requires Rectangular(t)
    ensures r.Some? <==> name in t.columns
    ensures r.Some? ==> var k := IndexOf(t.columns, name);
      && Rectangular(r.value) && r.value.indexName == Some(name)
      && r.value.columns == Drop(t.columns, k) && |r.value.rows| == |t.rows|
      && forall i :: 0 <= i < |t.rows| ==> r.value.rows[i] == Row(Label(t.rows[i].cells[k]), Drop(t.rows[i].cells, k))
  {
    var k := IndexOf(t.columns, name);
    if k < |t.columns| then
      Some(Table(Drop(t.columns, k), seq(|t.rows|, i requires 0 <= i < |t.rows| => Row(Label(t.rows[i].cells[k]), Drop(t.rows[i].cells, k))), Some(name)))
    else None
  }

  /** Sort rank of a cell kind; NaN / NaT sorts last (`na_position='last'`). */
  function Rank(c: Cell): nat
  {
    match c
    case Text(_) => 0
    case Num(_) => 1
    case Stamp(_) => 2
    case Missing => 3
  }

  /** The order `sort_values` uses on a column: str `<=`, number `<=`, calendar order on times, missing last. */
  predicate CellLe(a: Cell, b: Cell)
    ensures b.Missing? ==> CellLe(a, b)
    ensures a.Missing? && CellLe(a, b) ==> b.Missing?
    ensures a.Stamp? && b.Stamp? ==> (CellLe(a, b) <==> !Before(b.d, a.d))
  {
    if Rank(a) != Rank(b) then Rank(a) < Rank(b)
    else match a
      case Text(s) => LessEq(s, b.s)
      case Num(x) => x <= b.x
      case Stamp(d) =>
        OrdinalOrder(d, b.d);
        Ordinal(d) <= Ordinal(b.d)
      case Missing => true
  }

  lemma CellLeTotalPreorder(a: Cell, b: Cell, c: Cell)
    ensures CellLe(a, b) || CellLe(b, a)
    ensures CellLe(a, b) && CellLe(b, c) ==> CellLe(a, c)
  {
    if a.Text? && b.Text? && c.Text? {
      LessEqTotalOrder(a.s, b.s, c.s);
    } else if a.Text? && b.Text? {
      LessEqTotalOrder(a.s, b.s, a.s);
    }
  }

  /** The cell that decides a row's place when sorting by column `k`. */
  function SortCell(r: Row, k: nat): Cell
  {
    if k < |r.cells| then r.cells[k] else Missing
  }

  /** The row order of `sort_values(by=column k)`. */
  function ByColumn(k: nat): (le: (Row, Row) -> bool)
    ensures forall r1, r2 :: le(r1, r2) == CellLe(SortCell(r1, k), SortCell(r2, k))
  {
    (r1: Row, r2: Row) => CellLe(SortCell(r1, k), SortCell(r2, k))
  }

  lemma ByColumnTotalPreorder(k: nat)
    ensures TotalPreorder(ByColumn(k))
  {
    var le := ByColumn(k);
    forall r1, r2, r3
      ensures le(r1, r2) || le(r2, r1)
      ensures le(r1, r2) && le(r2, r3) ==> le(r1, r3)
    {
      CellLeTotalPreorder(SortCell(r1, k), SortCell(r2, k), SortCell(r3, k));
    }
  }

  /** `sort_values` raises TypeError unless the cells compare with each other: all text, all numbers or all times, NaN allowed. */
  predicate Comparable(cells: seq<Cell>)
  {
    || (forall i :: 0 <= i < |cells| ==> cells[i].Text? || cells[i].Missing?)
    || (forall i :: 0 <= i < |cells| ==> cells[i].Num? || cells[i].Missing?)
    || (forall i :: 0 <= i < |cells| ==> cells[i].Stamp? || cells[i].Missing?)
  }

  /** Rows in `sort_values(by=column k)` order. */
  predicate SortedOn(rows: seq<Row>, k: nat)
  {
    forall i, j :: 0 <= i < j < |rows| ==> CellLe(SortCell(rows[i], k), SortCell(rows[j], k))
  }

  /** `u` is what `sort_values(by=name)` may leave of `t`: the same rows, sorted; the default sort is not stable. */
  predicate SortedVersion(t: Table, name: string, u: Table)
  {
    && u.columns == t.columns && u.indexName == t.indexName
    && multiset(u.rows) == multiset(t.rows)
    && SortedOn(u.rows, IndexOf(t.columns, name))
  }

  /** A DataFrame whose operations change it in place (`inplace=True`, column assignment). */
  class DataFrame {
    var columns: seq<string>
    var rows: seq<Row>
    var indexName: Option<string>

    function Value(): Table
      reads this
    {
      Table(columns, rows, indexName)
    }

    ghost predicate Valid()
      reads this
    {
      Rectangular(Value())
    }

    constructor(t: Table)
      requires Rectangular(t)
      ensures Valid() && Value() == t
    {
      columns, rows, indexName := t.columns, t.rows, t.indexName;
    }

    /** `df = df[names].copy()`; on KeyError the frame is left as it was. */
    method SelectColumns(names: seq<string>) returns (ok: bool)
      requires Valid()
      modifies this
      ensures Valid()
      ensures ok == Select(old(Value()), names).Some?
      ensures Value() == if ok then Select(old(Value()), names).value else old(Value())
    {
      var r := Select(Value(), names);
      ok := r.Some?;
      if ok {
        columns, rows, indexName := r.value.columns, r.value.rows, r.value.indexName;
      }
    }

    /** `df.rename(columns=m, inplace=True)`. */
    method RenameColumns(m: map<string, string>)
      requires Valid()
      modifies this
      ensures Valid() && Value() == Rename(old(Value()), m)
    {
      columns := RenameLabels(columns, m);
    }

    /** `df = df.iloc[::-1].reset_index(drop=True)`. */
    method ReverseRows()
      requires Valid()
      modifies this
      ensures Valid() && Value() == ReverseReset(old(Value()))
    {
      rows := Renumber(Reversed(rows));
      indexName := None;
    }

    /** `df[df.columns[k]] = cells`. */
    method AssignColumn(k: nat, cells: seq<Cell>)
      requires Valid() && k < |columns| && |cells| == |rows|
      modifies this
      ensures Valid() && Value() == WithColumn(old(Value()), k, cells)
    {
      rows := WithColumn(Value(), k, cells).rows;
    }

    /** `df.sort_values(by=name, inplace=True)`: KeyError or TypeError leave `ok` false and the frame as it was. */
    method SortValues(name: string) returns (ok: bool)
      requires Valid()
      modifies this
      ensures Valid() && columns == old(columns) && indexName == old(indexName)
      ensures ok <==> name in columns && Comparable(Column(old(Value()), IndexOf(columns, name)))
      ensures ok ==> SortedVersion(old(Value()), name, Value())
      ensures !ok ==> rows == old(rows)
    {
      var k := IndexOf(columns, name);
      if k == |columns| || !Comparable(Column(Value(), k)) {
        return false;
      }
      var a := new Row[|rows|](i requires 0 <= i < |rows| reads this => rows[i]);
      assert a[..] == rows;
      ByColumnTotalPreorder(k);
      InsertionSort(a, ByColumn(k));
      rows := a[..];
      ok := true;
      forall i | 0 <= i < |rows|
        ensures |rows[i].cells| == |columns|
      {
        assert rows[i] in multiset(old(rows));
      }
    }

    /** `df.set_index(name, inplace=True)`; on KeyError the frame is left as it was. */
    method SetIndexColumn(name: string) returns (ok: bool)
      requires Valid()
      modifies this
      ensures Valid()
      ensures ok == SetIndex(old(Value()), name).Some?
      ensures Value() == if ok then SetIndex(old(Value()), name).value else old(Value())
    {
      var r := SetIndex(Value(), name);
      ok := r.Some?;
      if ok {
        columns, rows, indexName := r.value.columns, r.value.rows, r.value.indexName;
      }
    }
  }
}
