/** The grid-to-columns transform: one sheet's cells, in the order the
    reader yields them, become a table of named columns of optional strings
    (`process_single_sheet`, `filter_data` and `excel_column_to_pl_series`,
    src/main.rs:75-132). */
module Columns {
  import opened Outcomes
  import opened Cells

  /** One cell as the reader's cell iterator yields it: row, column, content. */
  datatype Entry = Entry(row: nat, col: nat, cell: Data)

  /** A named column of the table (a dataframe series). */
  datatype Column = Column(name: string, values: seq<Option<string>>)

  /** One sheet's range as the reader hands it over: the width of its header
      row (`None` when the range is empty and so has no first row) and its
      cells in the reader's order. */
  datatype SheetRange = SheetRange(headerWidth: Option<nat>, cells: seq<Entry>)

  /** Rust's `u8`. */
  newtype u8 = x: int | 0 <= x < 256

  /** `n as u8` for an unsigned `n`: the cast keeps the low eight bits, so
      the count wraps around at 256. */
  function AsU8(n: nat): (b: u8)
    ensures b as int <= n && (n - b as int) % 256 == 0
    // A corollary of the line above and the range of `u8`, stated for readers.
    ensures n < 256 ==> b as int == n
  {
    (n % 256) as u8
  }

  /** The positions, in ascending order, of the entries that lie in
      column `c`: all of them and nothing else. */
  function Positions(data: seq<Entry>, c: nat): (ps: seq<nat>)
    ensures forall j :: 0 <= j < |ps| ==> ps[j] < |data| && data[ps[j]].col == c
    ensures forall i, j :: 0 <= i < j < |ps| ==> ps[i] < ps[j]
    ensures forall k :: 0 <= k < |data| && data[k].col == c ==> k in ps
  {
    if data == [] then []
    else
      var n := |data| - 1;
      Positions(data[..n], c) + (if data[n].col == c then [n] else [])
  }

  /** The values of column `c`: the entries of column `c` kept in the
      reader's order and each normalised (the filter and map at
      src/main.rs:92-110). `ColumnValuesAt` states what it holds. */
  function ColumnValues(fmt: Formats, data: seq<Entry>, c: nat): seq<Option<string>> {
    if data == [] then []
    else
      var n := |data| - 1;
      ColumnValues(fmt, data[..n], c) + (if data[n].col == c then [Normalise(fmt, data[n].cell)] else [])
  }

  /** Column `c` holds one value per entry of column `c`, the `j`-th being
      the normalised cell of the `j`-th such entry in the reader's order. */
  lemma {:induction false} ColumnValuesAt(fmt: Formats, data: seq<Entry>, c: nat)
    ensures |ColumnValues(fmt, data, c)| == |Positions(data, c)|
    ensures forall j :: 0 <= j < |Positions(data, c)| ==>
              ColumnValues(fmt, data, c)[j] == Normalise(fmt, data[Positions(data, c)[j]].cell)
  {
    if data != [] {
      ColumnValuesAt(fmt, data[..|data| - 1], c);
    }
  }

  /** Filtering commutes with concatenation: the column of a sequence of
      entries is the column of its first part followed by that of the rest. */
  lemma {:induction false} ColumnValuesAppend(fmt: Formats, a: seq<Entry>, b: seq<Entry>, c: nat)
    ensures ColumnValues(fmt, a + b, c) == ColumnValues(fmt, a, c) + ColumnValues(fmt, b, c)
  {
    if b == [] {
      assert a + b == a;
    } else {
      var n := |b| - 1;
      ColumnValuesAppend(fmt, a, b[..n], c);
      assert (a + b)[..|a + b| - 1] == a + b[..n];
    }
  }

  /** An entry of another column contributes nothing to column `c`,
      wherever it stands. */
  lemma OtherColumnIgnored(fmt: Formats, a: seq<Entry>, e: Entry, b: seq<Entry>, c: nat)
    requires e.col != c
    ensures ColumnValues(fmt, a + [e] + b, c) == ColumnValues(fmt, a + b, c)
  {
    ColumnValuesAppend(fmt, a + [e], b, c);
    ColumnValuesAppend(fmt, a, [e], c);
    ColumnValuesAppend(fmt, a, b, c);
    assert [e][..0] == [];
  }

  /** One column of the table (`excel_column_to_pl_series`): the first value
      of column `c` names the column and the remaining values are its data;
      it fails on a column without values or whose first value is absent.
      `ColumnToSeriesBuilds` and `ColumnToSeriesContents` state it entry by
      entry. */
  function ColumnToSeries(fmt: Formats, data: seq<Entry>, c: nat): (r: Result<Column>)
    ensures r.Err? ==> r.error == MissingColumn(c) || r.error == EmptyHeaderCell(c)
  {
    var values := ColumnValues(fmt, data, c);
    if |values| == 0 then Err(MissingColumn(c))
    else if values[0].None? then Err(EmptyHeaderCell(c))
    else Ok(Column(values[0].value, values[1..]))
  }

  /** Column `c` is built exactly when it has an entry and its first entry's
      cell is not empty; it fails with `MissingColumn(c)` when it has no
      entry and with `EmptyHeaderCell(c)` when its first cell is empty. */
  lemma ColumnToSeriesBuilds(fmt: Formats, data: seq<Entry>, c: nat)
    ensures var r := ColumnToSeries(fmt, data, c);
            var ps := Positions(data, c);
            && (r.Ok? <==> |ps| > 0 && !data[ps[0]].cell.Empty?)
            && (r.Err? ==> r.error == if |ps| == 0 then MissingColumn(c) else EmptyHeaderCell(c))
  {
    ColumnValuesAt(fmt, data, c);
  }

  /** A built column is named by the text of its first entry's cell, and its
      data, one value fewer than it has entries, are the normalised cells of
      its later entries in the reader's order. */
  lemma ColumnToSeriesContents(fmt: Formats, data: seq<Entry>, c: nat)
    requires ColumnToSeries(fmt, data, c).Ok?
    ensures var col := ColumnToSeries(fmt, data, c).value;
            var ps := Positions(data, c);
            && |ps| > 0
            && Some(col.name) == Normalise(fmt, data[ps[0]].cell)
            && |col.values| == |ps| - 1
            && forall j :: 0 <= j < |col.values| ==> col.values[j] == Normalise(fmt, data[ps[j + 1]].cell)
  {
    ColumnValuesAt(fmt, data, c);
  }

  /** Whether every column 0 .. n-1 can be built. */
  predicate AllColumnsBuild(fmt: Formats, data: seq<Entry>, n: nat) {
    forall c :: 0 <= c < n ==> ColumnToSeries(fmt, data, c).Ok?
  }

  /** Columns 0 .. n-1, when every one of them can be built. */
  function BuiltColumns(fmt: Formats, data: seq<Entry>, n: nat): seq<Column>
    requires AllColumnsBuild(fmt, data, n)
  {
    seq(n, c requires 0 <= c < n => ColumnToSeries(fmt, data, c).value)
  }

  /** Columns 0 .. n-1, in that order (the parallel map over column indices
      at src/main.rs:80-83); fails with the failure of the lowest column
      that cannot be built. */
  function BuildColumns(fmt: Formats, data: seq<Entry>, n: nat): (r: Result<seq<Column>>)
    ensures r.Ok? <==> AllColumnsBuild(fmt, data, n)
    ensures r.Ok? ==> r.value == BuiltColumns(fmt, data, n)
    ensures r.Err? ==> exists c :: 0 <= c < n && ColumnToSeries(fmt, data, c) == Err(r.error)
                                  && forall c' :: 0 <= c' < c ==> ColumnToSeries(fmt, data, c').Ok?
  {
    if n == 0 then Ok([])
    else
      var cols :- BuildColumns(fmt, data, n - 1);
      var col :- ColumnToSeries(fmt, data, n - 1);
      assert cols + [col] == BuiltColumns(fmt, data, n);
      Ok(cols + [col])
  }

  /** No two columns share a name. */
  predicate DistinctNames(cols: seq<Column>) {
    forall i, j :: 0 <= i < j < |cols| ==> cols[i].name != cols[j].name
  }

  /** All columns hold the same number of values. */
  predicate EqualHeights(cols: seq<Column>) {
    forall i :: 0 <= i < |cols| ==> |cols[i].values| == |cols[0].values|
  }

  /** Whether the first column of `cols` shares its name with a later one. */
  function HeadNameRepeats(cols: seq<Column>): (b: bool)
    requires |cols| > 0
    ensures b <==> exists j :: 0 < j < |cols| && cols[j].name == cols[0].name
    decreases |cols|
  {
    if |cols| == 1 then false
    else
      var rest := [cols[0]] + cols[2..];
      assert forall j :: 1 < j < |cols| ==> cols[j] == rest[j - 1];
      cols[1].name == cols[0].name || HeadNameRepeats(rest)
  }

  /** The name check of the table constructor, one column against the rest. */
  function NamesUnique(cols: seq<Column>): (b: bool)
    ensures b <==> DistinctNames(cols)
  {
    if cols == [] then true
    else
      assert forall i, j :: 0 < i < j < |cols| ==> cols[i] == cols[1..][i - 1] && cols[j] == cols[1..][j - 1];
      !HeadNameRepeats(cols) && NamesUnique(cols[1..])
  }

  /** The table constructor (`DataFrame::new`): accepts the columns as they
      are when their names are distinct and their lengths equal, and
      otherwise fails, the name check first. */
  function NewDataFrame(cols: seq<Column>): (r: Result<seq<Column>>)
    ensures r.Ok? <==> DistinctNames(cols) && EqualHeights(cols)
    ensures r.Ok? ==> r.value == cols
    ensures r.Err? ==> r.error == if DistinctNames(cols) then ColumnLengthMismatch else DuplicateColumnName
  {
    if !NamesUnique(cols) then Err(DuplicateColumnName)
    else if exists i :: 0 <= i < |cols| && |cols[i].values| != |cols[0].values| then Err(ColumnLengthMismatch)
    else Ok(cols)
  }

  /** `filter_data`: a table of `columnsCount as u8` columns, column `c`
      built from the entries of column `c`. When every column can be built,
      the table is those columns, in order, provided their names differ and
      their lengths agree; otherwise the failure is that of the lowest
      column that cannot be built. */
  function FilterData(fmt: Formats, data: seq<Entry>, columnsCount: nat): (r: Result<seq<Column>>)
    ensures r.Ok? ==> |r.value| == AsU8(columnsCount) as int
    ensures r.Ok? ==> forall c :: 0 <= c < |r.value| ==> ColumnToSeries(fmt, data, c) == Ok(r.value[c])
    ensures r.Ok? ==> DistinctNames(r.value) && EqualHeights(r.value)
    ensures AllColumnsBuild(fmt, data, AsU8(columnsCount) as int) ==>
              var cols := BuiltColumns(fmt, data, AsU8(columnsCount) as int);
              && (r.Ok? <==> DistinctNames(cols) && EqualHeights(cols))
              && (r.Err? ==> r.error == if DistinctNames(cols) then ColumnLengthMismatch else DuplicateColumnName)
    ensures !AllColumnsBuild(fmt, data, AsU8(columnsCount) as int) ==>
              && r.Err?
              && exists c :: 0 <= c < AsU8(columnsCount) as int && ColumnToSeries(fmt, data, c) == Err(r.error)
                             && forall c' :: 0 <= c' < c ==> ColumnToSeries(fmt, data, c').Ok?
  {
    var cols :- BuildColumns(fmt, data, AsU8(columnsCount) as int);
    NewDataFrame(cols)
  }

  /** `process_single_sheet`: fails when the range has no header row;
      otherwise the table has as many columns as the header row is wide,
      modulo 256. */
  function ProcessSingleSheet(fmt: Formats, range: SheetRange): (r: Result<seq<Column>>)
    ensures range.headerWidth.None? ==> r == Err(NoHeaderRow)
    ensures range.headerWidth.Some? ==> r == FilterData(fmt, range.cells, range.headerWidth.value)
  {
    match range.headerWidth
    case None => Err(NoHeaderRow)
    case Some(width) => FilterData(fmt, range.cells, width)
  }

  /** A header row 300 cells wide yields a table of 44 columns: the cast to
      `u8` drops the upper bits of the column count. */
  lemma WideHeaderWraps(fmt: Formats, data: seq<Entry>)
    ensures var r := FilterData(fmt, data, 300); r.Ok? ==> |r.value| == 44
  {
    assert AsU8(300) as int == 44;
  }

  // ---------------------------------------------------------------------
  // Dense grids: what the reader's cell iterator yields for a rectangular
  // range, every position present (an absent cell is an empty one).

  /** The entries of row `r`, left to right. */
  function RowEntries(r: nat, row: seq<Data>): seq<Entry> {
    if row == [] then []
    else RowEntries(r, row[..|row| - 1]) + [Entry(r, |row| - 1, row[|row| - 1])]
  }

  /** The entries of a grid in row-major order. */
  function GridEntries(rows: seq<seq<Data>>): seq<Entry> {
    if rows == [] then []
    else GridEntries(rows[..|rows| - 1]) + RowEntries(|rows| - 1, rows[|rows| - 1])
  }

  predicate Rectangular(rows: seq<seq<Data>>, width: nat) {
    forall r :: 0 <= r < |rows| ==> |rows[r]| == width
  }

  /** A rectangular grid as a range: its first row is the header row. */
  function GridRange(rows: seq<seq<Data>>): SheetRange {
    SheetRange(if rows == [] then None else Some(|rows[0]|), GridEntries(rows))
  }

  /** A row contributes exactly its `c`-th cell to column `c`. */
  lemma {:induction false} RowColumnValues(fmt: Formats, r: nat, row: seq<Data>, c: nat)
    ensures ColumnValues(fmt, RowEntries(r, row), c) == if c < |row| then [Normalise(fmt, row[c])] else []
  {
    if row != [] {
      var n := |row| - 1;
      var e := Entry(r, n, row[n]);
      RowColumnValues(fmt, r, row[..n], c);
      ColumnValuesAppend(fmt, RowEntries(r, row[..n]), [e], c);
      assert [e][..0] == [];
    }
  }

  /** In a rectangular grid, column `c` holds the `c`-th cell of every row,
      top to bottom. */
  lemma {:induction false} GridColumnValues(fmt: Formats, rows: seq<seq<Data>>, width: nat, c: nat)
    requires Rectangular(rows, width) && c < width
    ensures |ColumnValues(fmt, GridEntries(rows), c)| == |rows|
    ensures forall k :: 0 <= k < |rows| ==> ColumnValues(fmt, GridEntries(rows), c)[k] == Normalise(fmt, rows[k][c])
  {
    if rows != [] {
      var n := |rows| - 1;
      assert Rectangular(rows[..n], width);
      GridColumnValues(fmt, rows[..n], width, c);
      ColumnValuesAppend(fmt, GridEntries(rows[..n]), RowEntries(n, rows[n]), c);
      RowColumnValues(fmt, n, rows[n], c);
      var prev := ColumnValues(fmt, GridEntries(rows[..n]), c);
      var all := ColumnValues(fmt, GridEntries(rows), c);
      assert all == prev + [Normalise(fmt, rows[n][c])];
      forall k | 0 <= k < |rows|
        ensures all[k] == Normalise(fmt, rows[k][c])
      {
        if k < n {
          assert rows[..n][k] == rows[k];
        }
      }
    }
  }

  /** Column `c` of a dense grid: built exactly when the header cell of
      column `c` is not empty, named by that cell, and holding the `c`-th
      cell of every later row, top to bottom. */
  lemma DenseGridColumn(fmt: Formats, rows: seq<seq<Data>>, width: nat, c: nat)
    requires Rectangular(rows, width) && |rows| > 0 && c < width
    ensures var r := ColumnToSeries(fmt, GridEntries(rows), c);
            && (r.Ok? <==> !rows[0][c].Empty?)
            && (r.Ok? ==> Some(r.value.name) == Normalise(fmt, rows[0][c]))
            && (r.Ok? ==> |r.value.values| == |rows| - 1)
            && (r.Ok? ==> forall k :: 0 <= k < |rows| - 1 ==> r.value.values[k] == Normalise(fmt, rows[k + 1][c]))
  {
    GridColumnValues(fmt, rows, width, c);
  }

  /** Every column of a dense grid's table holds one value per data row,
      so the table constructor's length check never fails on a dense grid. */
  lemma DenseGridNoLengthMismatch(fmt: Formats, rows: seq<seq<Data>>, width: nat)
    requires Rectangular(rows, width) && |rows| > 0
    ensures var r := ProcessSingleSheet(fmt, GridRange(rows));
            && (r.Ok? ==> forall c :: 0 <= c < |r.value| ==> |r.value[c].values| == |rows| - 1)
            && (r.Err? ==> r.error != ColumnLengthMismatch)
  {
    var data := GridEntries(rows);
    var w := AsU8(width) as int;
    assert GridRange(rows).headerWidth == Some(width);
    forall c | 0 <= c < w
      ensures ColumnToSeries(fmt, data, c).Ok? <==> !rows[0][c].Empty?
      ensures ColumnToSeries(fmt, data, c).Ok? ==> |ColumnToSeries(fmt, data, c).value.values| == |rows| - 1
    {
      DenseGridColumn(fmt, rows, width, c);
    }
    if AllColumnsBuild(fmt, data, w) {
      assert EqualHeights(BuiltColumns(fmt, data, w));
    } else {
      var c :| 0 <= c < w && !ColumnToSeries(fmt, data, c).Ok?;
    }
  }

  /** A dense grid's table fails only on an empty header cell or on
      repeated header texts: a column is never missing and the lengths
      always agree. */
  lemma DenseGridFailures(fmt: Formats, rows: seq<seq<Data>>, width: nat)
    requires Rectangular(rows, width) && |rows| > 0
    ensures var r := ProcessSingleSheet(fmt, GridRange(rows));
            r.Err? ==> || r.error == DuplicateColumnName
                       || exists c :: 0 <= c < AsU8(width) as int && rows[0][c].Empty? && r.error == EmptyHeaderCell(c)
  {
    var data := GridEntries(rows);
    var w := AsU8(width) as int;
    var r := ProcessSingleSheet(fmt, GridRange(rows));
    assert GridRange(rows).headerWidth == Some(width);
    DenseGridNoLengthMismatch(fmt, rows, width);
    if r.Err? && !AllColumnsBuild(fmt, data, w) {
      var c :| 0 <= c < w && ColumnToSeries(fmt, data, c) == Err(r.error);
      GridColumnValues(fmt, rows, width, c);
      DenseGridColumn(fmt, rows, width, c);
      assert r.error == EmptyHeaderCell(c);
    }
  }

  /** When every column of a dense grid builds, the columns' names are
      distinct exactly when the header cells' texts are. */
  lemma DenseGridDistinctNames(fmt: Formats, rows: seq<seq<Data>>, width: nat, w: nat)
    requires Rectangular(rows, width) && |rows| > 0 && w <= width
    requires AllColumnsBuild(fmt, GridEntries(rows), w)
    ensures DistinctNames(BuiltColumns(fmt, GridEntries(rows), w)) <==>
            forall c, d :: 0 <= c < d < w ==> Normalise(fmt, rows[0][c]) != Normalise(fmt, rows[0][d])
  {
    var data := GridEntries(rows);
    var cols := BuiltColumns(fmt, data, w);
    forall c | 0 <= c < w
      ensures Some(cols[c].name) == Normalise(fmt, rows[0][c])
    {
      DenseGridColumn(fmt, rows, width, c);
    }
  }

  /** A dense grid's table is built exactly when every header cell in range
      is non-empty and no two of them have the same text. */
  lemma DenseGridTableBuilds(fmt: Formats, rows: seq<seq<Data>>, width: nat)
    requires Rectangular(rows, width) && |rows| > 0
    ensures var w := AsU8(width) as int;
            ProcessSingleSheet(fmt, GridRange(rows)).Ok? <==>
              && (forall c :: 0 <= c < w ==> !rows[0][c].Empty?)
              && (forall c, d :: 0 <= c < d < w ==> Normalise(fmt, rows[0][c]) != Normalise(fmt, rows[0][d]))
  {
    var data := GridEntries(rows);
    var w := AsU8(width) as int;
    assert GridRange(rows).headerWidth == Some(width);
    DenseGridNoLengthMismatch(fmt, rows, width);
    forall c | 0 <= c < w
      ensures ColumnToSeries(fmt, data, c).Ok? <==> !rows[0][c].Empty?
    {
      DenseGridColumn(fmt, rows, width, c);
    }
    if AllColumnsBuild(fmt, data, w) {
      DenseGridDistinctNames(fmt, rows, width, w);
    } else {
      var c :| 0 <= c < w && !ColumnToSeries(fmt, data, c).Ok?;
    }
  }

  /** The table of a dense grid: its first row names the columns, the
      number of columns is the width modulo 256, and column `c` holds the
      `c`-th cell of every later row, top to bottom. */
  lemma DenseGridTable(fmt: Formats, rows: seq<seq<Data>>, width: nat)
    requires Rectangular(rows, width) && |rows| > 0
    ensures var r := ProcessSingleSheet(fmt, GridRange(rows));
            var w := AsU8(width) as int;
            && (r.Ok? ==> |r.value| == w)
            && (r.Ok? ==> forall c :: 0 <= c < w ==> Some(r.value[c].name) == Normalise(fmt, rows[0][c]))
            && (r.Ok? ==> forall c :: 0 <= c < w ==> |r.value[c].values| == |rows| - 1)
            && (r.Ok? ==> forall c, k :: 0 <= c < w && 0 <= k < |rows| - 1 ==>
                            r.value[c].values[k] == Normalise(fmt, rows[k + 1][c]))
  {
    var data := GridEntries(rows);
    var w := AsU8(width) as int;
    var r := ProcessSingleSheet(fmt, GridRange(rows));
    assert GridRange(rows).headerWidth == Some(width);
    if r.Ok? {
      forall c | 0 <= c < w
        ensures Some(r.value[c].name) == Normalise(fmt, rows[0][c])
        ensures |r.value[c].values| == |rows| - 1
        ensures forall k :: 0 <= k < |rows| - 1 ==> r.value[c].values[k] == Normalise(fmt, rows[k + 1][c])
      {
        DenseGridColumn(fmt, rows, width, c);
      }
    }
  }

  /** A dense grid 300 cells wide gives a table of 44 columns, named by the
      first 44 header cells: the cast to `u8` drops the other 256. It is
      built exactly when those 44 header cells are present and distinct. */
  lemma WideGridWraps(fmt: Formats, rows: seq<seq<Data>>)
    requires Rectangular(rows, 300) && |rows| > 0
    ensures var r := ProcessSingleSheet(fmt, GridRange(rows));
            && (r.Ok? <==> && (forall c :: 0 <= c < 44 ==> !rows[0][c].Empty?)
                           && (forall c, d :: 0 <= c < d < 44 ==> Normalise(fmt, rows[0][c]) != Normalise(fmt, rows[0][d])))
            && (r.Ok? ==> |r.value| == 44)
            && (r.Ok? ==> forall c :: 0 <= c < 44 ==> Some(r.value[c].name) == Normalise(fmt, rows[0][c]))
  {
    assert AsU8(300) as int == 44;
    DenseGridTableBuilds(fmt, rows, 300);
    DenseGridTable(fmt, rows, 300);
  }
}
