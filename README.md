# A verified model of PolarsExcelReader's sheet selection and grid-to-table transform

PolarsExcelReader reads a spreadsheet workbook into dataframes. Its entry
point `read_excel` takes an optional request by sheet name (`Name` or
`Names`) and an optional request by sheet position (`Index` or `Indices`),
loads the selected sheets, and turns each sheet's cell grid into a table
whose columns are named by the sheet's first row. This project models, in
Dafny, the two pieces of that program that carry its design decisions, and
proves their properties:

- **Sheet selection** (`Selection`, `Workbooks`, `Reader`). Both requests
  together always fail, before the workbook is opened. Positions are
  resolved in the workbook's sheet list, and with no request the first sheet
  is chosen. The request's variant decides the result's shape: `Name`,
  `Index` or no request give one table, and `Names` or `Indices` give a map
  from sheet name to table, even for a list of one.
- **Grid-to-columns transform** (`Cells`, `Columns`). The sheet's cells
  arrive as (row, column, cell) entries in the reader's order. For each
  column index `c` below the header width cast to `u8` (so the count wraps
  at 256), the entries of column `c` are kept in order. Each cell becomes an
  optional string. The first value must be present and names the column;
  the rest are its data. The table constructor then rejects duplicate names
  and columns of unequal length.

Every `panic!` and `unwrap()` of the program is an `Err` of a `Result` here
(module `Outcomes`). Integer cells are written in base 10 by `IntText`,
which is proved inverse to its parser in both directions. The model is
written as functions and lemmas, like the program, which is built from
`match` expressions and iterator pipelines. The functions that process a
map of sheets are `ghost` functions, because the failure they report, when
several sheets fail, is a choice among them.

Files: `outcomes.dfy`, `int_text.dfy`, `cells.dfy`, `columns.dfy`,
`selection.dfy`, `workbooks.dfy`, `reader.dfy`; verify them together with
`dafny verify *.dfy`.

## Behaviour worth noting

- `excel_column_to_pl_series` does not pad a column by itself: a column
  holds one value fewer than the number of entries it is given
  (`Columns.ColumnToSeriesContents`). The reader's cell iterator
  (`Range::cells`) already yields one entry per position of the
  rectangular range, with an absent cell as `Empty`, so on any sheet every
  column holds one value per data row (`Columns.DenseGridNoLengthMismatch`).
  Such a table fails only on an empty header cell or on repeated header
  texts (`Columns.DenseGridFailures`). Missing columns and unequal lengths
  arise only for entry sequences the reader never produces.
- The column count is the header row's width cast to `u8`, so a header 300
  cells wide yields 44 columns (`Columns.AsU8`, `Columns.WideHeaderWraps`,
  `Columns.WideGridWraps`).
- Duplicate header names make the table constructor fail, and its
  `unwrap()` turns that into a panic; the model reports
  `DuplicateColumnName` (`Columns.NewDataFrame`).
- An empty workbook with no request fails at `names.get(0).unwrap()`, so
  the model reports `SheetIndexOutOfRange(0)` rather than a separate
  "no sheets" failure.

## Model

| member | source | states |
|---|---|---|
| `IntText.NumeralText` | src/main.rs:103 | the text of a natural number is a canonical numeral (digits only, no leading zero) whose value is that number |
| `IntText.DecimalText` | src/main.rs:103 | `i64::to_string` gives a canonical signed numeral (no "-0") that parses back to the same integer |
| `IntText.NumeralTextOfParse` | src/main.rs:103 | every canonical numeral is the text of the number it denotes (the other direction of the round trip) |
| `IntText.DecimalTextOfParse` | src/main.rs:103 | every canonical signed numeral is the text of the integer it denotes, so text and parser are mutually inverse |
| `Cells.Normalise` | src/main.rs:99-107 | a cell yields no value exactly when it is `Empty`; a string is kept unchanged; an integer yields base-10 text that parses back to it; a boolean yields "true" or "false" according to its value; floats, date-times and the other kinds yield the library's rendering |
| `Cells.NormaliseInjectiveOnScalars` | src/main.rs:103-104 | two integer cells, or two boolean cells, with the same text hold the same value |
| `Columns.AsU8` | src/main.rs:79 | `n as u8` is at most `n` and differs from it by a multiple of 256, and equals `n` below 256 |
| `Columns.Positions` | src/main.rs:94-97 | the filter keeps exactly the entries whose column is `c`: every kept position has column `c`, the positions ascend, and no entry of column `c` is missed |
| `Columns.ColumnValues` | src/main.rs:92-110 | the filter and map of one column; it carries no contract of its own, and `Columns.ColumnValuesAt` states what it holds |
| `Columns.ColumnValuesAt` | src/main.rs:92-110 | column `c` holds one value per entry of column `c`, the `j`-th being the normalised cell of the `j`-th such entry in the reader's order |
| `Columns.ColumnValuesAppend` | src/main.rs:92-110 | the column of a concatenation of entries is the column of the first part followed by that of the second |
| `Columns.OtherColumnIgnored` | src/main.rs:94-97 | inserting an entry of another column anywhere leaves column `c` unchanged |
| `Columns.ColumnToSeries` | src/main.rs:88-114 | a column that cannot be built fails with `MissingColumn(c)` or `EmptyHeaderCell(c)`, the two `unwrap()`s of line 111; `Columns.ColumnToSeriesBuilds` states when each happens |
| `Columns.ColumnToSeriesBuilds` | src/main.rs:88-114 | the column is built exactly when column `c` has an entry whose first cell is not `Empty`; otherwise it fails with `MissingColumn(c)` when it has no entry and with `EmptyHeaderCell(c)` when its first cell is empty |
| `Columns.ColumnToSeriesContents` | src/main.rs:88-114 | a built column's name is the first cell's text, and its data are the later entries' values in reader order, one fewer than the column's entries |
| `Columns.BuildColumns` | src/main.rs:79-83 | columns 0 .. n-1 are built in index order, each from its own entries; it fails exactly when one of them fails, with the failure of the lowest such column |
| `Columns.HeadNameRepeats` | src/main.rs:85 | true exactly when a later column has the first column's name |
| `Columns.NamesUnique` | src/main.rs:85 | true exactly when no two columns share a name |
| `Columns.NewDataFrame` | src/main.rs:85 | the dataframe constructor accepts the columns unchanged exactly when their names are distinct and their lengths equal; otherwise it fails with `DuplicateColumnName`, or with `ColumnLengthMismatch` when the names are distinct |
| `Columns.FilterData` | src/main.rs:75-86 | a built table has `columnsCount mod 256` columns, column `c` built from the entries of column `c`, with distinct names and equal lengths; when every column builds, the table fails exactly on duplicate names or unequal lengths; otherwise it fails with the failure of the lowest column that does not build |
| `Columns.ProcessSingleSheet` | src/main.rs:125-132 | an empty range (no header row) fails with `NoHeaderRow`; otherwise the sheet's table is `filter_data` of its entries with the header's width as column count |
| `Columns.WideHeaderWraps` | src/main.rs:79 | a header 300 cells wide gives a table of 44 columns |
| `Columns.RowColumnValues` | src/main.rs:92-110 | one row of a grid contributes exactly its `c`-th cell to column `c`, and nothing when it is narrower |
| `Columns.GridColumnValues` | src/main.rs:92-110 | in a rectangular grid enumerated row by row, column `c` holds the `c`-th cell of every row, top to bottom |
| `Columns.DenseGridColumn` | src/main.rs:88-114 | for a rectangular grid, column `c` is built exactly when its header cell is not empty, is named by that cell, and holds the `c`-th cell of each later row |
| `Columns.DenseGridNoLengthMismatch` | src/main.rs:125-132 | for a rectangular grid, every column of the table holds one value per data row, and the table never fails with `ColumnLengthMismatch` |
| `Columns.DenseGridFailures` | src/main.rs:125-132 | a rectangular grid's table never fails with `MissingColumn` or `ColumnLengthMismatch`: it fails only with `DuplicateColumnName` or with `EmptyHeaderCell(c)` for a header cell `c` in range that is empty |
| `Columns.DenseGridDistinctNames` | src/main.rs:85 | when every column of a rectangular grid builds, the column names are distinct exactly when the header cells' texts are |
| `Columns.DenseGridTableBuilds` | src/main.rs:125-132 | a rectangular grid's table is built exactly when every header cell in range is non-empty and no two have the same text |
| `Columns.DenseGridTable` | src/main.rs:125-132 | a rectangular grid's table has `width mod 256` columns, named by the first row, column `c` holding the `c`-th cell of every later row |
| `Columns.WideGridWraps` | src/main.rs:79 | a rectangular grid 300 cells wide gives a table of 44 columns named by its first 44 header cells; it builds exactly when those 44 header cells are present and distinct |
| `Selection.ResolveIndices` | src/main.rs:47-52 | the positions resolve exactly when all are in range, to the names at those positions in request order; otherwise it fails with `SheetIndexOutOfRange` of the first bad position |
| `Selection.SheetAt` | src/main.rs:44 | `names.get(i).unwrap()` (also lines 50 and 61) yields the name at position `i` when `i` is in range and fails with `SheetIndexOutOfRange(i)` otherwise |
| `Selection.Select` | src/main.rs:36-65 | both requests fail with `ConflictingSelection`; the result is a single sheet exactly for `Name`, `Index` or no request; `Index(i)` selects `names[i]` or fails when `i` is past the end; `Indices` selects the names at the positions; names are taken as given; no request selects `names[0]` and fails on an empty list |
| `Selection.IndicesSelectNamedSheets` | src/main.rs:47-53 | in-range `Indices(is)` selects a multi-sheet result whose names, as a set, are `{names[i] for i in is}` |
| `Selection.DefaultSelectsFirstSheet` | src/main.rs:60-63 | no request selects the same as `Index(0)`, and the same as the first sheet's name when there is one |
| `Workbooks.IterSheetNames` | src/main.rs:69-74 | the sheets load exactly when the workbook has every name; the map's keys are exactly the names given, each mapped to its own range; otherwise it fails with `SheetNotFound` of the first missing name |
| `Workbooks.WorksheetRange` | src/main.rs:45 | `worksheet_range(name).unwrap()` (also lines 56, 62 and 71) yields the named sheet's range when the workbook has it and fails with `SheetNotFound(name)` otherwise |
| `Workbooks.LoadSelection` | src/main.rs:42-65 | loading keeps the selection's shape; a single sheet loads exactly when the workbook has it and fails with `SheetNotFound` otherwise; a multi-sheet selection loads exactly when every selected name is present, as a map keyed by exactly the selected names, and otherwise fails with `SheetNotFound` of the first missing name |
| `Reader.ProcessMultiSheet` | src/main.rs:134-141 | the map of tables has the same keys as the map of ranges, each table the single-sheet transform of that key's range; it fails exactly when some sheet fails, with that sheet's failure |
| `Reader.SheetDataToDataFrame` | src/main.rs:117-123 | one range gives one table, with the single-sheet transform's outcome, failure included; a map of ranges gives a map of tables with the same keys, succeeding exactly when every range's transform succeeds and otherwise failing with the failure of one of them |
| `Reader.ReadExcel` | src/main.rs:36-67 | both requests fail with `ConflictingSelection` whatever the file; an unreadable file fails with `WorkbookUnreadable`; a failed selection is passed on; a single selected sheet fails with `SheetNotFound` when absent and otherwise succeeds exactly when its transform does, with that transform's table or failure; a list of selected sheets succeeds exactly when every one is present and transforms, and otherwise fails with the first missing name or with one sheet's transform failure; a result is a single table exactly for `Name`, `Index` or no request; its keys are exactly the requested names, or `{names[i] for i in is}` for `Indices(is)`; every table is the transform of its sheet's range |
| `Reader.ReadSelectedKeys` | src/main.rs:47-59 | a successful `Names` selection is the list requested, and an `Indices` selection has all indices in range and names `{names[i] for i in is}` |
| `Reader.IndexReadsNamedSheet` | src/main.rs:43-46 | reading by `Index(i)` is reading by the name at position `i`, and fails with `SheetIndexOutOfRange(i)` past the end |
| `Reader.DefaultReadsFirstSheet` | src/main.rs:60-63 | reading with no request is reading `Index(0)`, and fails with `SheetIndexOutOfRange(0)` on a workbook without sheets |
| `Reader.IndicesReadNamedSheets` | src/main.rs:47-54 | reading in-range `Indices(is)` is reading `Names` of the names at those positions |
| `Reader.SingletonListIsMulti` | src/main.rs:56-59 | `Names([n])` and `Name(n)` succeed or fail together, with the same failure; on success the first is a map keyed `{n}` whose table is the second's single table |
| `Reader.NameAgeCellTexts` | src/main.rs:103 | the integer cells 30 and 25 are written "30" and "25" |
| `Reader.TwoByThreeTable` | src/main.rs:125-132 | a rectangular grid two cells wide with a header row of two distinct texts and two data rows becomes two columns named by the header cells, each holding the two cells below its header |
| `Reader.NameAgeTable` | src/main.rs:125-132 | the grid Name, Age over Alice, 30 and Bob, 25 (integer ages) becomes the table Name: Alice, Bob; Age: "30", "25" |
| `Reader.NameAgeExample` | src/main.rs:36-67 | reading that grid as the first of two sheets by `Index(0)` gives that table as a single table |

## Left out

- Opening and parsing the workbook file (`open_workbook_auto`, `sheet_names`, `worksheet_range`): file I/O and foreign parsing. The workbook is modelled as its list of sheet names and a map from sheet name to range. A file that cannot be opened is `None`, and a sheet the workbook cannot load is a name missing from the map.
- The range's header row contents (`Range::headers`) and cell iteration (`Range::cells`): only the header's width and the sequence of (row, column, cell) entries enter the transform, and they are inputs. The transform is stated for any sequence of entries, which covers more than the reader yields. What the reader yields, one entry per position of the rectangular range in row-major order with an absent cell as `Empty`, is `Columns.GridEntries`, and the dense-grid lemmas state the transform's behaviour on it.
- The dataframe library's storage (`Series::new`, `DataFrame::new`): a table is a sequence of named columns. The constructor is modelled only by its two checks, duplicate names first, then equal lengths.
- Float `Display`, date-time `Display` and the `Debug` fallback for the other cell kinds: floating point and library formatting. They are the three functions of `Cells.Formats`, passed as a parameter. A float or date-time value is kept as the bit pattern of its double.
- Parallel execution (`par_iter`, `into_par_iter`, `from_par_iter`): every map and filter is sequential, and the order kept by the indexed collect is taken as given.
- Columns.BuildColumns: when several columns fail, the program's parallel map panics on one of them, and the source does not say which; the model reports the lowest failing column.
- Selection.ResolveIndices: when several positions are out of range, the program's parallel map panics on one of them; the model reports the first in request order.
- Reader.ProcessMultiSheet: when several sheets fail, the model reports the failure of one of them, chosen without an order, as the program's parallel iteration over a hash map does.
- Columns.ColumnToSeries: its own contract states only which failures it can report; when it builds and what the column holds are stated by the lemmas `Columns.ColumnToSeriesBuilds` and `Columns.ColumnToSeriesContents`, because a contract in terms of entry positions on the function itself is drawn into every whole-table proof and makes those proofs too costly to verify.
- Columns.ColumnValues: for the same reason it carries no contract; `Columns.ColumnValuesAt` states its length and contents.
- Columns.NewDataFrame: when the names repeat and the lengths also differ, which failure the dataframe library reports depends on its version; the model's choice is to report the duplicate names. Both cases panic at the same `unwrap()`, so only the reported reason differs.
- Process abort: a panic ends the program; here it is an `Err` value carrying the reason.
- `usize` limits: sheet positions and column indices are unbounded naturals, since no position near `usize::MAX` can name a sheet or a column.
- `main`: it only prints one demo read.
