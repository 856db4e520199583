/** Optional values, results and the ways reading a workbook can fail.
    Every `panic!` and `unwrap()` of the reader becomes an `Err` carrying one
    of the `Failure` values below. */
module Outcomes {

  datatype Option<+T> = None | Some(value: T)

  /** The failures of `read_excel`, one per panic site of the reader. */
  datatype Failure =
    | ConflictingSelection          // both a sheet name and a sheet index were requested
    | WorkbookUnreadable            // the workbook file could not be opened
    | SheetIndexOutOfRange(index: nat)  // a requested position is past the last sheet
    | SheetNotFound(name: string)   // the workbook has no worksheet of that name
    | NoHeaderRow                   // the sheet's range is empty, so it has no header row
    | MissingColumn(column: nat)    // no cell of the grid lies in that column
    | EmptyHeaderCell(column: nat)  // the first cell of that column is empty
    | DuplicateColumnName           // the table would have two columns of one name
    | ColumnLengthMismatch          // the table's columns would differ in length

  datatype Result<+T> = Ok(value: T) | Err(error: Failure) {

    predicate IsFailure() {
      Err?
    }

    function PropagateFailure<U>(): Result<U>
      requires Err?
    {
      Err(error)
    }

    function Extract(): T
      requires Ok?
    {
      value
    }
  }
}
