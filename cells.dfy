/** The content of one spreadsheet cell, as the workbook reader hands it
    over, and its normalisation to an optional string
    (`excel_column_to_pl_series`, src/main.rs:98-109). */
module Cells {
  import opened Outcomes
  import opened IntText

  /** How a date-time cell's serial number is meant. */
  datatype DateTimeKind = PointInTime | TimeDelta

  /** A date or duration as an Excel serial number (an IEEE-754 double, kept
      as its bit pattern) with its kind and the workbook's date system. */
  datatype ExcelDateTime = ExcelDateTime(serial: bv64, kind: DateTimeKind, is1904: bool)

  /** The error values a formula cell can hold. */
  datatype CellErrorType = Div0 | NA | Name | Null | Num | Ref | Value | GettingData

  /** One cell's content: the reader's closed set of kinds. */
  datatype Data =
    | Int(i: i64)
    | Float(bits: bv64)
    | String(s: string)
    | Bool(b: bool)
    | DateTime(dt: ExcelDateTime)
    | DateTimeIso(iso: string)
    | DurationIso(iso: string)
    | Error(e: CellErrorType)
    | Empty

  /** The text formatting the reader borrows from libraries: a float's
      `Display`, a date-time's `Display`, and the `Debug` rendering used for
      every other kind. Each is a deterministic function of the value. */
  datatype Formats = Formats(
    float: bv64 -> string,
    dateTime: ExcelDateTime -> string,
    debug: Data -> string)

  /** The value one cell contributes to its column: nothing for an empty
      cell, the text itself for a string, the base-10 text of an integer,
      "true" or "false" for a boolean, and the library's rendering for the
      other kinds. */
  function Normalise(fmt: Formats, cell: Data): (r: Option<string>)
    ensures r.None? <==> cell.Empty?
    ensures cell.String? ==> r == Some(cell.s)
    ensures cell.Int? ==> r.Some? && IsDecimal(r.value) && ParseDecimal(r.value) == cell.i as int
    ensures cell.Bool? ==> r.Some? && r.value in {"true", "false"} && (r.value == "true" <==> cell.b)
    ensures cell.Float? ==> r == Some(fmt.float(cell.bits))
    ensures cell.DateTime? ==> r == Some(fmt.dateTime(cell.dt))
    ensures (cell.DateTimeIso? || cell.DurationIso? || cell.Error?) ==> r == Some(fmt.debug(cell))
  {
    match cell
    case Empty => None
    case String(s) => Some(s)
    case Float(f) => Some(fmt.float(f))
    case Int(i) => Some(DecimalText(i as int))
    case Bool(b) => Some(if b then "true" else "false")
    case DateTime(d) => Some(fmt.dateTime(d))
    case _ => Some(fmt.debug(cell))
  }

  /** Normalising never merges distinct integers or distinct booleans: the
      text of a cell of either kind determines its value. */
  lemma NormaliseInjectiveOnScalars(fmt: Formats, a: Data, b: Data)
    requires (a.Int? && b.Int?) || (a.Bool? && b.Bool?)
    requires Normalise(fmt, a) == Normalise(fmt, b)
    ensures a == b
  {
  }
}
