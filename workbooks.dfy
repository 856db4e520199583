/** Loading the selected sheets from an opened workbook: a single range, or
    a map from sheet name to range (`SheetData`, the loading half of
    `read_excel` and `iter_sheet_names`, src/main.rs:19-23, 40-74). The
    workbook's file parsing is not modelled: the workbook is its list of
    sheet names and the ranges it can load. */
module Workbooks {
  import opened Outcomes
  import opened Columns
  import opened Selection

  /** An opened workbook: its sheet names in workbook order, and the range
      of every sheet it can load by name. */
  datatype Workbook = Workbook(sheetNames: seq<string>, ranges: map<string, SheetRange>)

  /** The loaded sheet data, in the shape of the selection. */
  datatype SheetData = SingleSheet(range: SheetRange) | MultiSheet(ranges: map<string, SheetRange>)

  /** `worksheet_range(name).unwrap()`: the range of the named sheet, or a
      failure naming the sheet when the workbook cannot load it. */
  function WorksheetRange(wb: Workbook, name: string): (r: Result<SheetRange>)
    ensures r.Ok? <==> name in wb.ranges
    ensures r.Ok? ==> r.value == wb.ranges[name]
    ensures r.Err? ==> r.error == SheetNotFound(name)
  {
    if name in wb.ranges then Ok(wb.ranges[name]) else Err(SheetNotFound(name))
  }

  /** `iter_sheet_names`: loads the sheets in the order given and keys each
      range by its name. Fails on the first name the workbook cannot load;
      otherwise the map's keys are exactly the names given (a repeated name
      is one key). */
  function IterSheetNames(wb: Workbook, names: seq<string>): (r: Result<map<string, SheetRange>>)
    ensures r.Ok? <==> forall k :: 0 <= k < |names| ==> names[k] in wb.ranges
    ensures r.Ok? ==> r.value.Keys == set s | s in names
    ensures r.Ok? ==> forall s :: s in r.value ==> s in wb.ranges && r.value[s] == wb.ranges[s]
    ensures r.Err? ==> exists k :: 0 <= k < |names| && names[k] !in wb.ranges
                                  && r.error == SheetNotFound(names[k])
                                  && forall k' :: 0 <= k' < k ==> names[k'] in wb.ranges
  {
    if names == [] then Ok(map[])
    else
      var range :- WorksheetRange(wb, names[0]);
      var rest :- IterSheetNames(wb, names[1..]);
      assert (set s | s in names) == {names[0]} + (set s | s in names[1..]);
      Ok(rest[names[0] := range])
  }

  /** Loads what `Select` chose: one range for a single selection, a map
      keyed by exactly the selected names for a multi-sheet selection. A
      name the workbook cannot load fails with `SheetNotFound`, the first
      such name of a list. */
  function LoadSelection(wb: Workbook, selected: Selected): (r: Result<SheetData>)
    ensures r.Ok? ==> (r.value.SingleSheet? <==> selected.Single?)
    ensures selected.Single? ==>
              && (r.Ok? <==> selected.name in wb.ranges)
              && (r.Ok? ==> r.value.range == wb.ranges[selected.name])
              && (r.Err? ==> r.error == SheetNotFound(selected.name))
    ensures selected.Multi? ==>
              && (r.Ok? <==> forall k :: 0 <= k < |selected.names| ==> selected.names[k] in wb.ranges)
              && (r.Ok? ==> r.value.ranges.Keys == set s | s in selected.names)
              && (r.Ok? ==> forall s :: s in r.value.ranges ==> r.value.ranges[s] == wb.ranges[s])
              && (r.Err? ==> exists k :: 0 <= k < |selected.names| && selected.names[k] !in wb.ranges
                                          && r.error == SheetNotFound(selected.names[k])
                                          && forall k' :: 0 <= k' < k ==> selected.names[k'] in wb.ranges)
  {
    match selected
    case Single(name) =>
      var range :- WorksheetRange(wb, name);
      Ok(SingleSheet(range))
    case Multi(names) =>
      var ranges :- IterSheetNames(wb, names);
      Ok(MultiSheet(ranges))
  }
}
