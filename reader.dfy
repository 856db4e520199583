/** The reader's entry point: select, load and transform the requested
    sheets into one table or a map of tables (`ExcelDataFrame`,
    `read_excel`, `sheet_data_to_dataframe` and `process_multi_sheet`,
    src/main.rs:25-29, 36-67, 117-141). */
module Reader {
  import opened Outcomes
  import Cells
  import opened Columns
  import opened Selection
  import opened Workbooks
  import opened IntText

  /** The result of a read: one table, or a map from sheet name to table. */
  datatype ExcelDataFrame = SingleSheet(frame: seq<Column>) | MultiSheet(frames: map<string, seq<Column>>)

  /** `process_multi_sheet`: every range of the map becomes a table under
      the same key. When several sheets fail, which failure is reported is
      not fixed (the sheets are processed in parallel, in the map's order);
      the model reports the failure of one of them. */
  ghost function ProcessMultiSheet(fmt: Cells.Formats, ranges: map<string, SheetRange>)
    : (r: Result<map<string, seq<Column>>>)
    ensures r.Ok? <==> forall s :: s in ranges ==> ProcessSingleSheet(fmt, ranges[s]).Ok?
    ensures r.Ok? ==> r.value.Keys == ranges.Keys
    ensures r.Ok? ==> forall s :: s in ranges ==> ProcessSingleSheet(fmt, ranges[s]) == Ok(r.value[s])
    ensures r.Err? ==> exists s :: s in ranges && ProcessSingleSheet(fmt, ranges[s]) == Err(r.error)
  {
    if forall s :: s in ranges ==> ProcessSingleSheet(fmt, ranges[s]).Ok? then
      Ok(map s | s in ranges :: ProcessSingleSheet(fmt, ranges[s]).value)
    else
      var s :| s in ranges && ProcessSingleSheet(fmt, ranges[s]).Err?;
      Err(ProcessSingleSheet(fmt, ranges[s]).error)
  }

  /** `sheet_data_to_dataframe`: one range gives one table, a map of ranges
      a map of tables; the shape of the data is kept. */
  ghost function SheetDataToDataFrame(fmt: Cells.Formats, data: SheetData): (r: Result<ExcelDataFrame>)
    ensures r.Ok? ==> (r.value.SingleSheet? <==> data.SingleSheet?)
    ensures data.SingleSheet? ==>
              && (r.Ok? <==> ProcessSingleSheet(fmt, data.range).Ok?)
              && (r.Ok? ==> ProcessSingleSheet(fmt, data.range) == Ok(r.value.frame))
    ensures data.SingleSheet? && r.Err? ==> ProcessSingleSheet(fmt, data.range) == Err(r.error)
    ensures data.MultiSheet? ==>
              && (r.Ok? <==> forall s :: s in data.ranges ==> ProcessSingleSheet(fmt, data.ranges[s]).Ok?)
              && (r.Ok? ==> r.value.frames.Keys == data.ranges.Keys)
              && (r.Ok? ==> forall s :: s in data.ranges ==> ProcessSingleSheet(fmt, data.ranges[s]) == Ok(r.value.frames[s]))
              && (r.Err? ==> exists s :: s in data.ranges && ProcessSingleSheet(fmt, data.ranges[s]) == Err(r.error))
  {
    match data
    case SingleSheet(range) =>
      var frame :- ProcessSingleSheet(fmt, range);
      Ok(ExcelDataFrame.SingleSheet(frame))
    case MultiSheet(ranges) =>
      var frames :- ProcessMultiSheet(fmt, ranges);
      Ok(ExcelDataFrame.MultiSheet(frames))
  }

  /** `read_excel`: `workbook` is the outcome of opening the file (`None`
      when it cannot be opened). Asking for both a name and an index fails
      whatever the file, before it is opened. Otherwise a failed selection
      is reported as such; a single selected sheet is read when the workbook
      has it and its table builds, and fails with `SheetNotFound` or with
      the transform's failure otherwise; a list of selected sheets is read
      when every one is present and builds, and fails with the first
      missing name or with the failure of one of the sheets otherwise. A
      successful read has the shape of the request: one table for a bare
      name, a bare index or no request, a map otherwise, keyed by exactly
      the requested sheets. */
  ghost function ReadExcel(fmt: Cells.Formats, workbook: Option<Workbook>,
                           sheetName: Option<SheetName>, sheetIndex: Option<SheetIndex>)
    : (r: Result<ExcelDataFrame>)
    ensures Conflicting(sheetName, sheetIndex) ==> r == Err(ConflictingSelection)
    ensures !Conflicting(sheetName, sheetIndex) && workbook.None? ==> r == Err(WorkbookUnreadable)
    ensures r.Ok? ==> (r.value.SingleSheet? <==> SingleRequest(sheetName, sheetIndex))
    ensures r.Ok? && sheetName.Some? && sheetName.value.Names? ==>
              r.value.frames.Keys == set s | s in sheetName.value.names
    ensures r.Ok? && sheetIndex.Some? && sheetIndex.value.Indices? ==>
              var names := workbook.value.sheetNames;
              var indices := sheetIndex.value.indices;
              && (forall k :: 0 <= k < |indices| ==> indices[k] < |names|)
              && r.value.frames.Keys == set i | i in indices && i < |names| :: names[i]
    ensures r.Ok? && r.value.MultiSheet? ==>
              forall s :: s in r.value.frames ==>
                s in workbook.value.ranges && ProcessSingleSheet(fmt, workbook.value.ranges[s]) == Ok(r.value.frames[s])
    ensures !Conflicting(sheetName, sheetIndex) && workbook.Some? ==>
              var wb := workbook.value;
              var sel := Select(wb.sheetNames, sheetName, sheetIndex);
              && (sel.Err? ==> r == Err(sel.error))
              && (sel.Ok? && sel.value.Single? ==>
                    var name := sel.value.name;
                    && (name !in wb.ranges ==> r == Err(SheetNotFound(name)))
                    && (name in wb.ranges ==>
                          && (r.Ok? <==> ProcessSingleSheet(fmt, wb.ranges[name]).Ok?)
                          && (r.Ok? ==> ProcessSingleSheet(fmt, wb.ranges[name]) == Ok(r.value.frame))
                          && (r.Err? ==> ProcessSingleSheet(fmt, wb.ranges[name]) == Err(r.error))))
              && (sel.Ok? && sel.value.Multi? ==>
                    var names := sel.value.names;
                    && (r.Ok? <==> forall k :: 0 <= k < |names| ==>
                                     names[k] in wb.ranges && ProcessSingleSheet(fmt, wb.ranges[names[k]]).Ok?)
                    && (r.Err? && !(forall k :: 0 <= k < |names| ==> names[k] in wb.ranges) ==>
                          exists k :: 0 <= k < |names| && names[k] !in wb.ranges && r.error == SheetNotFound(names[k])
                                      && forall k' :: 0 <= k' < k ==> names[k'] in wb.ranges)
                    && (r.Err? && (forall k :: 0 <= k < |names| ==> names[k] in wb.ranges) ==>
                          exists k :: 0 <= k < |names| && ProcessSingleSheet(fmt, wb.ranges[names[k]]) == Err(r.error)))
  {
    if Conflicting(sheetName, sheetIndex) then Err(ConflictingSelection)
    else if workbook.None? then Err(WorkbookUnreadable)
    else
      var wb := workbook.value;
      var selected :- Select(wb.sheetNames, sheetName, sheetIndex);
      var data :- LoadSelection(wb, selected);
      ReadSelectedKeys(wb, sheetName, sheetIndex, selected);
      SheetDataToDataFrame(fmt, data)
  }

  /** The names a multi-sheet selection holds: those requested, or those at
      the requested positions. */
  lemma ReadSelectedKeys(wb: Workbook, sheetName: Option<SheetName>, sheetIndex: Option<SheetIndex>,
                         selected: Selected)
    requires !Conflicting(sheetName, sheetIndex)
    requires Select(wb.sheetNames, sheetName, sheetIndex) == Ok(selected)
    ensures sheetName.Some? && sheetName.value.Names? ==> selected.Multi? && selected.names == sheetName.value.names
    ensures sheetIndex.Some? && sheetIndex.value.Indices? ==>
              var names := wb.sheetNames;
              var indices := sheetIndex.value.indices;
              && (forall k :: 0 <= k < |indices| ==> indices[k] < |names|)
              && selected.Multi?
              && (set s | s in selected.names) == set i | i in indices && i < |names| :: names[i]
  {
  }

  /** A bare index reads the same as a request for the sheet's name at that
      position, and fails when the position is past the last sheet. */
  lemma IndexReadsNamedSheet(fmt: Cells.Formats, wb: Workbook, i: nat)
    ensures ReadExcel(fmt, Some(wb), None, Some(Index(i)))
            == if i < |wb.sheetNames| then ReadExcel(fmt, Some(wb), Some(Name(wb.sheetNames[i])), None)
               else Err(SheetIndexOutOfRange(i))
  {
  }

  /** No request reads the first sheet, as index 0 does, and fails on a
      workbook without sheets. */
  lemma DefaultReadsFirstSheet(fmt: Cells.Formats, wb: Workbook)
    ensures ReadExcel(fmt, Some(wb), None, None) == ReadExcel(fmt, Some(wb), None, Some(Index(0)))
    ensures |wb.sheetNames| == 0 ==> ReadExcel(fmt, Some(wb), None, None) == Err(SheetIndexOutOfRange(0))
  {
  }

  /** A list of in-range indices reads the same as the list of the names at
      those positions. */
  lemma IndicesReadNamedSheets(fmt: Cells.Formats, wb: Workbook, indices: seq<nat>)
    requires forall k :: 0 <= k < |indices| ==> indices[k] < |wb.sheetNames|
    ensures ReadExcel(fmt, Some(wb), None, Some(Indices(indices)))
            == ReadExcel(fmt, Some(wb), Some(Names(seq(|indices|, k requires 0 <= k < |indices| => wb.sheetNames[indices[k]]))), None)
  {
    var names := seq(|indices|, k requires 0 <= k < |indices| => wb.sheetNames[indices[k]]);
    var selected := Select(wb.sheetNames, None, Some(Indices(indices)));
    assert selected.Ok? && selected.value.Multi?;
    assert selected.value.names == names;
  }

  /** A list holding one name still gives a map, keyed by that name alone,
      whose table is the one the bare name gives; the two requests succeed
      or fail together. */
  lemma SingletonListIsMulti(fmt: Cells.Formats, wb: Workbook, name: string)
    ensures var multi := ReadExcel(fmt, Some(wb), Some(Names([name])), None);
            var single := ReadExcel(fmt, Some(wb), Some(Name(name)), None);
            && (multi.Ok? <==> single.Ok?)
            && (multi.Err? ==> multi == single)
            && (multi.Ok? ==> && multi.value.MultiSheet? && single.value.SingleSheet?
                              && multi.value.frames.Keys == {name}
                              && multi.value.frames[name] == single.value.frame)
  {
  }

  /** The grid of the worked example below: a header row Name | Age over
      the rows Alice | 30 and Bob | 25, the ages as integer cells. */
  function NameAgeGrid(): seq<seq<Cells.Data>> {
    [[Cells.String("Name"), Cells.String("Age")],
     [Cells.String("Alice"), Cells.Int(30)],
     [Cells.String("Bob"), Cells.Int(25)]]
  }

  /** The example's integer cells are written "30" and "25". */
  lemma NameAgeCellTexts(fmt: Cells.Formats)
    ensures Cells.Normalise(fmt, Cells.Int(30)) == Some("30")
    ensures Cells.Normalise(fmt, Cells.Int(25)) == Some("25")
  {
    assert "30"[..1] == "3" && "25"[..1] == "2" && "3"[..0] == "" && "2"[..0] == "";
    assert IsDecimal("30") && ParseDecimal("30") == 30;
    DecimalTextOfParse("30");
    assert IsDecimal("25") && ParseDecimal("25") == 25;
    DecimalTextOfParse("25");
  }

  /** A dense grid of a header row and two data rows, two cells wide, whose
      header cells have distinct texts: its table has one column per header
      cell, holding the two cells below it. */
  lemma TwoByThreeTable(fmt: Cells.Formats, rows: seq<seq<Cells.Data>>, name0: string, name1: string)
    requires Rectangular(rows, 2) && |rows| == 3
    requires Cells.Normalise(fmt, rows[0][0]) == Some(name0)
    requires Cells.Normalise(fmt, rows[0][1]) == Some(name1)
    requires name0 != name1
    ensures ProcessSingleSheet(fmt, GridRange(rows))
            == Ok([Column(name0, [Cells.Normalise(fmt, rows[1][0]), Cells.Normalise(fmt, rows[2][0])]),
                   Column(name1, [Cells.Normalise(fmt, rows[1][1]), Cells.Normalise(fmt, rows[2][1])])])
  {
    var r := ProcessSingleSheet(fmt, GridRange(rows));
    assert AsU8(2) as int == 2;
    DenseGridTableBuilds(fmt, rows, 2);
    DenseGridTable(fmt, rows, 2);
    assert r.Ok? && |r.value| == 2;
    assert Some(r.value[0].name) == Some(name0) && Some(r.value[1].name) == Some(name1);
    assert r.value[0].values == [Cells.Normalise(fmt, rows[1][0]), Cells.Normalise(fmt, rows[2][0])];
    assert r.value[1].values == [Cells.Normalise(fmt, rows[1][1]), Cells.Normalise(fmt, rows[2][1])];
    assert r.value[0] == Column(name0, [Cells.Normalise(fmt, rows[1][0]), Cells.Normalise(fmt, rows[2][0])]);
    assert r.value[1] == Column(name1, [Cells.Normalise(fmt, rows[1][1]), Cells.Normalise(fmt, rows[2][1])]);
    assert r.value == [r.value[0], r.value[1]];
  }

  /** The example grid becomes the table Name: Alice, Bob; Age: 30, 25. */
  lemma NameAgeTable(fmt: Cells.Formats)
    ensures ProcessSingleSheet(fmt, GridRange(NameAgeGrid()))
            == Ok([Column("Name", [Some("Alice"), Some("Bob")]), Column("Age", [Some("30"), Some("25")])])
  {
    NameAgeCellTexts(fmt);
    TwoByThreeTable(fmt, NameAgeGrid(), "Name", "Age");
  }

  /** A worked example: the first sheet of a two-sheet workbook holds the
      example grid; reading it by index 0 gives its table. */
  lemma NameAgeExample(fmt: Cells.Formats)
    ensures var wb := Workbook(["Sheet1", "Sheet2"], map["Sheet1" := GridRange(NameAgeGrid())]);
            ReadExcel(fmt, Some(wb), None, Some(Index(0)))
            == Ok(ExcelDataFrame.SingleSheet([Column("Name", [Some("Alice"), Some("Bob")]),
                                              Column("Age", [Some("30"), Some("25")])]))
  {
    NameAgeTable(fmt);
  }
}
