/** Sheet selection: how `read_excel` turns an optional name request and
    an optional index request into the sheet or sheets to load
    (src/main.rs:8-18, 36-65). */
module Selection {
  import opened Outcomes

  /** A request by name: one sheet, or a list of sheets. */
  datatype SheetName = Name(name: string) | Names(names: seq<string>)

  /** A request by position in the workbook's sheet list: one sheet, or a
      list of sheets. */
  datatype SheetIndex = Index(index: nat) | Indices(indices: seq<nat>)

  /** The sheets to load, in the shape the result will take: one table, or
      a map from sheet name to table. */
  datatype Selected = Single(name: string) | Multi(names: seq<string>)

  /** Both a name request and an index request were given. */
  predicate Conflicting(sheetName: Option<SheetName>, sheetIndex: Option<SheetIndex>) {
    sheetName.Some? && sheetIndex.Some?
  }

  /** The request asks for a single table: a bare name, a bare index, or no
      request at all. */
  predicate SingleRequest(sheetName: Option<SheetName>, sheetIndex: Option<SheetIndex>) {
    || (sheetName.Some? && sheetName.value.Name?)
    || (sheetIndex.Some? && sheetIndex.value.Index?)
    || (sheetName.None? && sheetIndex.None?)
  }

  /** `names.get(i).unwrap()`: the name at position `i`. */
  function SheetAt(names: seq<string>, i: nat): (r: Result<string>)
    ensures r.Ok? <==> i < |names|
    ensures r.Ok? ==> r.value == names[i]
    ensures r.Err? ==> r.error == SheetIndexOutOfRange(i)
  {
    if i < |names| then Ok(names[i]) else Err(SheetIndexOutOfRange(i))
  }

  /** The names at the given positions, in request order (src/main.rs:49-52);
      fails on the first position past the end of the sheet list. */
  function ResolveIndices(names: seq<string>, indices: seq<nat>): (r: Result<seq<string>>)
    ensures r.Ok? <==> forall k :: 0 <= k < |indices| ==> indices[k] < |names|
    ensures r.Ok? ==> |r.value| == |indices|
    ensures r.Ok? ==> forall k :: 0 <= k < |indices| ==> r.value[k] == names[indices[k]]
    ensures r.Err? ==> exists k :: 0 <= k < |indices| && indices[k] >= |names|
                                  && r.error == SheetIndexOutOfRange(indices[k])
                                  && forall k' :: 0 <= k' < k ==> indices[k'] < |names|
  {
    if indices == [] then Ok([])
    else
      var first :- SheetAt(names, indices[0]);
      var rest :- ResolveIndices(names, indices[1..]);
      Ok([first] + rest)
  }

  /** The selection made by `read_excel` before any sheet is loaded. Both
      requests together always fail. A bare index or a list of indices is
      resolved by position in the sheet list; names are taken as given (a
      name the workbook lacks fails only when its sheet is loaded); with no
      request the first sheet is chosen. The request's variant, not the
      number of sheets, decides between one table and a map of tables. */
  function Select(names: seq<string>, sheetName: Option<SheetName>, sheetIndex: Option<SheetIndex>)
    : (r: Result<Selected>)
    ensures Conflicting(sheetName, sheetIndex) ==> r == Err(ConflictingSelection)
    ensures r.Ok? ==> (r.value.Single? <==> SingleRequest(sheetName, sheetIndex))
    ensures sheetName.None? && sheetIndex.Some? && sheetIndex.value.Index? ==>
              var i := sheetIndex.value.index;
              && (r.Ok? <==> i < |names|)
              && (r.Ok? ==> r.value.name == names[i])
              && (r.Err? ==> r.error == SheetIndexOutOfRange(i))
    ensures sheetName.None? && sheetIndex.Some? && sheetIndex.value.Indices? ==>
              var indices := sheetIndex.value.indices;
              && (r.Ok? <==> forall k :: 0 <= k < |indices| ==> indices[k] < |names|)
              && (r.Ok? ==> |r.value.names| == |indices|)
              && (r.Ok? ==> forall k :: 0 <= k < |indices| ==> r.value.names[k] == names[indices[k]])
              && (r.Err? ==> exists k :: 0 <= k < |indices| && indices[k] >= |names| && r.error == SheetIndexOutOfRange(indices[k]))
    ensures sheetName.Some? && sheetIndex.None? ==>
              && r.Ok?
              && (sheetName.value.Name? ==> r.value.name == sheetName.value.name)
              && (sheetName.value.Names? ==> r.value.names == sheetName.value.names)
    ensures sheetName.None? && sheetIndex.None? ==>
              && (r.Ok? <==> |names| > 0)
              && (r.Ok? ==> r.value.name == names[0])
              && (r.Err? ==> r.error == SheetIndexOutOfRange(0))
  {
    if Conflicting(sheetName, sheetIndex) then Err(ConflictingSelection)
    else
      match sheetIndex
      case Some(Index(i)) =>
        var name :- SheetAt(names, i);
        Ok(Single(name))
      case Some(Indices(indices)) =>
        var selected :- ResolveIndices(names, indices);
        Ok(Multi(selected))
      case None =>
        match sheetName
        case Some(Name(name)) => Ok(Single(name))
        case Some(Names(requested)) => Ok(Multi(requested))
        case None =>
          var name :- SheetAt(names, 0);
          Ok(Single(name))
  }

  /** A list of indices selects exactly the sheets named at those positions:
      the selected names, as a set, are `{names[i] | i in indices}`. */
  lemma IndicesSelectNamedSheets(names: seq<string>, indices: seq<nat>)
    requires forall k :: 0 <= k < |indices| ==> indices[k] < |names|
    ensures var r := Select(names, None, Some(Indices(indices)));
            && r.Ok? && r.value.Multi?
            && (set s | s in r.value.names) == (set i | i in indices && i < |names| :: names[i])
  {
  }

  /** With no request the first sheet is selected, exactly as if index 0 or
      the first sheet's name had been requested. */
  lemma DefaultSelectsFirstSheet(names: seq<string>)
    ensures Select(names, None, None) == Select(names, None, Some(Index(0)))
    ensures |names| > 0 ==> Select(names, None, None) == Select(names, Some(Name(names[0])), None)
  {
  }
}
