/**
 * The request-shaping logic of the HTTP wrapper: reading company names from an
 * uploaded sheet or a JSON list, choosing between the two, and assembling the
 * command line of the optimizer run. The HTTP layer, the temporary directory,
 * the subprocess and the reply are not modelled; pandas' reading of a sheet
 * and `json.loads` arrive as inputs.
 */
module ApiServer {
  import opened Common
  import opened Text

  // ---------------------------------------------------------------------
  // Errors
  // ---------------------------------------------------------------------

  datatype Reason =
    | UnreadableCompanyFile      // pandas could not read the uploaded sheet
    | InvalidCompaniesPayload    // the JSON text is malformed or not a list
    | CompanyListRequired        // neither JSON nor a file was sent
    | NoCompaniesFound           // the chosen input held no usable name

  /** An `HTTPException`: status code and reason. */
  datatype ApiError = ApiError(status: int, reason: Reason)

  const BadRequest: int := 400

  // ---------------------------------------------------------------------
  // parse_companies_from_file
  // ---------------------------------------------------------------------

  /**
   * A cell of the sheet's first column as pandas hands it over: a string, a
   * missing value (NaN), an integer, or another value given with its `str()`.
   */
  datatype Cell = Text(s: string) | Missing | Number(i: int) | Other(rendered: string)

  /** The outcome of `pd.read_csv` / `pd.read_excel`: an error, or the header and the first column. */
  datatype SheetRead = Unreadable | Sheet(header: seq<string>, firstColumn: seq<Cell>)

  datatype Reader = CsvReader | ExcelReader

  /** CSV when the lower-cased file name ends with ".csv" (no name counts as ""), Excel otherwise. */
  function ReaderFor(filename: Option<string>): Reader
  {
    var name := match filename case Some(f) => f case None => "";
    if EndsWith(Lower(name), ".csv") then CsvReader else ExcelReader
  }

  /** `df.empty`: no column or no row. */
  predicate EmptySheet(header: seq<string>, firstColumn: seq<Cell>)
  {
    header == [] || firstColumn == []
  }

  /** The name a cell contributes: strings stripped, NaN skipped, others `str()`-ed; empty results dropped. */
  function CellName(c: Cell): Option<string>
  {
    var v := match c
      case Text(s) => Some(Strip(s))
      case Missing => None
      case Number(i) => Some(IntToDecimal(i))
      case Other(r) => Some(r);
    if v.Some? && v.value != "" then v else None
  }

  /** The names the loop collects from a column, in row order. */
  function CellNames(cells: seq<Cell>): seq<string>
  {
    if cells == [] then []
    else
      var rest := CellNames(cells[..|cells| - 1]);
      match CellName(cells[|cells| - 1])
      case None => rest
      case Some(n) => rest + [n]
  }

  /**
   * The names a readable upload yields: none for an empty upload or an empty
   * sheet, and otherwise the names of the sheet's first column.
   */
  function UploadNames(filename: Option<string>, data: seq<bv8>, read: (Reader, seq<bv8>) -> SheetRead): seq<string>
  {
    if data == [] then []
    else
      match read(ReaderFor(filename), data)
      case Unreadable => []
      case Sheet(header, column) => if EmptySheet(header, column) then [] else CellNames(column)
  }

  /**
   * `parse_companies_from_file`: an empty upload gives no names; otherwise the
   * sheet is read with the reader its file name picks, an unreadable sheet is a
   * 400, an empty sheet gives no names, and else the first column's cells give
   * the names.
   */
  method ParseCompaniesFromFile(filename: Option<string>, data: seq<bv8>, read: (Reader, seq<bv8>) -> SheetRead)
    returns (result: Result<seq<string>, ApiError>)
    ensures data == [] ==> result == Success([])
    ensures result.Failure? <==> data != [] && read(ReaderFor(filename), data).Unreadable?
    ensures result.Failure? ==> result.error == ApiError(BadRequest, UnreadableCompanyFile)
    ensures result.Success? && data != [] ==>
              var sheet := read(ReaderFor(filename), data);
              result.value == if EmptySheet(sheet.header, sheet.firstColumn) then [] else CellNames(sheet.firstColumn)
    ensures result.Success? ==> result.value == UploadNames(filename, data, read)
  {
    if data == [] {
      return Success([]);
    }
    var sheet := read(ReaderFor(filename), data);
    if sheet.Unreadable? {
      return Failure(ApiError(BadRequest, UnreadableCompanyFile));
    }
    if sheet.header == [] || sheet.firstColumn == [] {
      return Success([]);
    }
    var names;
    names := FirstColumnNames(sheet.firstColumn);
    return Success(names);
  }

  /** The loop of lines 47-57 over the first column. */
  method FirstColumnNames(column: seq<Cell>) returns (names: seq<string>)
    ensures names == CellNames(column)
  {
    names := [];
    var k := 0;
    while k < |column|
      invariant 0 <= k <= |column|
      invariant names == CellNames(column[..k])
    {
      var val := column[k];
      assert column[..k + 1][..k] == column[..k];
      k := k + 1;
      var name: string;
      match val {
        case Text(s) => name := Strip(s);
        case Missing => continue;
        case Number(i) => name := IntToDecimal(i);
        case Other(r) => name := r;
      }
      if name != "" {
        names := names + [name];
      }
    }
    assert column[..k] == column;
  }

  lemma {:induction false} CellNamesMembership(cells: seq<Cell>)
    ensures forall n :: n in CellNames(cells) <==> exists k :: 0 <= k < |cells| && CellName(cells[k]) == Some(n)
  {
    if cells != [] {
      var p := cells[..|cells| - 1];
      CellNamesMembership(p);
      assert cells == p + [cells[|cells| - 1]];
    }
  }

  /**
   * Every name collected is non-empty, and a name taken from a string cell has
   * no surrounding whitespace.
   */
  lemma CellNamesClean(cells: seq<Cell>)
    ensures forall n :: n in CellNames(cells) ==> n != ""
    ensures forall k :: 0 <= k < |cells| && cells[k].Text? && CellName(cells[k]).Some? ==>
              Strip(CellName(cells[k]).value) == CellName(cells[k]).value
  {
    CellNamesMembership(cells);
    forall k | 0 <= k < |cells| && cells[k].Text? && CellName(cells[k]).Some?
      ensures Strip(CellName(cells[k]).value) == CellName(cells[k]).value
    {
      StripIdempotent(cells[k].s);
    }
  }

  function AsTextCells(names: seq<string>): (cells: seq<Cell>)
    ensures |cells| == |names| && forall k :: 0 <= k < |names| ==> cells[k] == Text(names[k])
  {
    seq(|names|, k requires 0 <= k < |names| => Text(names[k]))
  }

  /** A name that is non-empty and has nothing to strip is kept as it is. */
  predicate CleanName(n: string)
  {
    n != "" && Strip(n) == n
  }

  /** `str(i)` has no whitespace to strip. */
  lemma NumberNameClean(i: int)
    ensures CleanName(IntToDecimal(i))
  {
    var s := IntToDecimal(i);
    assert s[0] == '-' || IsDigit(s[0]);
    assert !IsSpace(s[|s| - 1]) by {
      if i < 0 {
        assert s[|s| - 1] == NatToDecimal(-i)[|s| - 2];
      }
    }
    assert LeadingBlanks(s) == 0 && s[0..] == s;
    assert TrailingBlanks(s) == 0 && s[..|s|] == s;
  }

  /** The name of a cell, if any, is kept as it is by a second strip. */
  lemma CellNameClean(c: Cell)
    requires c.Other? ==> Strip(c.rendered) == c.rendered
    ensures CellName(c).Some? ==> CleanName(CellName(c).value)
  {
    match c {
      case Text(s) => StripIdempotent(s);
      case Missing =>
      case Number(i) => NumberNameClean(i);
      case Other(r) =>
    }
  }

  /**
   * Reading the collected names back as a column of strings gives the same
   * names, provided the `str()` of every other value has no surrounding
   * whitespace.
   */
  lemma {:induction false} CellNamesIdempotent(cells: seq<Cell>)
    requires forall k :: 0 <= k < |cells| && cells[k].Other? ==> Strip(cells[k].rendered) == cells[k].rendered
    ensures CellNames(AsTextCells(CellNames(cells))) == CellNames(cells)
  {
    if cells != [] {
      var p := cells[..|cells| - 1];
      CellNamesIdempotent(p);
      var before := CellNames(p);
      var c := cells[|cells| - 1];
      CellNameClean(c);
      if CellName(c).Some? {
        CleanNameSnoc(before, CellName(c).value);
      }
    }
  }

  /** A clean name appended to a column that reads back as itself still reads back as itself. */
  lemma CleanNameSnoc(names: seq<string>, n: string)
    requires CleanName(n) && CellNames(AsTextCells(names)) == names
    ensures CellNames(AsTextCells(names + [n])) == names + [n]
  {
    var cellsOut := AsTextCells(names + [n]);
    assert cellsOut[..|cellsOut| - 1] == AsTextCells(names);
    assert CellName(cellsOut[|cellsOut| - 1]) == Some(n);
  }

  // ---------------------------------------------------------------------
  // The JSON list and the choice of input
  // ---------------------------------------------------------------------

  /** What `json.loads` made of the form field: malformed text, a non-list, or a list given by each element's `str()`. */
  datatype JsonPayload = Malformed | NotAList | JsonList(rendered: seq<string>)

  /** `[str(x).strip() for x in parsed if str(x).strip()]`. */
  function JsonCompanyNames(rendered: seq<string>): seq<string>
  {
    if rendered == [] then []
    else
      var rest := JsonCompanyNames(rendered[..|rendered| - 1]);
      var name := Strip(rendered[|rendered| - 1]);
      if name == "" then rest else rest + [name]
  }

  /** A JSON list normalises exactly as a sheet column of the same strings does. */
  lemma {:induction false} JsonAgreesWithSheet(rendered: seq<string>)
    ensures JsonCompanyNames(rendered) == CellNames(AsTextCells(rendered))
  {
    if rendered != [] {
      var p := rendered[..|rendered| - 1];
      JsonAgreesWithSheet(p);
      var cells := AsTextCells(rendered);
      assert cells[..|cells| - 1] == AsTextCells(p);
    }
  }

  /** An uploaded file: its name, if any, and its bytes. */
  datatype Upload = Upload(filename: Option<string>, data: seq<bv8>)

  /**
   * Lines 97-112 of the wrapper: a non-empty JSON field wins over a file; a bad
   * JSON payload, no input at all, and an empty resulting list are each a 400.
   */
  method SelectCompanyList(
    form: Option<string>, json: JsonPayload, file: Option<Upload>, read: (Reader, seq<bv8>) -> SheetRead)
    returns (result: Result<seq<string>, ApiError>)
    ensures result.Failure? ==> result.error.status == BadRequest
    ensures result.Success? ==> result.value != [] && forall n :: n in result.value ==> n != ""
    ensures form.Some? && form.value != "" ==>
              match json
              case JsonList(rendered) =>
                result == (if JsonCompanyNames(rendered) == [] then Failure(ApiError(BadRequest, NoCompaniesFound))
                           else Success(JsonCompanyNames(rendered)))
              case _ => result == Failure(ApiError(BadRequest, InvalidCompaniesPayload))
    ensures !(form.Some? && form.value != "") && file.None? ==>
              result == Failure(ApiError(BadRequest, CompanyListRequired))
    ensures !(form.Some? && form.value != "") && file.Some? ==>
              var data := file.value.data;
              if data != [] && read(ReaderFor(file.value.filename), data).Unreadable? then
                result == Failure(ApiError(BadRequest, UnreadableCompanyFile))
              else
                var names := UploadNames(file.value.filename, data, read);
                result == if names == [] then Failure(ApiError(BadRequest, NoCompaniesFound)) else Success(names)
  {
    var companyList: seq<string>;
    if form.Some? && form.value != "" {
      if !json.JsonList? {
        return Failure(ApiError(BadRequest, InvalidCompaniesPayload));
      }
      companyList := JsonCompanyNames(json.rendered);
      JsonAgreesWithSheet(json.rendered);
      CellNamesClean(AsTextCells(json.rendered));
    } else if file.Some? {
      var parsed := ParseCompaniesFromFile(file.value.filename, file.value.data, read);
      if parsed.Failure? {
        return parsed;
      }
      companyList := parsed.value;
      if file.value.data != [] {
        var sheet := read(ReaderFor(file.value.filename), file.value.data);
        if !EmptySheet(sheet.header, sheet.firstColumn) {
          CellNamesClean(sheet.firstColumn);
        }
      }
    } else {
      return Failure(ApiError(BadRequest, CompanyListRequired));
    }
    if companyList == [] {
      return Failure(ApiError(BadRequest, NoCompaniesFound));
    }
    return Success(companyList);
  }

  // ---------------------------------------------------------------------
  // The optimizer command line
  // ---------------------------------------------------------------------

  /** `name or upload.filename or "upload.bin"` for the layout, which is written without a name override. */
  function LayoutFileName(filename: Option<string>): (name: string)
    ensures name != ""
  {
    match filename
    case Some(f) => if f != "" then f else "upload.bin"
    case None => "upload.bin"
  }

  /** Lines 61 and 120: the layout is written into the request's directory under its fallback name, with no name override. */
  function LayoutPath(directory: string, filename: Option<string>): string
  {
    directory + "/" + LayoutFileName(filename)
  }

  /**
   * For an upload name without a separator, the written path's final
   * component is that name, so line 124 tests the suffix of the uploaded
   * name itself.
   */
  lemma LayoutPathName(directory: string, filename: Option<string>)
    requires '/' !in LayoutFileName(filename)
    ensures Name(LayoutPath(directory, filename)) == LayoutFileName(filename)
    ensures IsSpreadsheet(LayoutPath(directory, filename)) <==> Lower(Suffix(LayoutFileName(filename))) in [".xlsx", ".xls", ".csv"]
  {
    var path := LayoutPath(directory, filename);
    var i := RFind(path, '/');
    assert path[|directory|] == '/';
    assert i == |directory|;
    assert path[i + 1..] == LayoutFileName(filename);
  }

  /** The layout is a spreadsheet when its lower-cased suffix is ".xlsx", ".xls" or ".csv". */
  predicate IsSpreadsheet(layoutPath: string)
  {
    Lower(Suffix(Name(layoutPath))) in [".xlsx", ".xls", ".csv"]
  }

  /** A spreadsheet is recognised by its name ending, in any case, with one of the three extensions after a non-empty stem. */
  lemma SpreadsheetByEnding(layoutPath: string)
    ensures var name := Name(layoutPath);
      IsSpreadsheet(layoutPath) <==>
        HasExtension(name, ".xlsx") || HasExtension(name, ".xls") || HasExtension(name, ".csv")
  {
    var name := Name(layoutPath);
    ExtensionMatch(name, ".xlsx");
    ExtensionMatch(name, ".xls");
    ExtensionMatch(name, ".csv");
  }

  /**
   * The command of lines 125-160. The conditional expression binds looser than
   * `+`, so `["--invert"]` is appended to the image branch only.
   */
  function OptimizerCommand(
    spreadsheet: bool, layoutPath: string, companiesJson: string, maxCompanies: int, plotPath: string,
    jsonOut: string, minArea: string, maxArea: string, invert: bool): seq<string>
  {
    if spreadsheet then
      [ "python3", "main.py", "--layout-file", layoutPath, "--companies-json", companiesJson,
        "--max-companies", IntToDecimal(maxCompanies), "--plot-file", plotPath, "--json-out", jsonOut ]
    else
      [ "python3", "run_from_image.py", "--image", layoutPath, "--companies-json", companiesJson,
        "--max-companies", IntToDecimal(maxCompanies), "--plot-file", plotPath, "--json-out", jsonOut,
        "--min-area", minArea, "--max-area", maxArea ]
      + (if invert then ["--invert"] else [])
  }

  /** The command for an uploaded layout written to `layoutPath`: line 124 decides the branch. */
  function LayoutCommand(
    layoutPath: string, companiesJson: string, maxCompanies: int, plotPath: string, jsonOut: string,
    minArea: string, maxArea: string, invert: bool): seq<string>
  {
    OptimizerCommand(IsSpreadsheet(layoutPath), layoutPath, companiesJson, maxCompanies, plotPath, jsonOut, minArea, maxArea, invert)
  }

  /** The spreadsheet command: main.py with twelve arguments. */
  lemma SpreadsheetCommand(
    layoutPath: string, companiesJson: string, maxCompanies: int, plotPath: string, jsonOut: string,
    minArea: string, maxArea: string, invert: bool)
    ensures var cmd := OptimizerCommand(true, layoutPath, companiesJson, maxCompanies, plotPath, jsonOut, minArea, maxArea, invert);
      && |cmd| == 12 && cmd[1] == "main.py" && cmd[2] == "--layout-file" && cmd[3] == layoutPath
      && cmd[10] == "--json-out" && cmd[11] == jsonOut
  {
  }

  /** The image command: run_from_image.py with the area bounds, and "--invert" last exactly when requested. */
  lemma ImageCommand(
    layoutPath: string, companiesJson: string, maxCompanies: int, plotPath: string, jsonOut: string,
    minArea: string, maxArea: string, invert: bool)
    ensures var cmd := OptimizerCommand(false, layoutPath, companiesJson, maxCompanies, plotPath, jsonOut, minArea, maxArea, invert);
      && |cmd| == (if invert then 17 else 16) && cmd[1] == "run_from_image.py" && cmd[2] == "--image" && cmd[3] == layoutPath
      && cmd[10] == "--json-out" && cmd[11] == jsonOut
      && cmd[12] == "--min-area" && cmd[13] == minArea && cmd[14] == "--max-area" && cmd[15] == maxArea
      && (invert ==> cmd[16] == "--invert")
  {
  }

  /**
   * The child runs main.py exactly when the layout is a spreadsheet, and
   * run_from_image.py otherwise; either way the layout path is its fourth
   * argument and the JSON output path its twelfth. The spreadsheet command has
   * twelve arguments; the image command adds the two area bounds, and a
   * seventeenth argument, "--invert", exactly when `invert` is set.
   */
  lemma LayoutCommandShape(
    layoutPath: string, companiesJson: string, maxCompanies: int, plotPath: string, jsonOut: string,
    minArea: string, maxArea: string, invert: bool)
    ensures var cmd := LayoutCommand(layoutPath, companiesJson, maxCompanies, plotPath, jsonOut, minArea, maxArea, invert);
      && |cmd| >= 12 && cmd[3] == layoutPath && cmd[10] == "--json-out" && cmd[11] == jsonOut
      && (cmd[1] == "main.py" <==> IsSpreadsheet(layoutPath))
      && (IsSpreadsheet(layoutPath) ==> cmd[2] == "--layout-file")
      && (!IsSpreadsheet(layoutPath) ==> cmd[1] == "run_from_image.py" && cmd[2] == "--image")
      && (|cmd| == 12 <==> IsSpreadsheet(layoutPath))
      && (!IsSpreadsheet(layoutPath) ==> cmd[12] == "--min-area" && cmd[13] == minArea && cmd[14] == "--max-area" && cmd[15] == maxArea)
      && (|cmd| == 17 <==> !IsSpreadsheet(layoutPath) && invert)
      && (|cmd| == 17 ==> cmd[16] == "--invert")
  {
    var spreadsheet := IsSpreadsheet(layoutPath);
    if spreadsheet {
      SpreadsheetCommand(layoutPath, companiesJson, maxCompanies, plotPath, jsonOut, minArea, maxArea, invert);
    } else {
      ImageCommand(layoutPath, companiesJson, maxCompanies, plotPath, jsonOut, minArea, maxArea, invert);
      assert "run_from_image.py"[0] != "main.py"[0];
    }
  }
}
