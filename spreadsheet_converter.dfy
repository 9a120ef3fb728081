/** `convertSpreadsheet`: reads an xlsx workbook, writes it to `<input dir>/<uuid>.<target>` in the
    form the target format selects, and deletes the input only once that write has succeeded. */
module SpreadsheetConverter {
  import opened Outcomes
  import opened Strings
  import opened Paths
  import opened FileSystem

  /** A worksheet as rows of cell texts. */
  type Sheet = seq<seq<string>>

  datatype Workbook = Workbook(worksheets: seq<Sheet>)

  /** ExcelJS as the converter uses it: parsing xlsx, serialising xlsx and exporting one sheet as CSV,
      and the error `xlsx.readFile` throws for a path that does not exist. */
  datatype SheetCodec = SheetCodec(
    readXlsx: Bytes -> Result<Workbook>,
    writeXlsx: Workbook -> Result<Bytes>,
    toCsv: Sheet -> Bytes,
    fileNotFound: Path -> Failure)

  /** The default of the `targetFormat` parameter. */
  const DefaultTarget := "xlsx"

  /** The target formats the switch has a case for. */
  const Targets: set<string> := {"xlsx", "csv", "pdf"}

  const Unsupported := Error("Unsupported format")

  /** What reading a property of the missing first worksheet of an empty workbook throws. */
  function PropertyOfUndefined(property: string): Failure
  {
    Error("Cannot read properties of undefined (reading '" + property + "')")
  }

  /** What `fs.writeFile` throws when handed `undefined` as the data. */
  const UndefinedData := Error("The \"data\" argument must be of type string or an instance of Buffer, TypedArray, or DataView. Received undefined")

  /** `path.join(path.dirname(inputPath), `${uuidv4()}.${targetFormat}`)` */
  function OutputPath(inputPath: Path, id: string, target: string): Path
  {
    Path(inputPath.dir, id + "." + target)
  }

  /** The output lies beside the input, is named after the uuid, and is never the input itself. */
  lemma OutputPathIsFresh(inputPath: Path, id: string, target: string, used: set<Path>)
    requires IsFreshId(id, used + {inputPath})
    ensures OutputPath(inputPath, id, target).dir == inputPath.dir
    ensures OutputPath(inputPath, id, target) != inputPath
    ensures OutputPath(inputPath, id, target) !in used
  {
    var out := OutputPath(inputPath, id, target);
    assert StartsWith(out.name, id) by { assert out.name[..|id|] == id; }
  }

  /** The `switch (targetFormat)` as written: the "csv" case reads `worksheet.cvs`, a property
      ExcelJS worksheets do not have, and hands the resulting `undefined` to `fs.writeFile`. */
  function RenderAsWritten(target: string, workbook: Workbook, codec: SheetCodec): (r: Result<Bytes>)
    ensures target !in Targets ==> r == Err(Unsupported)
    ensures target in Targets - {"csv"} ==> r == codec.writeXlsx(workbook)
    ensures target == "csv" ==> r.Err? && r != Err(Unsupported)
  {
    match target
    case "xlsx" => codec.writeXlsx(workbook)
    case "csv" =>
      if |workbook.worksheets| == 0 then Err(PropertyOfUndefined("cvs")) else Err(UndefinedData)
    case "pdf" => codec.writeXlsx(workbook)
    case _ => Err(Unsupported)
  }

  /** As written, a CSV target never produces output, whatever the workbook holds. */
  lemma CsvAsWrittenNeverWrites(workbook: Workbook, codec: SheetCodec)
    ensures RenderAsWritten("csv", workbook, codec).Err?
    ensures |workbook.worksheets| == 0 || RenderAsWritten("csv", workbook, codec) != Ok(codec.toCsv(workbook.worksheets[0]))
  {
  }

  /** The `switch (targetFormat)` as intended: CSV exports the first worksheet. */
  function Render(target: string, workbook: Workbook, codec: SheetCodec): (r: Result<Bytes>)
    ensures target !in Targets ==> r == Err(Unsupported)
    ensures target in Targets - {"csv"} ==> r == codec.writeXlsx(workbook)
    ensures target == "csv" && |workbook.worksheets| > 0 ==> r == Ok(codec.toCsv(workbook.worksheets[0]))
  {
    match target
    case "xlsx" => codec.writeXlsx(workbook)
    case "csv" =>
      if |workbook.worksheets| == 0 then Err(PropertyOfUndefined("csv")) else Ok(codec.toCsv(workbook.worksheets[0]))
    case "pdf" => codec.writeXlsx(workbook)
    case _ => Err(Unsupported)
  }

  /** The two renderings differ only in the "csv" case. */
  lemma RenderAgreesOutsideCsv(target: string, workbook: Workbook, codec: SheetCodec)
    requires target != "csv"
    ensures Render(target, workbook, codec) == RenderAsWritten(target, workbook, codec)
  {
  }

  /** A CSV export depends on the first worksheet alone. */
  lemma CsvReadsFirstSheetOnly(a: Workbook, b: Workbook, codec: SheetCodec)
    requires |a.worksheets| > 0 && |b.worksheets| > 0 && a.worksheets[0] == b.worksheets[0]
    ensures Render("csv", a, codec) == Render("csv", b, codec)
    ensures Render("csv", a, codec).Ok?
  {
  }

  /** The bytes the converter writes for the input at `inputPath` with contents `input` (`None`:
      missing), or what it throws; the switch is the one the code has. */
  function Conversion(inputPath: Path, input: Option<Bytes>, target: string, codec: SheetCodec): (r: Result<Bytes>)
    ensures input.None? ==> r == Err(codec.fileNotFound(inputPath))
    ensures r.Ok? ==> && input.Some? && codec.readXlsx(input.value).Ok? && target in {"xlsx", "pdf"}
                      && r == codec.writeXlsx(codec.readXlsx(input.value).value)
  {
    match input
    case None => Err(codec.fileNotFound(inputPath))
    case Some(bytes) =>
      match codec.readXlsx(bytes)
      case Err(f) => Err(f)
      case Ok(workbook) => RenderAsWritten(target, workbook, codec)
  }

  /** `convertSpreadsheet(inputPath, format, targetFormat)`: `format` is never read; `targetFormat` is
      `None` when the caller leaves it out; `id` is the uuid drawn for the output name. */
  method ConvertSpreadsheet(disk: Disk, inputPath: Path, format: Option<string>, targetFormat: Option<string>,
                            id: string, codec: SheetCodec) returns (r: Result<Path>)
    requires IsFreshId(id, disk.files.Keys + {inputPath})
    modifies disk
    ensures var target := targetFormat.GetOr(DefaultTarget);
            var outcome := Conversion(inputPath, FileAt(old(disk.files), inputPath), target, codec);
            && (r.Ok? <==> outcome.Ok?)
            && (r.Ok? ==> r.value == OutputPath(inputPath, id, target)
                          && disk.files == old(disk.files)[r.value := outcome.value] - {inputPath})
            && (r.Err? ==> r.failure == outcome.failure && disk.files == old(disk.files))
  {
    var target := targetFormat.GetOr(DefaultTarget);
    var outputPath := OutputPath(inputPath, id, target);
    OutputPathIsFresh(inputPath, id, target, disk.files.Keys);
    var read := disk.ReadFile(inputPath);
    if read.Err? {
      return Err(codec.fileNotFound(inputPath));
    }
    var workbook := codec.readXlsx(read.value);
    if workbook.Err? {
      return Err(workbook.failure);
    }
    var data := RenderAsWritten(target, workbook.value, codec);
    if data.Err? {
      return Err(data.failure);
    }
    disk.WriteFile(outputPath, data.value);
    var deleted := disk.Unlink(inputPath);
    if deleted.Err? {
      // the input was read above and the output has a fresh name, so it is still there
      assert false;
    }
    r := Ok(outputPath);
  }
}
