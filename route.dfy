/** The conversion endpoint: the allow-list gate on the sniffed MIME type, the move of an accepted
    upload to a uuid name, the first-match dispatch table, and the mapping of outcomes to responses. */
module ConvertRoute {
  import opened Outcomes
  import opened Strings
  import opened Paths
  import opened FileSystem
  import ImageConverter
  import SpreadsheetConverter

  const App := "application/"
  const OpenXml := App + "vnd.openxmlformats-officedocument."
  const PdfMime := App + "pdf"
  const DocxMime := OpenXml + "wordprocessingml.document"
  const XlsxMime := OpenXml + "spreadsheetml.sheet"

  /** `CONVERSION_CONFIG.allowedMimeTypes` */
  const AllowedMimeTypes: seq<string> := [
    "video/mp4", "video/webm", "video/mov", "video/avi",
    "image/jpeg", "image/png", "image/gif", "image/webp", "image/tiff",
    PdfMime, DocxMime,
    "audio/mpeg", "audio/wav", "audio/ogg",
    XlsxMime]

  /** `allowedMimeTypes.includes(mime)` */
  predicate IsAllowed(mime: string)
  {
    mime in AllowedMimeTypes
  }

  /** The gate: the sniffer found a type and it is allow-listed. */
  predicate Accepts(detected: Option<string>)
  {
    detected.Some? && IsAllowed(detected.value)
  }

  datatype ConverterKind = Video | Image | Pdf | Docx | Audio | Spreadsheet

  datatype Entry = Entry(key: string, kind: ConverterKind)

  /** The `converters` object of `convertFile`, in declaration order (`Object.entries` keeps it). */
  const Converters: seq<Entry> := [
    Entry("video/", Video),
    Entry("image/", Image),
    Entry(PdfMime, Pdf),
    Entry(DocxMime, Docx),
    Entry("audio/", Audio),
    Entry(XlsxMime, Spreadsheet)]

  /** `mimeType.startsWith(prefix) || mimeType === prefix` */
  predicate KeyMatches(mime: string, key: string)
  {
    StartsWith(mime, key) || mime == key
  }

  /** The exact-key test adds nothing to the prefix test. */
  lemma ExactKeyIsPrefix(mime: string, key: string)
    ensures KeyMatches(mime, key) <==> StartsWith(mime, key)
  {
  }

  /** The first entry at or after `from` whose key matches. */
  function FirstMatchFrom(mime: string, from: nat): (r: Option<nat>)
    requires from <= |Converters|
    decreases |Converters| - from
    ensures r.Some? ==> from <= r.value < |Converters| && KeyMatches(mime, Converters[r.value].key)
    ensures r.Some? ==> forall j :: from <= j < r.value ==> !KeyMatches(mime, Converters[j].key)
    ensures r.None? ==> forall j :: from <= j < |Converters| ==> !KeyMatches(mime, Converters[j].key)
  {
    if from == |Converters| then None
    else if KeyMatches(mime, Converters[from].key) then Some(from)
    else FirstMatchFrom(mime, from + 1)
  }

  /** The index of the entry `convertFile` selects for `mime`: the first, in declaration order, that matches. */
  function SelectConverter(mime: string): (r: Option<nat>)
    ensures r.Some? ==> r.value < |Converters| && KeyMatches(mime, Converters[r.value].key)
    ensures r.Some? ==> forall j :: 0 <= j < r.value ==> !KeyMatches(mime, Converters[j].key)
    ensures r.None? ==> forall j :: 0 <= j < |Converters| ==> !KeyMatches(mime, Converters[j].key)
  {
    FirstMatchFrom(mime, 0)
  }

  function KindOf(index: Option<nat>): Option<ConverterKind>
    requires index.Some? ==> index.value < |Converters|
  {
    match index
    case None => None
    case Some(i) => Some(Converters[i].kind)
  }

  /** How many entries at or after `from` match `mime`. */
  function MatchCount(mime: string, from: nat): nat
    requires from <= |Converters|
    decreases |Converters| - from
  {
    if from == |Converters| then 0
    else (if KeyMatches(mime, Converters[from].key) then 1 else 0) + MatchCount(mime, from + 1)
  }

  /** When exactly one entry matches, the first match is that entry and no other matches. */
  lemma {:induction false} SingleMatchIsFirst(mime: string, from: nat)
    requires from <= |Converters|
    requires MatchCount(mime, from) == 1
    decreases |Converters| - from
    ensures FirstMatchFrom(mime, from).Some?
    ensures forall k :: from <= k < |Converters| && KeyMatches(mime, Converters[k].key) ==> k == FirstMatchFrom(mime, from).value
  {
    if KeyMatches(mime, Converters[from].key) {
      NoMatchAfterZeroCount(mime, from + 1);
    } else {
      SingleMatchIsFirst(mime, from + 1);
    }
  }

  lemma {:induction false} NoMatchAfterZeroCount(mime: string, from: nat)
    requires from <= |Converters|
    requires MatchCount(mime, from) == 0
    decreases |Converters| - from
    ensures forall k :: from <= k < |Converters| ==> !KeyMatches(mime, Converters[k].key)
  {
    if from < |Converters| {
      NoMatchAfterZeroCount(mime, from + 1);
    }
  }

  /** The types the table is meant to serve: three families and three document types. */
  predicate IsServedType(mime: string)
  {
    StartsWith(mime, "video/") || StartsWith(mime, "image/") || StartsWith(mime, "audio/")
    || mime == PdfMime || mime == DocxMime || mime == XlsxMime
  }

  /** The converter meant for each served type, independently of the table's order. */
  function IntendedKind(mime: string): (r: Option<ConverterKind>)
    ensures r.Some? <==> IsServedType(mime)
  {
    if StartsWith(mime, "video/") then Some(Video)
    else if StartsWith(mime, "image/") then Some(Image)
    else if StartsWith(mime, "audio/") then Some(Audio)
    else if mime == PdfMime then Some(Pdf)
    else if mime == DocxMime then Some(Docx)
    else if mime == XlsxMime then Some(Spreadsheet)
    else None
  }

  // Each family prefix and each exact document key is matched by its own entry and by no other:
  // one differing character refutes each of the other five keys.

  lemma VideoMatchesOnce(mime: string)
    requires StartsWith(mime, "video/")
    ensures MatchCount(mime, 0) == 1
  {
    assert mime[..6] == "video/";
    DifferentCharRefutesPrefix(mime, Converters[1].key, 0);
    DifferentCharRefutesPrefix(mime, Converters[2].key, 0);
    DifferentCharRefutesPrefix(mime, Converters[3].key, 0);
    DifferentCharRefutesPrefix(mime, Converters[4].key, 0);
    DifferentCharRefutesPrefix(mime, Converters[5].key, 0);
  }

  lemma ImageMatchesOnce(mime: string)
    requires StartsWith(mime, "image/")
    ensures MatchCount(mime, 0) == 1
  {
    assert mime[..6] == "image/";
    DifferentCharRefutesPrefix(mime, Converters[0].key, 0);
    DifferentCharRefutesPrefix(mime, Converters[2].key, 0);
    DifferentCharRefutesPrefix(mime, Converters[3].key, 0);
    DifferentCharRefutesPrefix(mime, Converters[4].key, 0);
    DifferentCharRefutesPrefix(mime, Converters[5].key, 0);
  }

  lemma AudioMatchesOnce(mime: string)
    requires StartsWith(mime, "audio/")
    ensures MatchCount(mime, 0) == 1
  {
    assert mime[..6] == "audio/";
    DifferentCharRefutesPrefix(mime, Converters[0].key, 0);
    DifferentCharRefutesPrefix(mime, Converters[1].key, 0);
    DifferentCharRefutesPrefix(mime, Converters[2].key, 1);
    DifferentCharRefutesPrefix(mime, Converters[3].key, 1);
    DifferentCharRefutesPrefix(mime, Converters[5].key, 1);
  }

  lemma PdfMatchesOnce(mime: string)
    requires mime == PdfMime
    ensures MatchCount(mime, 0) == 1
  {
    DifferentCharRefutesPrefix(mime, Converters[0].key, 0);
    DifferentCharRefutesPrefix(mime, Converters[1].key, 0);
    DifferentCharRefutesPrefix(mime, Converters[3].key, |App|);
    DifferentCharRefutesPrefix(mime, Converters[4].key, 1);
    DifferentCharRefutesPrefix(mime, Converters[5].key, |App|);
  }

  lemma DocxMatchesOnce(mime: string)
    requires mime == DocxMime
    ensures MatchCount(mime, 0) == 1
  {
    DifferentCharRefutesPrefix(mime, Converters[0].key, 0);
    DifferentCharRefutesPrefix(mime, Converters[1].key, 0);
    DifferentCharRefutesPrefix(mime, Converters[2].key, |App|);
    DifferentCharRefutesPrefix(mime, Converters[4].key, 1);
    DifferentCharRefutesPrefix(mime, Converters[5].key, |OpenXml|);
  }

  lemma XlsxMatchesOnce(mime: string)
    requires mime == XlsxMime
    ensures MatchCount(mime, 0) == 1
  {
    DifferentCharRefutesPrefix(mime, Converters[0].key, 0);
    DifferentCharRefutesPrefix(mime, Converters[1].key, 0);
    DifferentCharRefutesPrefix(mime, Converters[2].key, |App|);
    DifferentCharRefutesPrefix(mime, Converters[3].key, |OpenXml|);
    DifferentCharRefutesPrefix(mime, Converters[4].key, 1);
  }

  lemma FamilyMatchesOnce(mime: string)
    requires IsServedType(mime)
    ensures MatchCount(mime, 0) == 1
  {
    if StartsWith(mime, "video/") { VideoMatchesOnce(mime); }
    else if StartsWith(mime, "image/") { ImageMatchesOnce(mime); }
    else if StartsWith(mime, "audio/") { AudioMatchesOnce(mime); }
    else if mime == PdfMime { PdfMatchesOnce(mime); }
    else if mime == DocxMime { DocxMatchesOnce(mime); }
    else { XlsxMatchesOnce(mime); }
  }

  /** A served type is dispatched to its intended converter, and no other entry matches it. */
  lemma ServedTypeDispatch(mime: string)
    requires IsServedType(mime)
    ensures SelectConverter(mime).Some?
    ensures forall k :: 0 <= k < |Converters| && KeyMatches(mime, Converters[k].key) ==> k == SelectConverter(mime).value
    ensures KindOf(SelectConverter(mime)) == IntendedKind(mime)
  {
    FamilyMatchesOnce(mime);
    SingleMatchIsFirst(mime, 0);
    var j :=
      if StartsWith(mime, "video/") then 0
      else if StartsWith(mime, "image/") then 1
      else if StartsWith(mime, "audio/") then 4
      else if mime == PdfMime then 2
      else if mime == DocxMime then 3
      else 5;
    assert KeyMatches(mime, Converters[j].key);
  }

  /** Every allow-listed type matches exactly one entry of the table, the one meant for it, so a
      file that passes the gate never reaches "No suitable converter found". */
  lemma AllowedTypeHasOneConverter(mime: string)
    requires IsAllowed(mime)
    ensures SelectConverter(mime).Some?
    ensures forall k :: 0 <= k < |Converters| && KeyMatches(mime, Converters[k].key) ==> k == SelectConverter(mime).value
    ensures IntendedKind(mime).Some? && KindOf(SelectConverter(mime)) == IntendedKind(mime)
  {
    var i :| 0 <= i < |AllowedMimeTypes| && AllowedMimeTypes[i] == mime;
    if i < 4 {
      assert StartsWith(mime, "video/");
    } else if i < 9 {
      assert StartsWith(mime, "image/");
    } else if 11 <= i < 14 {
      assert StartsWith(mime, "audio/");
    }
    ServedTypeDispatch(mime);
  }
}

/** The staging, conversion and response half of the endpoint. */
module ConvertEndpoint {
  import opened Outcomes
  import opened Strings
  import opened Paths
  import opened FileSystem
  import opened ConvertRoute
  import ImageConverter
  import SpreadsheetConverter

  /** The `file` field as the multipart parser staged it. */
  datatype UploadedFile = UploadedFile(filepath: Path, originalFilename: Option<string>)

  /** What parsing the request body gave: a parser error, or the staged `file` field (if any) and
      the text fields, which the endpoint never reads. */
  datatype Form = ParseFailed(failure: Failure) | Parsed(file: Option<UploadedFile>, fields: map<string, string>)

  /** What `processUploadedFile` returns. */
  datatype Processed = Processed(filePath: Path, mime: string)

  datatype Response =
    | Json(status: nat, error: string)
    | Download(status: nat, contentType: string, contentDisposition: string, body: Bytes)

  const InvalidFileType := Error("Invalid file type")
  const NoConverter := Error("No suitable converter found")

  /** `attachment; filename="<name>"` */
  function ContentDisposition(filename: string): string
  {
    "attachment; filename=\"" + filename + "\""
  }

  /** Where an accepted upload is moved: the upload directory, a uuid, and the extension of the
      client's file name (`originalFilename || ""`). */
  function StagedPath(uploadDir: string, id: string, file: UploadedFile): (r: Path)
    ensures r.dir == uploadDir
  {
    Path(uploadDir, id + Extname(file.originalFilename.GetOr("")))
  }

  /** An accepted upload sits in the upload directory under a name that splits back into the uuid and
      the client's extension. */
  lemma StagedPathSplits(uploadDir: string, id: string, file: UploadedFile)
    requires IsUuid(id)
    ensures StagedPath(uploadDir, id, file).dir == uploadDir
    ensures Stem(StagedPath(uploadDir, id, file).name) == id
    ensures Extname(StagedPath(uploadDir, id, file).name) == Extname(file.originalFilename.GetOr(""))
  {
    UuidNameSplits(id, Extname(file.originalFilename.GetOr("")));
  }

  /** `processUploadedFile`: sniff the staged content, delete and reject it unless its type is
      allow-listed, otherwise move it to a uuid name in the upload directory. */
  method ProcessUploadedFile(disk: Disk, file: UploadedFile, uploadDir: string,
                             sniff: Bytes -> Option<string>, id: string) returns (r: Result<Processed>)
    requires IsFreshId(id, disk.files.Keys)
    modifies disk
    ensures file.filepath !in old(disk.files) ==> r == Err(NoSuchFile) && disk.files == old(disk.files)
    ensures file.filepath in old(disk.files) ==>
            var detected := sniff(old(disk.files)[file.filepath]);
            && (r.Ok? <==> Accepts(detected))
            && (r.Err? ==> r.failure == InvalidFileType && disk.files == old(disk.files) - {file.filepath})
            && (r.Ok? ==> r.value == Processed(StagedPath(uploadDir, id, file), detected.value)
                          && disk.files == (old(disk.files) - {file.filepath})[r.value.filePath := old(disk.files)[file.filepath]])
    ensures r.Ok? ==> file.filepath !in disk.files && r.value.filePath.dir == uploadDir
  {
    var content := disk.ReadFile(file.filepath);
    if content.Err? {
      return Err(content.failure);
    }
    var detected := sniff(content.value);
    if detected.None? || !IsAllowed(detected.value) {
      var _ := disk.Unlink(file.filepath);
      return Err(InvalidFileType);
    }
    var newFilePath := StagedPath(uploadDir, id, file);
    assert newFilePath != file.filepath by {
      assert StartsWith(newFilePath.name, id) by { assert newFilePath.name[..|id|] == id; }
    }
    var _ := disk.Rename(file.filepath, newFilePath);
    r := Ok(Processed(newFilePath, detected.value));
  }

  /** The library calls behind the converters, as values: file-type's sniffer, sharp's encoders,
      ExcelJS, and the codecs of the video, PDF, DOCX and audio converters. */
  datatype Libraries = Libraries(
    sniff: Bytes -> Option<string>,
    sharp: ImageConverter.Sharp,
    sheets: SpreadsheetConverter.SheetCodec,
    codec: (ConverterKind, Bytes) -> Result<Bytes>)

  /** Where each converter, called as `converter(filePath)`, writes its output; `id` is the uuid the
      audio and spreadsheet converters draw. */
  function OutputLocation(kind: ConverterKind, filePath: Path, id: string): (r: Path)
    ensures r.dir == filePath.dir
  {
    match kind
    case Image => ImageConverter.OutputPath(filePath, ImageConverter.DefaultFormat)
    case Spreadsheet => SpreadsheetConverter.OutputPath(filePath, id, SpreadsheetConverter.DefaultTarget)
    case Video => Path(filePath.dir, Stem(filePath.name) + ".mp4")
    case Pdf => Path(filePath.dir, Stem(filePath.name) + "_optimized.pdf")
    case Docx => Path(filePath.dir, Stem(filePath.name) + ".html")
    case Audio => Path(filePath.dir, id + ".mp3")
  }

  /** What `converter(filePath)` returns and leaves on disk, for the converter the table selected. */
  function ConverterEffect(kind: ConverterKind, filePath: Path, files: map<Path, Bytes>, libs: Libraries, id: string)
    : (Result<Path>, map<Path, Bytes>)
  {
    var out := OutputLocation(kind, filePath, id);
    match kind
    case Image =>
      (match ImageConverter.ConvertImage(filePath, None, FileAt(files, filePath), libs.sharp)
       case Err(f) => (Err(f), files)
       case Ok(w) => (Ok(w.outputPath), files[w.outputPath := w.data]))
    case Spreadsheet =>
      (match SpreadsheetConverter.Conversion(filePath, FileAt(files, filePath), SpreadsheetConverter.DefaultTarget, libs.sheets)
       case Err(f) => (Err(f), files)
       case Ok(data) => (Ok(out), files[out := data] - {filePath}))
    case _ =>
      if filePath !in files then (Err(NoSuchFile), files)
      else match libs.codec(kind, files[filePath])
        case Err(f) => (Err(f), files)
        case Ok(data) => (Ok(out), if kind == Audio then files[out := data] - {filePath} else files[out := data])
  }

  /** Every converter writes beside its input, at the location its naming rule gives, and leaves its
      output on disk; the spreadsheet and audio converters remove the input, and the others keep it
      byte for byte unless their output is written over it (an image already named `.png`, a video
      already named `.mp4`). */
  lemma ConverterOutputStays(kind: ConverterKind, filePath: Path, files: map<Path, Bytes>, libs: Libraries, id: string)
    requires IsFreshId(id, files.Keys + {filePath})
    ensures var (r, after) := ConverterEffect(kind, filePath, files, libs, id);
            && (r.Ok? ==> r.value == OutputLocation(kind, filePath, id) && r.value in after && r.value.dir == filePath.dir)
            && (r.Ok? ==> (filePath in after <==> kind != Spreadsheet && kind != Audio))
            && (r.Ok? && kind != Spreadsheet && kind != Audio && r.value != filePath ==>
                  filePath in files && after[filePath] == files[filePath])
            && (r.Err? ==> after == files)
  {
    if kind == Image {
      ImageOutputStays(filePath, files, libs, id);
    } else if kind == Spreadsheet {
      SpreadsheetOutputStays(filePath, files, libs, id);
    } else if kind == Audio {
      AudioOutputStays(filePath, files, libs, id);
    } else {
      CodecOutputStays(kind, filePath, files, libs, id);
    }
  }

  lemma ImageOutputStays(filePath: Path, files: map<Path, Bytes>, libs: Libraries, id: string)
    ensures var (r, after) := ConverterEffect(Image, filePath, files, libs, id);
            && (r.Ok? ==> r.value == OutputLocation(Image, filePath, id) && r.value in after && r.value.dir == filePath.dir
                          && filePath in after)
            && (r.Ok? && r.value != filePath ==> filePath in files && after[filePath] == files[filePath])
            && (r.Err? ==> after == files)
  {
  }

  lemma SpreadsheetOutputStays(filePath: Path, files: map<Path, Bytes>, libs: Libraries, id: string)
    requires IsFreshId(id, files.Keys + {filePath})
    ensures var (r, after) := ConverterEffect(Spreadsheet, filePath, files, libs, id);
            && (r.Ok? ==> r.value == OutputLocation(Spreadsheet, filePath, id) && r.value in after
                          && r.value.dir == filePath.dir && filePath !in after)
            && (r.Err? ==> after == files)
  {
    SpreadsheetConverter.OutputPathIsFresh(filePath, id, SpreadsheetConverter.DefaultTarget, files.Keys);
  }

  lemma CodecOutputStays(kind: ConverterKind, filePath: Path, files: map<Path, Bytes>, libs: Libraries, id: string)
    requires kind == Video || kind == Pdf || kind == Docx
    ensures var (r, after) := ConverterEffect(kind, filePath, files, libs, id);
            && (r.Ok? ==> r.value == OutputLocation(kind, filePath, id) && r.value in after && r.value.dir == filePath.dir
                          && filePath in after)
            && (r.Ok? && r.value != filePath ==> filePath in files && after[filePath] == files[filePath])
            && (r.Err? ==> after == files)
  {
  }

  lemma AudioOutputStays(filePath: Path, files: map<Path, Bytes>, libs: Libraries, id: string)
    requires IsFreshId(id, files.Keys + {filePath})
    ensures var (r, after) := ConverterEffect(Audio, filePath, files, libs, id);
            && (r.Ok? ==> r.value == OutputLocation(Audio, filePath, id) && r.value in after
                          && r.value.dir == filePath.dir && filePath !in after)
            && (r.Err? ==> after == files)
  {
    var out := OutputLocation(Audio, filePath, id);
    assert StartsWith(out.name, id) by { assert out.name[..|id|] == id; }
  }

  /** `converter(filePath)` for the converter of `kind`. */
  method CallConverter(disk: Disk, kind: ConverterKind, filePath: Path, libs: Libraries, id: string)
    returns (r: Result<Path>)
    requires IsFreshId(id, disk.files.Keys + {filePath})
    modifies disk
    ensures (r, disk.files) == ConverterEffect(kind, filePath, old(disk.files), libs, id)
  {
    if kind == Image {
      r := CallImageConverter(disk, filePath, libs, id);
    } else if kind == Spreadsheet {
      r := SpreadsheetConverter.ConvertSpreadsheet(disk, filePath, None, None, id, libs.sheets);
    } else {
      r := CallCodecConverter(disk, kind, filePath, libs, id);
    }
  }

  /** `convertImage(filePath)`, writing the encoded bytes beside the input. */
  method CallImageConverter(disk: Disk, filePath: Path, libs: Libraries, id: string) returns (r: Result<Path>)
    modifies disk
    ensures (r, disk.files) == ConverterEffect(Image, filePath, old(disk.files), libs, id)
  {
    var w := ImageConverter.ConvertImage(filePath, None, FileAt(disk.files, filePath), libs.sharp);
    if w.Err? {
      return Err(w.failure);
    }
    disk.WriteFile(w.value.outputPath, w.value.data);
    r := Ok(w.value.outputPath);
  }

  /** The video, PDF, DOCX and audio converters: read, transform, write; audio also removes its input. */
  method CallCodecConverter(disk: Disk, kind: ConverterKind, filePath: Path, libs: Libraries, id: string)
    returns (r: Result<Path>)
    requires kind != Image && kind != Spreadsheet
    modifies disk
    ensures (r, disk.files) == ConverterEffect(kind, filePath, old(disk.files), libs, id)
  {
    var out := OutputLocation(kind, filePath, id);
    var input := disk.ReadFile(filePath);
    if input.Err? {
      return Err(input.failure);
    }
    var data := libs.codec(kind, input.value);
    if data.Err? {
      return Err(data.failure);
    }
    disk.WriteFile(out, data.value);
    if kind == Audio {
      var _ := disk.Unlink(filePath);
    }
    r := Ok(out);
  }

  /** `convertFile(filePath, mimeType)`: walks the table in order and calls the first converter whose
      key matches, with the path alone; `invoked` names the converter that ran. */
  method ConvertFile(disk: Disk, filePath: Path, mimeType: string, libs: Libraries, id: string)
    returns (r: Result<Path>, invoked: Option<ConverterKind>)
    requires IsFreshId(id, disk.files.Keys + {filePath})
    modifies disk
    ensures invoked == KindOf(SelectConverter(mimeType))
    ensures invoked.None? ==> r == Err(NoConverter) && disk.files == old(disk.files)
    ensures invoked.Some? ==> (r, disk.files) == ConverterEffect(invoked.value, filePath, old(disk.files), libs, id)
  {
    for i := 0 to |Converters|
      invariant forall j :: 0 <= j < i ==> !KeyMatches(mimeType, Converters[j].key)
    {
      if KeyMatches(mimeType, Converters[i].key) {
        invoked := Some(Converters[i].kind);
        r := CallConverter(disk, Converters[i].kind, filePath, libs, id);
        return;
      }
    }
    return Err(NoConverter), None;
  }

  /** The response, the files left on disk and the converter that ran, for one request. */
  datatype Exchange = Exchange(response: Response, files: map<Path, Bytes>, invoked: Option<ConverterKind>)

  /** The `catch` clause: status 500 with the thrown error's message. */
  function Failed(f: Failure, files: map<Path, Bytes>, invoked: Option<ConverterKind>): Exchange
  {
    Exchange(Json(500, MessageOf(f)), files, invoked)
  }

  /** What `POST` does with a parsed (or unparsable) request, where `uploadId` and `outputId` are the
      uuids drawn for the staged upload and for a converter that names its output by uuid. */
  function PostOutcome(form: Form, files: map<Path, Bytes>, uploadDir: string, libs: Libraries,
                       uploadId: string, outputId: string): Exchange
  {
    match form
    case ParseFailed(f) => Failed(f, files, None)
    case Parsed(None, _) => Exchange(Json(400, "No file uploaded"), files, None)
    case Parsed(Some(file), _) =>
      if file.filepath !in files then Failed(NoSuchFile, files, None)
      else
        var detected := libs.sniff(files[file.filepath]);
        if !Accepts(detected) then Failed(InvalidFileType, files - {file.filepath}, None)
        else
          var staged := StagedPath(uploadDir, uploadId, file);
          match KindOf(SelectConverter(detected.value))
          case None => Failed(NoConverter, Staged(files, uploadDir, uploadId, file), None)
          case Some(kind) => Respond(kind, detected.value, ConverterEffect(kind, staged, Staged(files, uploadDir, uploadId, file), libs, outputId))
  }

  /** The end of the `try` block: read the converter's output back and send it with the detected type
      and its base name. */
  function Respond(kind: ConverterKind, mime: string, effect: (Result<Path>, map<Path, Bytes>)): Exchange
  {
    var (r, after) := effect;
    match r
    case Err(f) => Failed(f, after, Some(kind))
    case Ok(out) =>
      if out !in after then Failed(NoSuchFile, after, Some(kind))
      else Exchange(Download(200, mime, ContentDisposition(out.name), after[out]), after, Some(kind))
  }

  /** Two distinct uuids: names built on one never start with the other. */
  lemma DistinctUuidsDoNotPrefix(a: string, b: string, suffix: string)
    requires IsUuid(a) && IsUuid(b) && a != b
    ensures !StartsWith(a + suffix, b)
  {
  }

  /** Every output name starts with one of the two uuids: the stem of the staged name is the upload's
      uuid, and the audio and spreadsheet converters use their own. */
  lemma OutputNamedAfterIds(kind: ConverterKind, uploadDir: string, uploadId: string, file: UploadedFile, outputId: string)
    requires IsUuid(uploadId)
    ensures var out := OutputLocation(kind, StagedPath(uploadDir, uploadId, file), outputId);
            && out.dir == uploadDir
            && (if kind == Audio || kind == Spreadsheet then StartsWith(out.name, outputId) else StartsWith(out.name, uploadId))
  {
    var staged := StagedPath(uploadDir, uploadId, file);
    StagedPathSplits(uploadDir, uploadId, file);
    var out := OutputLocation(kind, staged, outputId);
    if kind == Audio || kind == Spreadsheet {
      assert out.name[..|outputId|] == outputId;
    } else {
      assert out.name[..|uploadId|] == uploadId;
    }
  }

  /** The identifiers `POST` draws: two distinct uuids that start no name already on disk. */
  predicate FreshIds(files: map<Path, Bytes>, uploadId: string, outputId: string)
  {
    IsUuid(uploadId) && IsUuid(outputId) && uploadId != outputId
    && IsFreshId(uploadId, files.Keys) && IsFreshId(outputId, files.Keys)
  }

  /** The output uuid is still fresh once the upload has been moved to its staged name. */
  lemma OutputIdFreshAfterStaging(files: map<Path, Bytes>, uploadDir: string, uploadId: string, outputId: string,
                                  file: UploadedFile)
    requires FreshIds(files, uploadId, outputId) && file.filepath in files
    ensures var staged := StagedPath(uploadDir, uploadId, file);
            IsFreshId(outputId, Staged(files, uploadDir, uploadId, file).Keys + {staged})
  {
    var staged := StagedPath(uploadDir, uploadId, file);
    DistinctUuidsDoNotPrefix(uploadId, outputId, Extname(file.originalFilename.GetOr("")));
  }

  /** Requests that never reach a converter: a parse error and a non-Error throw answer 500 with the
      message (or "Conversion failed"), a missing `file` field 400, a disallowed type 500 "Invalid file
      type" with the staged upload deleted; none of them runs a converter. */
  lemma PostRejections(form: Form, files: map<Path, Bytes>, uploadDir: string, libs: Libraries,
                       uploadId: string, outputId: string)
    ensures var x := PostOutcome(form, files, uploadDir, libs, uploadId, outputId);
            && (form.ParseFailed? ==> x == Exchange(Json(500, MessageOf(form.failure)), files, None))
            && (form.ParseFailed? && form.failure.NonError? ==> x.response == Json(500, "Conversion failed"))
            && (form.Parsed? && form.file.None? ==> x == Exchange(Json(400, "No file uploaded"), files, None))
            && (form.Parsed? && form.file.Some? && form.file.value.filepath in files
                && !Accepts(libs.sniff(files[form.file.value.filepath])) ==>
                  x == Exchange(Json(500, "Invalid file type"), files - {form.file.value.filepath}, None))
  {
  }

  /** The text fields of the form, `format` among them, never influence the outcome. */
  lemma FormatNotForwarded(file: Option<UploadedFile>, a: map<string, string>, b: map<string, string>,
                           files: map<Path, Bytes>, uploadDir: string, libs: Libraries,
                           uploadId: string, outputId: string)
    ensures PostOutcome(Parsed(file, a), files, uploadDir, libs, uploadId, outputId)
         == PostOutcome(Parsed(file, b), files, uploadDir, libs, uploadId, outputId)
  {
  }

  /** The staged name and the disk once the upload has been moved there. */
  function Staged(files: map<Path, Bytes>, uploadDir: string, uploadId: string, file: UploadedFile): map<Path, Bytes>
    requires file.filepath in files
  {
    (files - {file.filepath})[StagedPath(uploadDir, uploadId, file) := files[file.filepath]]
  }

  /** An accepted upload is handed to the converter its family names, at its staged name. */
  lemma PostAcceptedOutcome(form: Form, files: map<Path, Bytes>, uploadDir: string, libs: Libraries,
                            uploadId: string, outputId: string, kind: ConverterKind)
    requires form.Parsed? && form.file.Some? && form.file.value.filepath in files
    requires Accepts(libs.sniff(files[form.file.value.filepath]))
    requires IntendedKind(libs.sniff(files[form.file.value.filepath]).value) == Some(kind)
    ensures var file := form.file.value;
            var mime := libs.sniff(files[file.filepath]).value;
            var staged := StagedPath(uploadDir, uploadId, file);
            PostOutcome(form, files, uploadDir, libs, uploadId, outputId)
              == Respond(kind, mime, ConverterEffect(kind, staged, Staged(files, uploadDir, uploadId, file), libs, outputId))
  {
    AllowedTypeHasOneConverter(libs.sniff(files[form.file.value.filepath]).value);
  }

  /** What the converter leaves behind never includes the upload's temporary name, and its output is
      on disk in the upload directory. */
  lemma ConverterEffectAfterStaging(kind: ConverterKind, files: map<Path, Bytes>, uploadDir: string, libs: Libraries,
                                    uploadId: string, outputId: string, file: UploadedFile)
    requires FreshIds(files, uploadId, outputId) && file.filepath in files
    ensures var staged := StagedPath(uploadDir, uploadId, file);
            var (r, after) := ConverterEffect(kind, staged, Staged(files, uploadDir, uploadId, file), libs, outputId);
            && file.filepath !in after
            && (r.Ok? ==> r.value == OutputLocation(kind, staged, outputId) && r.value in after && r.value.dir == uploadDir)
            && (r.Err? ==> after == Staged(files, uploadDir, uploadId, file))
  {
    var staged := StagedPath(uploadDir, uploadId, file);
    var before := Staged(files, uploadDir, uploadId, file);
    OutputIdFreshAfterStaging(files, uploadDir, uploadId, outputId, file);
    ConverterOutputStays(kind, staged, before, libs, outputId);
    OutputIsNotUpload(kind, files, uploadDir, uploadId, outputId, file);
  }

  /** Neither the staged name nor any output name is the upload's temporary name. */
  lemma OutputIsNotUpload(kind: ConverterKind, files: map<Path, Bytes>, uploadDir: string,
                          uploadId: string, outputId: string, file: UploadedFile)
    requires FreshIds(files, uploadId, outputId) && file.filepath in files
    ensures file.filepath !in Staged(files, uploadDir, uploadId, file)
    ensures OutputLocation(kind, StagedPath(uploadDir, uploadId, file), outputId) != file.filepath
  {
    var staged := StagedPath(uploadDir, uploadId, file);
    OutputNamedAfterIds(kind, uploadDir, uploadId, file, outputId);
    assert staged.name[..|uploadId|] == uploadId;
  }

  /** An upload of an allow-listed type always reaches the one converter its family names, and the
      upload's temporary name is gone afterwards, whatever the converter did. */
  lemma PostAcceptedDispatch(form: Form, files: map<Path, Bytes>, uploadDir: string, libs: Libraries,
                             uploadId: string, outputId: string)
    requires FreshIds(files, uploadId, outputId)
    requires form.Parsed? && form.file.Some? && form.file.value.filepath in files
    requires Accepts(libs.sniff(files[form.file.value.filepath]))
    ensures var x := PostOutcome(form, files, uploadDir, libs, uploadId, outputId);
            var mime := libs.sniff(files[form.file.value.filepath]).value;
            && x.invoked == IntendedKind(mime) && x.invoked.Some?
            && form.file.value.filepath !in x.files
  {
    var mime := libs.sniff(files[form.file.value.filepath]).value;
    AllowedTypeHasOneConverter(mime);
    var kind := IntendedKind(mime).value;
    PostAcceptedOutcome(form, files, uploadDir, libs, uploadId, outputId, kind);
    ConverterEffectAfterStaging(kind, files, uploadDir, libs, uploadId, outputId, form.file.value);
  }

  /** A download is exactly a conversion that succeeded: it carries the detected MIME type (always an
      allow-listed one), names the converter's output, which lies in the upload directory, and serves
      that output's bytes as they are left on disk. */
  lemma PostServesConverterOutput(form: Form, files: map<Path, Bytes>, uploadDir: string, libs: Libraries,
                                  uploadId: string, outputId: string, kind: ConverterKind)
    requires FreshIds(files, uploadId, outputId)
    requires form.Parsed? && form.file.Some? && form.file.value.filepath in files
    requires Accepts(libs.sniff(files[form.file.value.filepath]))
    requires IntendedKind(libs.sniff(files[form.file.value.filepath]).value) == Some(kind)
    ensures var x := PostOutcome(form, files, uploadDir, libs, uploadId, outputId);
            var file := form.file.value;
            var mime := libs.sniff(files[file.filepath]).value;
            var staged := StagedPath(uploadDir, uploadId, file);
            var effect := ConverterEffect(kind, staged, Staged(files, uploadDir, uploadId, file), libs, outputId);
            var out := OutputLocation(kind, staged, outputId);
            && (x.response.Download? <==> effect.0.Ok?)
            && (effect.0.Err? ==> x.response == Json(500, MessageOf(effect.0.failure)))
            && (x.response.Download? ==>
                  && out in x.files && out.dir == uploadDir
                  && x.response == Download(200, mime, ContentDisposition(out.name), x.files[out])
                  && IsAllowed(x.response.contentType))
  {
    var file := form.file.value;
    var mime := libs.sniff(files[file.filepath]).value;
    var effect := ConverterEffect(kind, StagedPath(uploadDir, uploadId, file),
                                  Staged(files, uploadDir, uploadId, file), libs, outputId);
    PostAcceptedOutcome(form, files, uploadDir, libs, uploadId, outputId, kind);
    assert PostOutcome(form, files, uploadDir, libs, uploadId, outputId) == Respond(kind, mime, effect);
    ConverterEffectAfterStaging(kind, files, uploadDir, libs, uploadId, outputId, file);
    RespondServesOutput(kind, mime, effect);
  }

  /** Once the converter's output is known to be on disk, the response is a download exactly when the
      converter succeeded, and otherwise the converter's error. */
  lemma RespondServesOutput(kind: ConverterKind, mime: string, effect: (Result<Path>, map<Path, Bytes>))
    requires effect.0.Ok? ==> effect.0.value in effect.1
    ensures var x := Respond(kind, mime, effect);
            && x.files == effect.1 && x.invoked == Some(kind)
            && (x.response.Download? <==> effect.0.Ok?)
            && (effect.0.Err? ==> x.response == Json(500, MessageOf(effect.0.failure)))
            && (effect.0.Ok? ==> x.response == Download(200, mime, ContentDisposition(effect.0.value.name), effect.1[effect.0.value]))
  {
  }

  /** `POST(req)` once formidable has parsed the body into `form`. */
  method Post(disk: Disk, form: Form, uploadDir: string, libs: Libraries, uploadId: string, outputId: string)
    returns (response: Response, invoked: Option<ConverterKind>)
    requires FreshIds(disk.files, uploadId, outputId)
    modifies disk
    ensures Exchange(response, disk.files, invoked) == PostOutcome(form, old(disk.files), uploadDir, libs, uploadId, outputId)
  {
    invoked := None;
    if form.ParseFailed? {
      return Json(500, MessageOf(form.failure)), None;
    }
    if form.file.None? {
      return Json(400, "No file uploaded"), None;
    }
    var file := form.file.value;
    ghost var files := disk.files;
    var processed := ProcessUploadedFile(disk, file, uploadDir, libs.sniff, uploadId);
    if processed.Err? {
      return Json(500, MessageOf(processed.failure)), None;
    }
    OutputIdFreshAfterStaging(files, uploadDir, uploadId, outputId, file);
    var converted;
    converted, invoked := ConvertFile(disk, processed.value.filePath, processed.value.mime, libs, outputId);
    if converted.Err? {
      return Json(500, MessageOf(converted.failure)), invoked;
    }
    var filename := converted.value.name;
    var fileStream := disk.ReadFile(converted.value);
    if fileStream.Err? {
      return Json(500, MessageOf(fileStream.failure)), invoked;
    }
    response := Download(200, processed.value.mime, ContentDisposition(filename), fileStream.value);
  }
}
