/** The home page's `handleFileDrop`: decides between converting a video in the browser and posting
    the file to `/api/convert`, names the result, and keeps at most one live object URL. */
module HomePage {
  import opened Outcomes
  import opened Strings
  import opened FileInput
  import opened Paths
  import opened FileSystem
  import opened ConvertRoute
  import ConvertEndpoint

  /** `file.name.split(".").pop().toLowerCase()`: the text after the last ".", or the whole name when
      there is no dot, in lower case. */
  function FileExtension(name: string): (e: string)
    ensures '.' !in e
  {
    var last := AfterLast(name, '.');
    var e := ToLowerAscii(last);
    assert forall k :: 0 <= k < |e| ==> e[k] != '.' by {
      forall k | 0 <= k < |e| ensures e[k] != '.' {
        assert last[k] != '.';
      }
    }
    e
  }

  const VideoExtensions: seq<string> := ["mp4", "webm", "mov", "avi"]

  /** `fileExtension && videoExtensions.includes(fileExtension)` */
  predicate UsesBrowserConversion(name: string)
  {
    var e := FileExtension(name);
    e != "" && e in VideoExtensions
  }

  /** The text after the last "." of a name ending in `.ext` is `ext`. */
  lemma {:induction false} AfterLastDot(stem: string, ext: string)
    requires '.' !in ext
    ensures AfterLast(stem + "." + ext, '.') == ext
  {
    var s := stem + "." + ext;
    var r := AfterLast(s, '.');
    assert s[|stem|] == '.';
    assert r != s by { assert '.' in s; }
    assert s[|s| - |ext|..] == ext;
  }

  /** A name ending in `.ext` is converted in the browser exactly when `ext`, in lower case, is one
      of the four video extensions; any letter case qualifies. */
  lemma BrowserRouteIff(stem: string, ext: string)
    requires '.' !in ext
    ensures UsesBrowserConversion(stem + "." + ext) <==> ToLowerAscii(ext) in VideoExtensions
  {
    AfterLastDot(stem, ext);
  }

  /** A name with no dot at all counts as its own extension: a file named "MP4" takes the browser path. */
  lemma DotlessNameIsItsOwnExtension(name: string)
    requires '.' !in name
    ensures UsesBrowserConversion(name) <==> ToLowerAscii(name) in VideoExtensions
  {
    assert AfterLast(name, '.') == name;
  }

  predicate AllWordChars(s: string)
  {
    forall k :: 0 <= k < |s| ==> IsWordChar(s[k])
  }

  /** Where `/\.\w+$/` matches in `name`: the index of a "." followed by one or more word characters
      up to the end. There is at most one such index, since "." is not a word character. */
  function TrailingExtensionAt(name: string): (r: Option<nat>)
    ensures r.Some? ==> r.value + 1 < |name| && name[r.value] == '.' && AllWordChars(name[r.value + 1..])
    ensures r.None? ==> forall i :: 0 <= i < |name| - 1 && name[i] == '.' ==> !AllWordChars(name[i + 1..])
  {
    match LastIndexOf(name, '.')
    case None => None
    case Some(i) =>
      if i + 1 < |name| && AllWordChars(name[i + 1..]) then Some(i)
      else
        assert forall j :: 0 <= j < i && name[j] == '.' ==> !AllWordChars(name[j + 1..]) by {
          forall j | 0 <= j < i && name[j] == '.' ensures !AllWordChars(name[j + 1..]) {
            assert name[j + 1..][i - j - 1] == '.';
          }
        }
        None
  }

  /** `name.replace(/\.\w+$/, "." + format)` */
  function ReplaceExtension(name: string, format: string): (r: string)
    ensures TrailingExtensionAt(name).None? ==> r == name
    ensures TrailingExtensionAt(name).Some? ==> r == name[..TrailingExtensionAt(name).value] + "." + format
  {
    match TrailingExtensionAt(name)
    case None => name
    case Some(i) => name[..i] + "." + format
  }

  /** A name ending in `.ext`, where `ext` is made of word characters, gets `.format` in its place. */
  lemma ReplaceExtensionOfSuffixed(stem: string, ext: string, format: string)
    requires ext != "" && AllWordChars(ext)
    ensures ReplaceExtension(stem + "." + ext, format) == stem + "." + format
  {
    var name := stem + "." + ext;
    assert name[|stem|] == '.';
    assert name[|stem| + 1..] == ext;
    var i := TrailingExtensionAt(name).value;
    assert name[..i] == stem;
  }

  /** A name with no trailing `.word` keeps its name: one ending in a dot, in a non-word character or
      with no dot at all. */
  lemma ReplaceExtensionKeepsPlainName(name: string, format: string)
    requires forall i :: 0 <= i < |name| - 1 && name[i] == '.' ==> !AllWordChars(name[i + 1..])
    ensures ReplaceExtension(name, format) == name
  {
  }

  /** Replacing with a word-character format is idempotent. */
  lemma ReplaceExtensionIdempotent(name: string, format: string)
    requires format != "" && AllWordChars(format)
    ensures ReplaceExtension(ReplaceExtension(name, format), format) == ReplaceExtension(name, format)
  {
    var t := TrailingExtensionAt(name);
    if t.Some? {
      ReplaceExtensionOfSuffixed(name[..t.value], format, format);
    }
  }

  /** Every format the selector offers is a non-empty run of word characters. */
  lemma OfferedFormatsAreWords(family: string, k: nat)
    requires family in ConversionOptions && k < |ConversionOptions[family]|
    ensures ConversionOptions[family][k] != "" && AllWordChars(ConversionOptions[family][k])
  {
  }

  /** The literal text the pattern `filename="(.+)"` begins with. */
  const FilenameOpen := "filename=\""

  /** The first index at or after `k` holding a line terminator, or the end. */
  function LineEnd(h: string, k: nat): (e: nat)
    requires k <= |h|
    ensures k <= e <= |h| && (e == |h| || IsLineTerminator(h[e]))
    ensures forall m :: k <= m < e ==> !IsLineTerminator(h[m])
    decreases |h| - k
  {
    if k == |h| || IsLineTerminator(h[k]) then k else LineEnd(h, k + 1)
  }

  /** The last index in `[lo, hi)` holding a double quote. */
  function LastQuote(h: string, lo: nat, hi: nat): (r: Option<nat>)
    requires lo <= hi <= |h|
    ensures r.Some? ==> lo <= r.value < hi && h[r.value] == '"' && forall m :: r.value < m < hi ==> h[m] != '"'
    ensures r.None? ==> forall m :: lo <= m < hi ==> h[m] != '"'
    decreases hi - lo
  {
    if hi == lo then None else if h[hi - 1] == '"' then Some(hi - 1) else LastQuote(h, lo, hi - 1)
  }

  /** The capture of `filename="(.+)"` for a match starting at `i`, if there is one: `.+` takes the
      longest run of non-line-terminators after the opening quote that still leaves a closing quote. */
  function MatchAt(h: string, i: nat): Option<string>
    requires i <= |h|
  {
    if !StartsWith(h[i..], FilenameOpen) then None
    else
      var k := i + |FilenameOpen|;
      var e := LineEnd(h, k);
      if k + 1 > e then None
      else match LastQuote(h, k + 1, e)
        case None => None
        case Some(j) => Some(h[k..j])
  }

  /** A match at `i` is `filename="`, then the capture (non-empty, no line terminator), then a quote
      after which the line holds no further quote. */
  lemma MatchAtMeaning(h: string, i: nat)
    requires i <= |h| && MatchAt(h, i).Some?
    ensures var v := MatchAt(h, i).value;
            var k := i + |FilenameOpen|;
            && StartsWith(h[i..], FilenameOpen)
            && |v| > 0 && k + |v| < |h|
            && h[k..k + |v|] == v && h[k + |v|] == '"'
            && (forall m :: 0 <= m < |v| ==> !IsLineTerminator(v[m]))
            && (forall m :: k + |v| < m < LineEnd(h, k) ==> h[m] != '"')
  {
  }

  /** A match of the pattern: where it starts and what it captured. */
  datatype Capture = Capture(at: nat, value: string)

  /** `h.match(/filename="(.+)"/)` searching from `i`: the leftmost start with a match. */
  function MatchFrom(h: string, i: nat): (r: Option<Capture>)
    requires i <= |h|
    ensures r.Some? ==> i <= r.value.at <= |h| && MatchAt(h, r.value.at) == Some(r.value.value)
    ensures r.Some? ==> forall m :: i <= m < r.value.at ==> MatchAt(h, m).None?
    ensures r.None? ==> forall m :: i <= m <= |h| ==> MatchAt(h, m).None?
    decreases |h| - i
  {
    match MatchAt(h, i)
    case Some(v) => Some(Capture(i, v))
    case None => if i == |h| then None else MatchFrom(h, i + 1)
  }

  /** `contentDisposition?.match(/filename="(.+)"/)?.[1]`, for a header that may be absent. */
  function ParseFilename(header: Option<string>): Option<string>
  {
    match header
    case None => None
    case Some(h) =>
      match MatchFrom(h, 0)
      case None => None
      case Some(c) => Some(c.value)
  }

  /** The download name: the header's `filename` when it matches, otherwise the original name with
      its extension replaced by the format. */
  function DownloadFilename(header: Option<string>, name: string, format: string): (r: string)
    ensures ParseFilename(header).Some? ==> r == ParseFilename(header).value
    ensures ParseFilename(header).None? ==> r == ReplaceExtension(name, format)
  {
    match ParseFilename(header)
    case Some(f) => f
    case None => ReplaceExtension(name, format)
  }

  /** The header text before `filename="`. */
  const AttachmentPrefix := "attachment; "

  /** The header the endpoint sends is read back to the file name it carries, for any non-empty name
      without line terminators, quotes included. */
  lemma ParseContentDisposition(filename: string)
    requires filename != "" && forall m :: 0 <= m < |filename| ==> !IsLineTerminator(filename[m])
    ensures ParseFilename(Some(ConvertEndpoint.ContentDisposition(filename))) == Some(filename)
  {
    var h := ConvertEndpoint.ContentDisposition(filename);
    var p := |AttachmentPrefix|;
    var k := p + |FilenameOpen|;
    assert h == AttachmentPrefix + FilenameOpen + filename + "\"";
    forall m | 0 <= m < p
      ensures MatchAt(h, m).None?
    {
      assert h[m] == AttachmentPrefix[m];
      DifferentCharRefutesPrefix(h[m..], FilenameOpen, 0);
    }
    assert h[p..][..|FilenameOpen|] == FilenameOpen;
    assert LineEnd(h, k) == |h| by {
      LineEndOfPlainText(h, k);
    }
    assert h[|h| - 1] == '"';
    assert LastQuote(h, k + 1, |h|) == Some(|h| - 1);
    assert h[k..|h| - 1] == filename;
    assert MatchAt(h, p) == Some(filename);
    var c := MatchFrom(h, 0);
    assert c.Some?;
    assert c.value.at == p;
  }

  /** Text without line terminators runs to the end. */
  lemma LineEndOfPlainText(h: string, k: nat)
    requires k <= |h| && forall m :: k <= m < |h| ==> !IsLineTerminator(h[m])
    ensures LineEnd(h, k) == |h|
  {
  }

  /** A uuid followed by text without line terminators has none either. */
  lemma UuidNameIsOneLine(id: string, suffix: string)
    requires IsUuid(id) && forall m :: 0 <= m < |suffix| ==> !IsLineTerminator(suffix[m])
    ensures forall m :: 0 <= m < |id + suffix| ==> !IsLineTerminator((id + suffix)[m])
  {
    assert forall m :: 0 <= m < |id| ==> (id + suffix)[m] == id[m];
  }

  /** End to end: when the endpoint answers with a download, the page saves it under the base name of
      the converter's output, whatever the original name and the chosen format. */
  lemma DownloadKeepsServedName(form: ConvertEndpoint.Form, files: map<Path, Bytes>, uploadDir: string,
                                libs: ConvertEndpoint.Libraries, uploadId: string, outputId: string,
                                name: string, format: string, kind: ConverterKind)
    requires ConvertEndpoint.FreshIds(files, uploadId, outputId)
    requires form.Parsed? && form.file.Some? && form.file.value.filepath in files
    requires Accepts(libs.sniff(files[form.file.value.filepath]))
    requires IntendedKind(libs.sniff(files[form.file.value.filepath]).value) == Some(kind)
    ensures var x := ConvertEndpoint.PostOutcome(form, files, uploadDir, libs, uploadId, outputId);
            var out := ConvertEndpoint.OutputLocation(kind, ConvertEndpoint.StagedPath(uploadDir, uploadId, form.file.value), outputId);
            x.response.Download? ==> IsOk(x.response) && DownloadFilename(DispositionHeader(x.response), name, format) == out.name
  {
    var file := form.file.value;
    ConvertEndpoint.PostServesConverterOutput(form, files, uploadDir, libs, uploadId, outputId, kind);
    ServedNameParses(kind, uploadDir, uploadId, file, outputId);
  }

  /** The header built from an output name parses back to it. */
  lemma ServedNameParses(kind: ConverterKind, uploadDir: string, uploadId: string,
                         file: ConvertEndpoint.UploadedFile, outputId: string)
    requires IsUuid(uploadId) && IsUuid(outputId)
    ensures var n := ConvertEndpoint.OutputLocation(kind, ConvertEndpoint.StagedPath(uploadDir, uploadId, file), outputId).name;
            ParseFilename(Some(ConvertEndpoint.ContentDisposition(n))) == Some(n)
  {
    OutputNameIsOneLine(kind, uploadDir, uploadId, file, outputId);
    ParseContentDisposition(ConvertEndpoint.OutputLocation(kind, ConvertEndpoint.StagedPath(uploadDir, uploadId, file), outputId).name);
  }

  /** Every output name is a uuid followed by a fixed suffix, so it is one non-empty line. */
  lemma OutputNameIsOneLine(kind: ConverterKind, uploadDir: string, uploadId: string,
                            file: ConvertEndpoint.UploadedFile, outputId: string)
    requires IsUuid(uploadId) && IsUuid(outputId)
    ensures var n := ConvertEndpoint.OutputLocation(kind, ConvertEndpoint.StagedPath(uploadDir, uploadId, file), outputId).name;
            n != "" && forall m :: 0 <= m < |n| ==> !IsLineTerminator(n[m])
  {
    ConvertEndpoint.StagedPathSplits(uploadDir, uploadId, file);
    OutputNameFromStem(kind, ConvertEndpoint.StagedPath(uploadDir, uploadId, file), uploadId, outputId);
  }

  /** The output name of an input whose stem is a uuid. */
  lemma OutputNameFromStem(kind: ConverterKind, input: Path, uploadId: string, outputId: string)
    requires Stem(input.name) == uploadId && IsUuid(uploadId) && IsUuid(outputId)
    ensures var n := ConvertEndpoint.OutputLocation(kind, input, outputId).name;
            n != "" && forall m :: 0 <= m < |n| ==> !IsLineTerminator(n[m])
  {
    var n := ConvertEndpoint.OutputLocation(kind, input, outputId).name;
    var id, suffix := uploadId, "";
    match kind {
      case Image => suffix := "." + "png";
      case Video => suffix := ".mp4";
      case Pdf => suffix := "_optimized.pdf";
      case Docx => suffix := ".html";
      case Audio => id, suffix := outputId, ".mp3";
      case Spreadsheet => id, suffix := outputId, "." + "xlsx";
    }
    assert n == id + suffix;
    UuidNameIsOneLine(id, suffix);
  }

  /** A value appended to the `FormData`. */
  datatype FormValue = FileValue(file: DroppedFile) | Text(text: string)

  /** What the server path delivers: a network failure, or the endpoint's response. */
  datatype Delivery = NetworkError | Delivered(response: ConvertEndpoint.Response)

  /** `response.ok` */
  predicate IsOk(response: ConvertEndpoint.Response)
  {
    200 <= response.status <= 299
  }

  /** `response.headers.get("Content-Disposition")` */
  function DispositionHeader(response: ConvertEndpoint.Response): Option<string>
  {
    match response
    case Download(_, _, disposition, _) => Some(disposition)
    case Json(_, _) => None
  }

  /** The side effects `handleFileDrop` performs, in order. */
  datatype Event =
    | SetConverting(on: bool)
    | RunFfmpeg(args: seq<string>)
    | PostForm(endpoint: string, form: seq<(string, FormValue)>)
    | RevokeUrl(revoked: nat)
    | CreateUrl(created: nat)

  const MissingType := "File type is required."
  const VideoFailed := "Video conversion failed. Please try again."
  const ServerFailed := "There is something wrong with the server."

  /** The page's state: the four `useState` hooks, the object URLs not yet revoked (URLs are numbered
      in creation order) and the side effects performed so far. */
  class Page {
    var convertedFileUrl: Option<nat>
    var originalFilename: Option<string>
    var isConverting: bool
    var errorMessage: Option<string>
    var liveUrls: set<nat>
    var nextUrl: nat
    var events: seq<Event>

    /** The only object URL alive is the one the page shows, and it is one already created. */
    predicate Valid()
      reads this
    {
      && liveUrls == (if convertedFileUrl.Some? then {convertedFileUrl.value} else {})
      && (convertedFileUrl.Some? ==> convertedFileUrl.value < nextUrl)
    }

    constructor ()
      ensures Valid() && !isConverting
      ensures convertedFileUrl.None? && originalFilename.None? && errorMessage.None? && events == []
    {
      convertedFileUrl, originalFilename, isConverting, errorMessage := None, None, false, None;
      liveUrls, nextUrl, events := {}, 0, [];
    }

    /** The revocation `handleFileDrop` performs before creating a new URL. */
    function Revocation(): seq<Event>
      reads this
    {
      if convertedFileUrl.Some? then [RevokeUrl(convertedFileUrl.value)] else []
    }

    method SetIsConverting(on: bool)
      modifies this
      ensures isConverting == on && events == old(events) + [SetConverting(on)]
      ensures convertedFileUrl == old(convertedFileUrl) && originalFilename == old(originalFilename)
      ensures errorMessage == old(errorMessage) && liveUrls == old(liveUrls) && nextUrl == old(nextUrl)
    {
      isConverting := on;
      events := events + [SetConverting(on)];
    }

    /** `if (convertedFileUrl) URL.revokeObjectURL(convertedFileUrl)`, then `URL.createObjectURL(blob)`
        stored with the name it is to be downloaded under. */
    method ShowResult(name: string)
      requires Valid()
      modifies this
      ensures Valid()
      ensures events == old(events) + old(Revocation()) + [CreateUrl(old(nextUrl))]
      ensures convertedFileUrl == Some(old(nextUrl)) && liveUrls == {old(nextUrl)} && nextUrl == old(nextUrl) + 1
      ensures old(convertedFileUrl).Some? ==> old(convertedFileUrl).value !in liveUrls
      ensures originalFilename == Some(name)
      ensures isConverting == old(isConverting) && errorMessage == old(errorMessage)
    {
      if convertedFileUrl.Some? {
        liveUrls := liveUrls - {convertedFileUrl.value};
        events := events + [RevokeUrl(convertedFileUrl.value)];
      }
      var url := nextUrl;
      nextUrl := nextUrl + 1;
      liveUrls := liveUrls + {url};
      events := events + [CreateUrl(url)];
      convertedFileUrl := Some(url);
      originalFilename := Some(name);
    }

    /** `handleFileDrop(file, type)`: `videoRun` is how loading FFmpeg and running it in the browser
        ends, `delivery` what the server path receives. */
    method HandleFileDrop(file: DroppedFile, format: Option<string>, videoRun: Result<()>, delivery: Delivery)
      requires Valid()
      modifies this
      ensures Valid()
      ensures format.Some? && format.value != "" ==> !isConverting
      ensures format.None? || format == Some("") ==>
                && errorMessage == Some(MissingType) && events == old(events)
                && convertedFileUrl == old(convertedFileUrl) && originalFilename == old(originalFilename)
                && liveUrls == old(liveUrls) && nextUrl == old(nextUrl) && isConverting == old(isConverting)
      ensures format.Some? && format.value != "" && UsesBrowserConversion(file.name) ==>
                var output := ReplaceExtension(file.name, format.value);
                match videoRun
                case Ok(_) =>
                  && events == old(events) + [SetConverting(true)] + [RunFfmpeg(["-i", file.name, output])]
                                           + old(Revocation()) + [CreateUrl(old(nextUrl))] + [SetConverting(false)]
                  && convertedFileUrl == Some(old(nextUrl)) && originalFilename == Some(output) && errorMessage.None?
                  && nextUrl == old(nextUrl) + 1
                case Err(_) =>
                  && events == old(events) + [SetConverting(true)] + [SetConverting(false)]
                  && convertedFileUrl == old(convertedFileUrl) && originalFilename == old(originalFilename)
                  && errorMessage == Some(VideoFailed) && nextUrl == old(nextUrl)
      ensures format.Some? && format.value != "" && !UsesBrowserConversion(file.name) ==>
                var posted := PostForm("/api/convert", [("file", FileValue(file)), ("format", Text(format.value))]);
                if delivery.Delivered? && IsOk(delivery.response) then
                  && events == old(events) + [SetConverting(true)] + [posted] + old(Revocation())
                                           + [CreateUrl(old(nextUrl))] + [SetConverting(false)]
                  && convertedFileUrl == Some(old(nextUrl)) && errorMessage.None? && nextUrl == old(nextUrl) + 1
                  && originalFilename == Some(DownloadFilename(DispositionHeader(delivery.response), file.name, format.value))
                else
                  && events == old(events) + [SetConverting(true)] + [posted] + [SetConverting(false)]
                  && convertedFileUrl == old(convertedFileUrl) && originalFilename == old(originalFilename)
                  && errorMessage == Some(ServerFailed) && nextUrl == old(nextUrl)
    {
      if format.None? || format.value == "" {
        errorMessage := Some(MissingType);
        return;
      }
      var t := format.value;
      SetIsConverting(true);
      errorMessage := None;
      if UsesBrowserConversion(file.name) {
        ConvertInBrowser(file, t, videoRun);
      } else {
        ConvertOnServer(file, t, delivery);
      }
      SetIsConverting(false);
    }

    /** The `try` block of the browser path: FFmpeg writes `<name>` and produces the name with its
        extension replaced, which becomes the download. */
    method ConvertInBrowser(file: DroppedFile, format: string, videoRun: Result<()>)
      requires Valid()
      modifies this
      ensures Valid() && isConverting == old(isConverting)
      ensures var output := ReplaceExtension(file.name, format);
              videoRun.Ok? ==>
                && events == old(events) + [RunFfmpeg(["-i", file.name, output])] + old(Revocation()) + [CreateUrl(old(nextUrl))]
                && convertedFileUrl == Some(old(nextUrl)) && originalFilename == Some(output) && errorMessage == old(errorMessage)
                && nextUrl == old(nextUrl) + 1
      ensures videoRun.Err? ==>
                && events == old(events) && errorMessage == Some(VideoFailed) && nextUrl == old(nextUrl)
                && convertedFileUrl == old(convertedFileUrl) && originalFilename == old(originalFilename)
    {
      var outputFileName := ReplaceExtension(file.name, format);
      if videoRun.Ok? {
        events := events + [RunFfmpeg(["-i", file.name, outputFileName])];
        ShowResult(outputFileName);
      } else {
        errorMessage := Some(VideoFailed);
      }
    }

    /** The server path: post `file` and `format`, and on an ok response download under the name the
        header gives or, failing that, the original name with its extension replaced. */
    method ConvertOnServer(file: DroppedFile, format: string, delivery: Delivery)
      requires Valid()
      modifies this
      ensures Valid() && isConverting == old(isConverting)
      ensures var posted := PostForm("/api/convert", [("file", FileValue(file)), ("format", Text(format))]);
              if delivery.Delivered? && IsOk(delivery.response) then
                && events == old(events) + [posted] + old(Revocation()) + [CreateUrl(old(nextUrl))]
                && convertedFileUrl == Some(old(nextUrl)) && errorMessage == old(errorMessage) && nextUrl == old(nextUrl) + 1
                && originalFilename == Some(DownloadFilename(DispositionHeader(delivery.response), file.name, format))
              else
                && events == old(events) + [posted] && errorMessage == Some(ServerFailed) && nextUrl == old(nextUrl)
                && convertedFileUrl == old(convertedFileUrl) && originalFilename == old(originalFilename)
    {
      events := events + [PostForm("/api/convert", [("file", FileValue(file)), ("format", Text(format))])];
      if delivery.Delivered? && IsOk(delivery.response) {
        var downloadFilename := DownloadFilename(DispositionHeader(delivery.response), file.name, format);
        ShowResult(downloadFilename);
      } else {
        errorMessage := Some(ServerFailed);
      }
    }
  }
}
