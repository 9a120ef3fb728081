# unfilo conversion core, modelled in Dafny

unfilo is a Next.js web file converter. The browser page takes a dropped file and a target
format. A video is converted in the browser with FFmpeg. Any other file is posted to
`/api/convert`. The endpoint sniffs the upload's real MIME type, checks it against an allow-list,
moves the upload to a uuid name, and hands it to the first converter whose key matches the type;
then it streams the converted file back.

This project models that decision logic and the state it changes:

- `route.dfy`, module `ConvertRoute`: the allow-list and the ordered converter table, as constants
  and pure functions, with the proof that every allow-listed type matches exactly one entry.
- `route.dfy`, module `ConvertEndpoint`:
  - `processUploadedFile`, `convertFile` (a `for` loop) and `POST`, as methods over a mutable staging
    directory (`FileSystem.Disk`);
  - `PostOutcome`, a pure function that the `Post` method is proved equal to;
  - the lemmas about what a request leaves on disk and what it answers.
- `file_input.dfy`, module `FileInput`:
  - the format options by MIME family, and their agreement with the dropzone's accepted extensions;
  - the simulated upload timer, as a class holding the component's state hooks, with a proof that
    the callback fires exactly once, on the tenth tick.
- `page.tsx` is modelled by `page.dfy`, module `HomePage`:
  - the extension and browser-or-server routing rule;
  - the `/\.\w+$/` replacement;
  - the `filename="(.+)"` header match, with the proof that it reads back every name the endpoint
    sends;
  - `handleFileDrop`, as a class method that records its side effects in order and keeps at most
    one live object URL.
- `image_converter.dfy` and `spreadsheet_converter.dfy`: the two converters with branching of their
  own.
- `outcomes.dfy`, `strings.dfy`, `paths.dfy` and `filesystem.dfy`: thrown errors as values, the
  JavaScript string operations, Node's `extname` for a bare name, and the `fs.promises` calls.

Library calls are function-valued parameters. These are file-type's sniffer, sharp's encoders,
ExcelJS, and the codecs behind the video, PDF, DOCX and audio converters. uuids are parameters
required to be fresh (`Paths.IsFreshId`). The network answer and the outcome of the in-browser
FFmpeg run are parameters of `HandleFileDrop`.

Three behaviours of the code shape what the model proves:

- A disallowed type is answered with status 500 "Invalid file type", not a 4xx. Only a missing
  `file` field gets 400.
- There is no central clean-up. The staged upload of a rejected type is deleted. Only the
  spreadsheet and audio converters delete their input. Outputs are never deleted. The image,
  video, PDF and DOCX inputs stay on disk byte for byte, unless the output path is the input path:
  an image already named `.png` or a video already named `.mp4` is overwritten by its output
  (`ConvertEndpoint.ConverterOutputStays`, `ImageConverter.OutputOverwritesInputIff`).
- The requested `format` is never forwarded to a converter. Every converter runs with its
  defaults, so images always become PNG and spreadsheets always become xlsx.

Two consequences show up in the proofs:

- `FileInput.ApplicationTypesOfferNothing`: the "document" options are never shown. Every
  PDF, DOCX and XLSX type has the family "application", the options table has no such key, and so
  the format selector stays hidden for these files.
- `HomePage.DotlessNameIsItsOwnExtension`: a file name without a dot counts as its own extension,
  so a file named "MP4" takes the browser path.

## Model

| member | source | states |
|---|---|---|
| Outcomes.MessageOf | src/app/api/convert/route.ts:154 | an Error's message, and "Conversion failed" for any other thrown value |
| Strings.StartsWith | src/app/api/convert/route.ts:96 | `startsWith`: the prefix is no longer than the text and equals its first characters |
| Strings.BeforeFirst | src/app/components/FileInput.tsx:83 | `split("/")[0]` is the whole text when it has no separator, otherwise the text before the first one; the result never contains the separator |
| Strings.AfterLast | src/app/page.tsx:27 | `split(".").pop()` is the whole text when it has no dot, otherwise the text after the last one; the result never contains a dot |
| Strings.ToLowerAscii | src/app/page.tsx:27 | `toLowerCase` keeps the length and lowers each ASCII letter, position by position |
| Paths.Extname | src/app/api/convert/route.ts:74 | `path.extname` is empty or a proper suffix that starts with its only dot |
| Paths.Stem | src/app/lib/converters/imageConverter.ts:11 | `basename(p, extname(p))` followed by the extension gives the name back |
| Paths.UuidNameSplits | src/app/api/convert/route.ts:74 | a uuid followed by an extension splits back into that uuid and that extension |
| Paths.NewExtensionSplits | src/app/lib/converters/imageConverter.ts:11 | stem + "." + format has the extension "." + format and the original stem |
| FileSystem.Disk.ReadFile | src/app/api/convert/route.ts:141 | returns the file's contents, or throws ENOENT for a path that does not exist |
| FileSystem.Disk.WriteFile | src/app/lib/converters/imageConverter.ts:32 | creates or replaces exactly that path |
| FileSystem.Disk.Unlink | src/app/api/convert/route.ts:69 | succeeds exactly when the path exists; afterwards that path alone is gone |
| FileSystem.Disk.Rename | src/app/api/convert/route.ts:77 | a file that exists moves to the target; otherwise ENOENT and nothing changes |
| ImageConverter.OutputPath | src/app/lib/converters/imageConverter.ts:11-12 | the input's directory, its stem, "." and the format; `OutputPathSplits` and `OutputOverwritesInputIff` state its properties |
| ImageConverter.EncoderFor | src/app/lib/converters/imageConverter.ts:16-29 | "jpeg" and "jpg" select JPEG, "webp" WebP, "gif" GIF; every other string selects PNG, and no format names two encoders |
| ImageConverter.OutputPathSplits | src/app/lib/converters/imageConverter.ts:11-12 | the output is in the input's directory, keeps its stem and has the requested format as extension, whatever the encoder |
| ImageConverter.OutputOverwritesInputIff | src/app/lib/converters/imageConverter.ts:11-12 | the output path is the input path exactly when the input already has the requested extension |
| ImageConverter.ConvertImage | src/app/lib/converters/imageConverter.ts:6-39 | succeeds exactly when the input exists and the selected encoder succeeds; a missing input fails with sharp's own error; the default format is "png"; the result is the encoded bytes to write at the output path |
| ImageConverter.DefaultCallWritesPng | src/app/lib/converters/imageConverter.ts:8 | called with the path alone, as the endpoint calls it, the converter encodes PNG into stem + ".png" |
| SpreadsheetConverter.OutputPathIsFresh | src/app/lib/converters/spreadsheetConverter.ts:18-19 | `<dir>/<uuid>.<target>` is in the input's directory and is neither the input nor any file already on disk |
| SpreadsheetConverter.CsvAsWrittenNeverWrites | src/app/lib/converters/spreadsheetConverter.ts:29-33 | as written, a "csv" target always throws and never yields the first sheet's CSV |
| SpreadsheetConverter.RenderAsWritten | src/app/lib/converters/spreadsheetConverter.ts:25-42 | the switch as written: "xlsx" and "pdf" both serialise the workbook as xlsx; "csv" always throws, and not with "Unsupported format"; any other target throws "Unsupported format" |
| SpreadsheetConverter.Render | src/app/lib/converters/spreadsheetConverter.ts:29-33 | the corrected switch, the half of the finding below that states the intent of the comment on line 30: "csv" exports the first worksheet, and every other target behaves as written |
| SpreadsheetConverter.OutputPath | src/app/lib/converters/spreadsheetConverter.ts:18-19 | `<dir of input>/<uuid>.<target>`; `OutputPathIsFresh` states where it lies |
| SpreadsheetConverter.Conversion | src/app/lib/converters/spreadsheetConverter.ts:17-42 | the bytes the converter writes: a missing input fails with ExcelJS's own file-not-found error; success needs a readable workbook and an "xlsx" or "pdf" target, and then the bytes are that workbook serialised as xlsx |
| SpreadsheetConverter.RenderAgreesOutsideCsv | src/app/lib/converters/spreadsheetConverter.ts:25-42 | the corrected switch and the switch as written agree on every target except "csv" |
| SpreadsheetConverter.CsvReadsFirstSheetOnly | src/app/lib/converters/spreadsheetConverter.ts:29-33 | a CSV export succeeds for a non-empty workbook and depends on its first worksheet alone |
| SpreadsheetConverter.ConvertSpreadsheet | src/app/lib/converters/spreadsheetConverter.ts:12-52 | the target defaults to "xlsx" and `format` is unused; runs the switch as written, so a "csv" target throws and keeps its input; on success the output is written at `<dir>/<uuid>.<target>` and the input is deleted only after that write; on any failure the error is the one thrown and the disk is unchanged |
| ConvertRoute.IsAllowed | src/app/api/convert/route.ts:67 | membership in the 15-type allow-list |
| ConvertRoute.Accepts | src/app/api/convert/route.ts:65-67 | the sniffer found a type and that type is allow-listed |
| ConvertRoute.KeyMatches | src/app/api/convert/route.ts:96 | a `startsWith` test or an exact-equality test; `ExactKeyIsPrefix` shows the second test adds nothing |
| ConvertRoute.ExactKeyIsPrefix | src/app/api/convert/route.ts:96 | the `=== prefix` test adds nothing to `startsWith` |
| ConvertRoute.FirstMatchFrom | src/app/api/convert/route.ts:95-99 | the index found matches and no earlier entry does; no index means no entry matches |
| ConvertRoute.SelectConverter | src/app/api/convert/route.ts:84-99 | the selected entry is the first matching one in declaration order |
| ConvertRoute.SingleMatchIsFirst | src/app/api/convert/route.ts:95-99 | when exactly one entry matches, the first match is that entry and no other entry matches |
| ConvertRoute.NoMatchAfterZeroCount | src/app/api/convert/route.ts:95-99 | a zero match count means that no entry matches |
| ConvertRoute.IntendedKind | src/app/api/convert/route.ts:84-93 | a converter kind is given exactly for the three families and the three document types |
| ConvertRoute.FamilyMatchesOnce | src/app/api/convert/route.ts:84-93 | every video, image or audio type and each of the three document types matches exactly one table key |
| ConvertRoute.ServedTypeDispatch | src/app/api/convert/route.ts:84-99 | a served type is dispatched to its intended converter, and no other entry matches |
| ConvertRoute.AllowedTypeHasOneConverter | src/app/api/convert/route.ts:26-47 | every allow-listed type matches exactly one entry, the intended one, so "No suitable converter found" is unreachable for it |
| ConvertEndpoint.StagedPath | src/app/api/convert/route.ts:74-75 | the staged upload lies in the upload directory; `StagedPathSplits` states its name |
| ConvertEndpoint.StagedPathSplits | src/app/api/convert/route.ts:74-75 | the staged name is in the upload directory and splits into the uuid and the extension of the client's file name |
| ConvertEndpoint.Staged | src/app/api/convert/route.ts:77 | the disk once the upload is moved to its staged name; `OutputIdFreshAfterStaging` and `ConverterEffectAfterStaging` state what it holds |
| ConvertEndpoint.ProcessUploadedFile | src/app/api/convert/route.ts:61-80 | a type that is missing or not allow-listed unlinks the upload and throws "Invalid file type"; an accepted upload is moved to `uploadDir/<uuid><extname(originalFilename or "")>` and its temporary path is gone |
| ConvertEndpoint.OutputLocation | src/app/api/convert/route.ts:97 | each converter's output lies in its input's directory |
| ConvertEndpoint.ConverterEffect | src/app/api/convert/route.ts:97 | what `converter(filePath)` returns and leaves on disk, by kind; `ConverterOutputStays` states its properties |
| ConvertEndpoint.ConverterOutputStays | src/app/api/convert/route.ts:97 | a converter that succeeds leaves its output on disk, beside its input, at its naming rule's location; the spreadsheet and audio converters remove their input; the image, video, PDF and DOCX converters keep it byte for byte unless the output path is the input path, where the output replaces it (`OutputOverwritesInputIff` says when); a converter that fails changes nothing |
| ConvertEndpoint.ImageOutputStays | src/app/lib/converters/imageConverter.ts:31-34 | the image output is left at stem + ".png"; a failure changes nothing |
| ConvertEndpoint.SpreadsheetOutputStays | src/app/lib/converters/spreadsheetConverter.ts:44-47 | the spreadsheet output is left on disk and the input is gone |
| ConvertEndpoint.CodecOutputStays | src/app/lib/converters/pdfConverter.ts:13-17 | the video, PDF and DOCX outputs are left beside their input |
| ConvertEndpoint.AudioOutputStays | src/app/lib/converters/audioConverter.ts:18-26 | the audio output `<uuid>.mp3` is left on disk and the input is gone |
| ConvertEndpoint.CallConverter | src/app/api/convert/route.ts:97 | the converter is called with the path alone, and its result and disk agree with its effect function |
| ConvertEndpoint.CallImageConverter | src/app/lib/converters/imageConverter.ts:31-34 | the encoded image is written at the output path, which is returned |
| ConvertEndpoint.CallCodecConverter | src/app/lib/converters/pdfConverter.ts:9-17 | the video, PDF, DOCX and audio converters read their input, transform it and write the output; audio then unlinks the input; the result and disk agree with the effect function |
| ConvertEndpoint.ConvertFile | src/app/api/convert/route.ts:83-102 | the loop calls the first matching converter and only that one; with no match it throws "No suitable converter found" and changes nothing |
| ConvertEndpoint.OutputNamedAfterIds | src/app/api/convert/route.ts:74-75 | every output name lies in the upload directory and starts with the upload's uuid or with the converter's own |
| ConvertEndpoint.OutputIdFreshAfterStaging | src/app/api/convert/route.ts:74-77 | the converter's uuid is still fresh after the upload has been moved |
| ConvertEndpoint.OutputIsNotUpload | src/app/api/convert/route.ts:74-77 | neither the staged name nor any output name is the upload's temporary name |
| ConvertEndpoint.ContentDisposition | src/app/api/convert/route.ts:147 | `attachment; filename="<name>"`; `HomePage.ServedNameParses` shows that the page reads the name back |
| ConvertEndpoint.Failed | src/app/api/convert/route.ts:150-157 | the `catch` answer: status 500 with the thrown value's message; `PostRejections` and `RespondServesOutput` state where it is given |
| ConvertEndpoint.PostOutcome | src/app/api/convert/route.ts:110-159 | the response, disk and converter run of a request, as a function; `PostRejections`, `PostServesConverterOutput` and `FormatNotForwarded` state its properties, and `Post` is proved equal to it |
| ConvertEndpoint.Respond | src/app/api/convert/route.ts:137-157 | the converter's output read back as a download, or its error as 500; `RespondServesOutput` states it |
| ConvertEndpoint.FormatNotForwarded | src/app/api/convert/route.ts:119-137 | the form's text fields, `format` among them, never change the response, the disk or the converter run |
| ConvertEndpoint.PostRejections | src/app/api/convert/route.ts:129-157 | a missing `file` field gives 400 "No file uploaded"; a parse error gives 500 with its message ("Conversion failed" for a non-Error); a disallowed type gives 500 "Invalid file type" with the upload deleted; none of these runs a converter |
| ConvertEndpoint.PostAcceptedOutcome | src/app/api/convert/route.ts:133-137 | an accepted upload goes to its intended converter at its staged name |
| ConvertEndpoint.ConverterEffectAfterStaging | src/app/api/convert/route.ts:134-137 | after any converter the temporary name is gone, and a successful output is in the upload directory |
| ConvertEndpoint.PostAcceptedDispatch | src/app/api/convert/route.ts:134-137 | an accepted request runs exactly its intended converter, and the temporary upload is gone afterwards |
| ConvertEndpoint.PostServesConverterOutput | src/app/api/convert/route.ts:137-157 | a download happens exactly when the converter succeeded; it has status 200, Content-Type = the detected (allow-listed) MIME, filename = the output's basename, and the output's bytes; a converter failure gives 500 with its message |
| ConvertEndpoint.RespondServesOutput | src/app/api/convert/route.ts:140-157 | with the output on disk, the response is that file, or the converter's error |
| ConvertEndpoint.Post | src/app/api/convert/route.ts:110-159 | the response, the disk afterwards and the converter run are exactly those of `PostOutcome` |
| FileInput.Family | src/app/components/FileInput.tsx:83 | the text before the first "/"; `FamilyOfSlashedType` states it for `family/subtype` |
| FileInput.FamilyOfSlashedType | src/app/components/FileInput.tsx:83 | the family of `family/subtype` is `family` |
| FileInput.GetConversionOptions | src/app/components/FileInput.tsx:81-85 | no file gives []; otherwise the family's list when the table has the family, else [] |
| FileInput.OptionsShownIff | src/app/components/FileInput.tsx:98 | the selector is shown exactly for a file whose family is one of the four table keys |
| FileInput.MediaTypeOffered | src/app/components/FileInput.tsx:83-84 | an image, video or audio file is offered its family's formats |
| FileInput.ApplicationTypesOfferNothing | src/app/components/FileInput.tsx:83-84 | no `application/` type is offered any format |
| FileInput.VideoOptionsMatchDropzone | src/app/components/FileInput.tsx:69 | the video formats, dotted, are exactly the extensions accepted for "video/*", in order |
| FileInput.ImageOptionsMatchDropzone | src/app/components/FileInput.tsx:70 | the image formats, dotted, are exactly the extensions accepted for "image/*", in order |
| FileInput.AudioOptionsMatchDropzone | src/app/components/FileInput.tsx:77 | the audio formats, dotted, are exactly the extensions accepted for "audio/*", in order |
| FileInput.DocumentOptionsMatchDropzone | src/app/components/FileInput.tsx:71-76 | the "document" formats, dotted, are the extensions accepted for the three application types |
| FileInput.Started | src/app/components/FileInput.tsx:38-39 | the new timer: progress 0, running, on the captured file and format; `TimerFiresOnce` states its whole course |
| FileInput.Step | src/app/components/FileInput.tsx:39-48 | a tick adds 10, and the timer stays scheduled exactly when it has not yet reached 100; a cleared timer does not run |
| FileInput.AfterTicks | src/app/components/FileInput.tsx:39-48 | the timer keeps the file and format it captured |
| FileInput.Fires | src/app/components/FileInput.tsx:43 | a running timer's next tick reaches 100 |
| FileInput.Fired | src/app/components/FileInput.tsx:39-48 | the uploads the callback makes during n ticks, in order; `TimerFiresOnce` gives their closed form |
| FileInput.TimerFiresOnce | src/app/components/FileInput.tsx:38-48 | after n ticks the progress is 10·min(n, 10), the timer is cleared from tick 10 on, and the callback has fired once if n ≥ 10 and never otherwise |
| FileInput.FileInputState.constructor | src/app/components/FileInput.tsx:28-31 | no file, not uploading, progress 0, no format |
| FileInput.FileInputState.OnDrop | src/app/components/FileInput.tsx:53-57 | keeps the first accepted file (none for an empty list) and resets the format and the progress |
| FileInput.FileInputState.SimulateUpload | src/app/components/FileInput.tsx:33-51 | shows the bar at 0 and starts one new timer on that file and format |
| FileInput.FileInputState.HandleConversionTypeChange | src/app/components/FileInput.tsx:59-64 | records the format; starts an upload exactly when a file is present |
| FileInput.FileInputState.Tick | src/app/components/FileInput.tsx:39-48 | one callback run: progress + 10; at 100 it clears the timer and `uploading` and calls `onFileUpload` once |
| FileInput.FileInputState.RunTimer | src/app/components/FileInput.tsx:39-48 | n runs leave the timer, the progress and the uploads as the tick functions give them |
| FileInput.FileInputState.SelectAndWait | src/app/components/FileInput.tsx:59-64 | choosing a format for a dropped file, then ten ticks, uploads that file with that format exactly once, keeps the file selected, and leaves the bar hidden at 100 |
| HomePage.FileExtension | src/app/page.tsx:27 | the extension never contains a dot |
| HomePage.AfterLastDot | src/app/page.tsx:27 | the text after the last dot of `stem.ext` is `ext` |
| HomePage.BrowserRouteIff | src/app/page.tsx:26-29 | `stem.ext` goes to the browser exactly when `ext`, lower-cased, is mp4, webm, mov or avi |
| HomePage.UsesBrowserConversion | src/app/page.tsx:29 | the extension is non-empty and one of the four video extensions; `BrowserRouteIff` states it for `stem.ext` |
| HomePage.DotlessNameIsItsOwnExtension | src/app/page.tsx:27-29 | a name without a dot takes the browser path exactly when the whole name, lower-cased, is a video extension (so "MP4" does) |
| HomePage.TrailingExtensionAt | src/app/page.tsx:37 | where `/\.\w+$/` matches: a dot followed by one or more word characters up to the end, and no match means that no dot is followed by such a run |
| HomePage.ReplaceExtension | src/app/page.tsx:37 | the match is replaced by "." + format; with no match the name is unchanged |
| HomePage.ReplaceExtensionOfSuffixed | src/app/page.tsx:37 | `stem.ext`, where ext is word characters, becomes `stem.format` |
| HomePage.ReplaceExtensionKeepsPlainName | src/app/page.tsx:85 | a name with no trailing `.word` is kept as it is |
| HomePage.ReplaceExtensionIdempotent | src/app/page.tsx:37 | replacing twice with a word format is the same as once |
| HomePage.OfferedFormatsAreWords | src/app/components/FileInput.tsx:20-25 | every offered format is a non-empty run of word characters |
| HomePage.LineEnd | src/app/page.tsx:82 | the first line terminator at or after k, or the end |
| HomePage.MatchAt | src/app/page.tsx:82 | the capture of a match starting at one position, if any; `MatchAtMeaning` states what a match is |
| HomePage.MatchAtMeaning | src/app/page.tsx:82 | a match is `filename="`, then a non-empty one-line capture, then a quote with no later quote on that line |
| HomePage.MatchFrom | src/app/page.tsx:82 | the match found is the leftmost one |
| HomePage.ParseFilename | src/app/page.tsx:82 | the capture of the leftmost match, none for an absent header; `ParseContentDisposition` states what it reads back |
| HomePage.DownloadFilename | src/app/page.tsx:81-85 | the header's capture when it matches, otherwise the original name with its extension replaced |
| HomePage.ParseContentDisposition | src/app/page.tsx:82 | every header `attachment; filename="<n>"` with a non-empty one-line n reads back exactly n, quotes included |
| HomePage.DownloadKeepsServedName | src/app/page.tsx:81-85 | when the endpoint answers with a download, the page saves it under the converter output's basename, whatever the original name and format |
| HomePage.ServedNameParses | src/app/api/convert/route.ts:147 | the header the endpoint builds from any output name parses back to that name |
| HomePage.OutputNameIsOneLine | src/app/api/convert/route.ts:140 | every output basename is a non-empty single line |
| HomePage.IsOk | src/app/page.tsx:76 | `response.ok`, a status from 200 to 299; `Page.ConvertOnServer` shows a result exactly for a delivered response that is ok |
| HomePage.DispositionHeader | src/app/page.tsx:81 | the response's Content-Disposition header, absent from a JSON answer; `DownloadKeepsServedName` states what the page reads from it |
| HomePage.Page.constructor | src/app/page.tsx:13-16 | no URL, no name, no error, not converting |
| HomePage.Page.SetIsConverting | src/app/page.tsx:23 | sets the flag and records it; the rest of the state is unchanged |
| HomePage.Page.ShowResult | src/app/page.tsx:88-94 | revokes the previous URL before creating the new one, which becomes the only live URL and is stored with the download name |
| HomePage.Page.HandleFileDrop | src/app/page.tsx:18-102 | a missing type sets "File type is required." and changes nothing else; otherwise the flag goes true, then a browser or server run, then false in `finally`; each outcome's events, URL, name and error message are given in order; a shown result draws exactly one new object URL and a failure draws none |
| HomePage.Page.ConvertInBrowser | src/app/page.tsx:31-62 | FFmpeg runs `-i name name'`, where name' has its extension replaced; on success name' is shown under one new object URL; a failure sets the video error and draws no URL |
| HomePage.Page.ConvertOnServer | src/app/page.tsx:64-100 | posts the fields `file` and `format`; an ok response is shown under the download name and one new object URL; anything else sets the server error and draws no URL |

## Left out

- Content sniffing (`fileType.fromFile`) is a function parameter returning an optional MIME; magic-byte detection is not modelled.
- Multipart parsing is not modelled: the endpoint starts from the parsed form, or the parser's error. This leaves out the 50 MB limit, formidable's array form of `files.file` (the model has one file), and `ensureUploadDirectory`.
- The video, PDF, DOCX and audio converters are one codec parameter each. Only their output-name rules and their file writes and deletions are modelled. The audio unlink is fire-and-forget in the source and is modelled as done before the response is read.
- sharp, ExcelJS, FFmpeg and mammoth are opaque: their outputs are bytes, and their failures are any `Failure`. Their errors for a missing input are parameters too (`ImageConverter.Sharp.missingInput`, `SpreadsheetConverter.SheetCodec.fileNotFound`); only the `fs` calls throw the model's ENOENT.
- FileSystem.Disk.WriteFile: a write never fails and never leaves a partial file. Directories are not modelled, so a missing upload directory (whose `mkdir` error route.ts:55-57 only logs) cannot make a write or a rename fail.
- SpreadsheetConverter.ConvertSpreadsheet: ExcelJS `writeFile` is modelled as serialising the workbook and then one atomic, infallible write. A write that fails part-way, after creating the output, is not modelled; the code itself promises only that the input is kept when anything throws.
- ConvertEndpoint.CallCodecConverter: the codec converters, fluent-ffmpeg's `.save` among them, are modelled as producing the bytes and then one atomic write. An ffmpeg run that fails after starting its output leaves a partial file in the source; the model leaves the disk unchanged on every codec failure.
- ConvertEndpoint.ConverterOutputStays: "a converter that fails changes nothing" holds only because of the atomic, infallible writes stated in the three lines above; the code promises only that a failed conversion keeps its input.
- uuid generation is a parameter; `Paths.IsFreshId` assumes that the uuid starts no existing name.
- Node `path` is a directory plus a bare name. `extname` follows Node's rule for a bare name (no dot, a leading dot only, and ".." have none). Separators, normalisation and absolute paths are not modelled.
- Browser I/O is not modelled: `fetch`, `Blob`, object URLs (numbered instead), and FFmpeg loading, writing and reading. Their outcomes are parameters of `HandleFileDrop`.
- The error body of a non-ok response is not modelled. It is read but then replaced by the generic server error, so it has no visible effect.
- Timing is not modelled: `setInterval` is discrete ticks, and React's batching and re-rendering are not modelled.
- Concurrency is not modelled: overlapping `handleFileDrop` calls or timers, stale closures over `convertedFileUrl`, and the `useEffect` clean-up that revokes a URL on change or unmount.
- Rendering is not modelled: JSX, `FileOutput.tsx`, `layout.tsx`, `Footer.tsx` and animations.
- FileInput.GetConversionOptions: a `file.type` that names a property inherited by every JavaScript object, such as "constructor", is treated as absent from the options table.
- HomePage.ReplaceExtension: `$` patterns in the replacement text are not interpreted (offered formats contain none).
- Strings.ToLowerAscii: lowers ASCII letters only, not the full Unicode case mapping.
- Strings.IsWordChar: `\w` without the `u` or `i` flags, as the source uses it.

## Findings

| source | as written | input that shows it | evidently intended | confidence | as-written member | corrected member |
|---|---|---|---|---|---|---|
| src/app/lib/converters/spreadsheetConverter.ts:32 | `await worksheet.cvs` reads a property ExcelJS worksheets do not have, so `fs.writeFile` gets `undefined` and throws (or, for an empty workbook, reading it off the missing sheet throws) | `convertSpreadsheet(p, f, "csv")` on any readable workbook | export the first worksheet as CSV, as the comment on line 30 says | not executed | SpreadsheetConverter.CsvAsWrittenNeverWrites | SpreadsheetConverter.CsvReadsFirstSheetOnly |
