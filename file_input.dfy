/** The `FileInput` component: the dropzone, the format selector it offers for the dropped file's
    MIME family, and the simulated upload whose progress timer hands the file and the chosen format
    to `onFileUpload` once it reaches 100. */
module FileInput {
  import opened Outcomes
  import opened Strings

  /** A browser `File` as the component reads it: its name and its MIME type (`file.type`). */
  datatype DroppedFile = DroppedFile(name: string, mimeType: string)

  /** `CONVERSION_OPTIONS`: target formats by MIME family. */
  const ConversionOptions: map<string, seq<string>> := map[
    "image" := ["jpeg", "png", "gif", "webp", "tiff"],
    "video" := ["mp4", "webm", "mov", "avi"],
    "audio" := ["mp3", "wav", "ogg"],
    "document" := ["pdf", "docx", "xlsx"]]

  /** The dropzone's `accept` option, in source order: a MIME pattern and the extensions it admits. */
  const DropzoneAccept: seq<(string, seq<string>)> := [
    ("video/*", [".mp4", ".webm", ".mov", ".avi"]),
    ("image/*", [".jpeg", ".png", ".gif", ".webp", ".tiff"]),
    ("application/pdf", [".pdf"]),
    ("application/vnd.openxmlformats-officedocument.wordprocessingml.document", [".docx"]),
    ("application/vnd.openxmlformats-officedocument.spreadsheetml.sheet", [".xlsx"]),
    ("audio/*", [".mp3", ".wav", ".ogg"])]

  /** `type.split("/")[0]`: the MIME family. */
  function Family(mimeType: string): string
  {
    BeforeFirst(mimeType, '/')
  }

  /** The family of a type written `family/subtype` is the text before its slash. */
  lemma {:induction false} FamilyOfSlashedType(family: string, subtype: string)
    requires '/' !in family
    ensures Family(family + "/" + subtype) == family
  {
    var s := family + "/" + subtype;
    assert s[|family|] == '/';
    assert forall k :: 0 <= k < |family| ==> s[k] == family[k];
  }

  /** `getConversionOptions()`: nothing without a file, otherwise the list for the file's family,
      and nothing for a family the table lacks (`|| []`). */
  function GetConversionOptions(file: Option<DroppedFile>): (r: seq<string>)
    ensures file.None? ==> r == []
    ensures file.Some? && Family(file.value.mimeType) in ConversionOptions ==> r == ConversionOptions[Family(file.value.mimeType)]
    ensures file.Some? && Family(file.value.mimeType) !in ConversionOptions ==> r == []
  {
    match file
    case None => []
    case Some(f) =>
      var family := Family(f.mimeType);
      if family in ConversionOptions then ConversionOptions[family] else []
  }

  /** The selector is shown exactly for a file whose family is one of the four table keys. */
  lemma OptionsShownIff(file: Option<DroppedFile>)
    ensures GetConversionOptions(file) != [] <==> file.Some? && Family(file.value.mimeType) in {"image", "video", "audio", "document"}
  {
  }

  /** A file of the image, video or audio family is offered that family's formats. */
  lemma MediaTypeOffered(family: string, subtype: string, name: string)
    requires family in {"image", "video", "audio"}
    ensures GetConversionOptions(Some(DroppedFile(name, family + "/" + subtype))) == ConversionOptions[family]
  {
    FamilyOfSlashedType(family, subtype);
  }

  /** No MIME type of the `application/` family is offered anything: the "document" formats are
      never shown for the PDF, DOCX and XLSX files the dropzone accepts. */
  lemma ApplicationTypesOfferNothing(subtype: string, name: string)
    ensures GetConversionOptions(Some(DroppedFile(name, "application/" + subtype))) == []
  {
    FamilyOfSlashedType("application", subtype);
  }

  /** The options prefixed with ".", as the dropzone lists extensions. */
  function Dotted(options: seq<string>): (r: seq<string>)
    ensures |r| == |options|
    ensures forall k :: 0 <= k < |options| ==> r[k] == "." + options[k]
  {
    if options == [] then [] else ["." + options[0]] + Dotted(options[1..])
  }

  /** For video, the formats offered are exactly the extensions the dropzone accepts for the
      family's wildcard pattern, in the same order; likewise for images and audio below. */
  lemma VideoOptionsMatchDropzone()
    ensures DropzoneAccept[0].0 == "video/*" && Dotted(ConversionOptions["video"]) == DropzoneAccept[0].1
  {
    DottedPointwise(ConversionOptions["video"], DropzoneAccept[0].1);
  }

  lemma ImageOptionsMatchDropzone()
    ensures DropzoneAccept[1].0 == "image/*" && Dotted(ConversionOptions["image"]) == DropzoneAccept[1].1
  {
    DottedPointwise(ConversionOptions["image"], DropzoneAccept[1].1);
  }

  lemma AudioOptionsMatchDropzone()
    ensures DropzoneAccept[5].0 == "audio/*" && Dotted(ConversionOptions["audio"]) == DropzoneAccept[5].1
  {
    DottedPointwise(ConversionOptions["audio"], DropzoneAccept[5].1);
  }

  /** Two lists agree up to the "." prefix element by element. */
  lemma DottedPointwise(options: seq<string>, extensions: seq<string>)
    requires |options| == |extensions|
    requires forall k :: 0 <= k < |options| ==> extensions[k] == "." + options[k]
    ensures Dotted(options) == extensions
  {
  }

  /** The "document" formats are the extensions accepted for the three application types together. */
  lemma DocumentOptionsMatchDropzone()
    ensures Dotted(ConversionOptions["document"]) == DropzoneAccept[2].1 + DropzoneAccept[3].1 + DropzoneAccept[4].1
  {
    DottedPointwise(ConversionOptions["document"], DropzoneAccept[2].1 + DropzoneAccept[3].1 + DropzoneAccept[4].1);
  }

  /** A pending `setInterval` of `simulateUpload`: its own `progressValue`, the file and format it
      captured, and whether it is still scheduled. */
  datatype Interval = Interval(progressValue: int, file: DroppedFile, format: string, active: bool)

  /** One call of `onFileUpload(file, type)`. */
  datatype Upload = Upload(file: DroppedFile, format: string)

  /** The timer started by `simulateUpload`. */
  function Started(file: DroppedFile, format: string): Interval
  {
    Interval(0, file, format, true)
  }

  /** Whether the next tick of `iv` reaches 100 and fires the callback. */
  predicate Fires(iv: Interval)
  {
    iv.active && iv.progressValue + 10 >= 100
  }

  /** One run of the timer callback; a cleared interval does not run. */
  function Step(iv: Interval): (r: Interval)
    ensures iv.active ==> r.progressValue == iv.progressValue + 10
    ensures r.active <==> iv.active && !Fires(iv)
    ensures r.file == iv.file && r.format == iv.format
    ensures !iv.active ==> r == iv
  {
    if !iv.active then iv
    else
      var v := iv.progressValue + 10;
      iv.(progressValue := v, active := v < 100)
  }

  /** The interval after `n` further ticks. */
  function AfterTicks(iv: Interval, n: nat): (r: Interval)
    ensures r.file == iv.file && r.format == iv.format
  {
    if n == 0 then iv else Step(AfterTicks(iv, n - 1))
  }

  /** The callbacks fired during `n` further ticks, in order. */
  function Fired(iv: Interval, n: nat): seq<Upload>
  {
    if n == 0 then [] else Fired(iv, n - 1) + (if Fires(AfterTicks(iv, n - 1)) then [Upload(iv.file, iv.format)] else [])
  }

  function Min(a: nat, b: nat): nat
  {
    if a <= b then a else b
  }

  /** A started timer counts 10, 20, …, 100 over its first ten ticks and then stays cleared at 100;
      it fires the callback, with the file and format it captured, exactly once, on the tenth tick. */
  lemma {:induction false} TimerFiresOnce(file: DroppedFile, format: string, n: nat)
    ensures AfterTicks(Started(file, format), n) == Interval(10 * Min(n, 10), file, format, n < 10)
    ensures Fired(Started(file, format), n) == (if n >= 10 then [Upload(file, format)] else [])
  {
    if n > 0 {
      TimerFiresOnce(file, format, n - 1);
    }
  }

  /** The component's state: the four `useState` hooks, the timers `simulateUpload` has created, and
      the calls made to `onFileUpload`. */
  class FileInputState {
    var file: Option<DroppedFile>
    var uploading: bool
    var progress: int
    var conversionType: string
    var intervals: seq<Interval>
    var uploads: seq<Upload>

    constructor ()
      ensures file.None? && !uploading && progress == 0 && conversionType == ""
      ensures intervals == [] && uploads == []
    {
      file, uploading, progress, conversionType := None, false, 0, "";
      intervals, uploads := [], [];
    }

    /** `onDrop(acceptedFiles)`: keeps the first accepted file (none when every file was rejected),
        clears the chosen format and the progress; a running timer is left alone. */
    method OnDrop(acceptedFiles: seq<DroppedFile>)
      modifies this
      ensures file == (if |acceptedFiles| > 0 then Some(acceptedFiles[0]) else None)
      ensures conversionType == "" && progress == 0
      ensures uploading == old(uploading) && intervals == old(intervals) && uploads == old(uploads)
    {
      file := if |acceptedFiles| > 0 then Some(acceptedFiles[0]) else None;
      conversionType := "";
      progress := 0;
    }

    /** `simulateUpload(uploadedFile, type)`: shows the bar at 0 and starts a new timer. */
    method SimulateUpload(uploadedFile: DroppedFile, format: string)
      modifies this
      ensures uploading && progress == 0
      ensures intervals == old(intervals) + [Started(uploadedFile, format)]
      ensures file == old(file) && conversionType == old(conversionType) && uploads == old(uploads)
    {
      uploading := true;
      progress := 0;
      intervals := intervals + [Started(uploadedFile, format)];
    }

    /** `handleConversionTypeChange(type)`: records the format, and starts an upload only when a file
        is present. */
    method HandleConversionTypeChange(format: string)
      modifies this
      ensures conversionType == format && file == old(file) && uploads == old(uploads)
      ensures old(file).None? ==> intervals == old(intervals) && uploading == old(uploading) && progress == old(progress)
      ensures old(file).Some? ==> intervals == old(intervals) + [Started(old(file).value, format)] && uploading && progress == 0
    {
      conversionType := format;
      if file.Some? {
        SimulateUpload(file.value, format);
      }
    }

    /** One run of the callback of timer `k`: `progressValue += 10`, `setProgress`, and at 100
        `clearInterval`, `setUploading(false)` and `onFileUpload(uploadedFile, type)`. */
    method Tick(k: nat)
      requires k < |intervals|
      modifies this
      ensures intervals == old(intervals)[k := Step(old(intervals)[k])]
      ensures progress == if old(intervals)[k].active then Step(old(intervals)[k]).progressValue else old(progress)
      ensures uploading == if Fires(old(intervals)[k]) then false else old(uploading)
      ensures uploads == old(uploads) + (if Fires(old(intervals)[k]) then [Upload(old(intervals)[k].file, old(intervals)[k].format)] else [])
      ensures file == old(file) && conversionType == old(conversionType)
    {
      var iv := intervals[k];
      if iv.active {
        var progressValue := iv.progressValue + 10;
        progress := progressValue;
        intervals := intervals[k := iv.(progressValue := progressValue)];
        if progressValue >= 100 {
          intervals := intervals[k := iv.(progressValue := progressValue, active := false)];
          uploading := false;
          uploads := uploads + [Upload(iv.file, iv.format)];
        }
      }
    }

    /** `n` consecutive runs of the callback of timer `k`, with no other timer running in between. */
    method RunTimer(k: nat, n: nat)
      requires k < |intervals|
      modifies this
      ensures |intervals| == |old(intervals)|
      ensures intervals == old(intervals)[k := AfterTicks(old(intervals)[k], n)]
      ensures uploads == old(uploads) + Fired(old(intervals)[k], n)
      ensures progress == if n > 0 && old(intervals)[k].active then AfterTicks(old(intervals)[k], n).progressValue else old(progress)
      ensures uploading == if Fired(old(intervals)[k], n) != [] then false else old(uploading)
      ensures file == old(file) && conversionType == old(conversionType)
    {
      ghost var iv0 := intervals[k];
      for i := 0 to n
        invariant intervals == old(intervals)[k := AfterTicks(iv0, i)]
        invariant uploads == old(uploads) + Fired(iv0, i)
        invariant progress == if i > 0 && iv0.active then AfterTicks(iv0, i).progressValue else old(progress)
        invariant uploading == if Fired(iv0, i) != [] then false else old(uploading)
        invariant Fired(iv0, i) != [] ==> !AfterTicks(iv0, i).active
        invariant !iv0.active ==> AfterTicks(iv0, i) == iv0
        invariant file == old(file) && conversionType == old(conversionType)
      {
        Tick(k);
      }
    }

    /** Choosing a format for a dropped file and letting its timer run ten times uploads that file
        with that format exactly once and hides the bar at 100. */
    method SelectAndWait(format: string)
      requires file.Some?
      modifies this
      ensures uploads == old(uploads) + [Upload(old(file).value, format)]
      ensures file == old(file) && !uploading && progress == 100 && conversionType == format
      ensures intervals == old(intervals) + [Interval(100, old(file).value, format, false)]
    {
      HandleConversionTypeChange(format);
      RunTimer(|intervals| - 1, 10);
      TimerFiresOnce(old(file).value, format, 10);
    }
  }
}
