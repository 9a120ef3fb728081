/** `convertImage`: picks one sharp encoder from the requested format and writes the encoded
    image next to the input, named after the input's stem and the requested format. */
module ImageConverter {
  import opened Outcomes
  import opened Strings
  import opened Paths
  import opened FileSystem

  /** The sharp output encoders the switch can select. */
  datatype Encoder = Jpeg | Webp | Gif | Png

  /** The default of the `outputFormat` parameter. */
  const DefaultFormat := "png"

  /** The format strings that name an encoder. */
  function FormatNames(e: Encoder): set<string>
  {
    match e
    case Jpeg => {"jpeg", "jpg"}
    case Webp => {"webp"}
    case Gif => {"gif"}
    case Png => {"png"}
  }

  /** Every format string some encoder answers to. */
  const NamedFormats: set<string> := {"jpeg", "jpg", "webp", "gif", "png"}

  /** The `switch (outputFormat)`: the encoder a named format names, and PNG for any other. */
  function EncoderFor(format: string): (e: Encoder)
    ensures forall named: Encoder :: format in FormatNames(named) ==> e == named
    ensures format in FormatNames(e) <==> format in NamedFormats
    ensures format !in NamedFormats ==> e == Png
  {
    match format
    case "jpeg" => Jpeg
    case "jpg" => Jpeg
    case "webp" => Webp
    case "gif" => Gif
    case _ => Png
  }

  /** The output path: same directory, the input's stem, "." and the requested format. */
  function OutputPath(filePath: Path, format: string): Path
  {
    Path(filePath.dir, Stem(filePath.name) + "." + format)
  }

  /** The output lies beside the input and keeps its stem; its extension is the requested format,
      whatever encoder was chosen. */
  lemma OutputPathSplits(filePath: Path, format: string)
    requires filePath.name != "" && format != "" && '.' !in format
    ensures OutputPath(filePath, format).dir == filePath.dir
    ensures Stem(OutputPath(filePath, format).name) == Stem(filePath.name)
    ensures Extname(OutputPath(filePath, format).name) == "." + format
  {
    var stem := Stem(filePath.name);
    NewExtensionSplits(stem, format);
  }

  /** The output replaces the input exactly when the input already carries the requested extension. */
  lemma OutputOverwritesInputIff(filePath: Path, format: string)
    ensures OutputPath(filePath, format) == filePath <==> Extname(filePath.name) == "." + format
  {
    var stem, ext := Stem(filePath.name), Extname(filePath.name);
    assert filePath.name == stem + ext;
    if OutputPath(filePath, format) == filePath {
      assert stem + ("." + format) == stem + ext;
      assert ("." + format) == (stem + ext)[|stem|..];
    }
  }

  /** The encoded image and where it is to be written. */
  datatype ImageWrite = ImageWrite(outputPath: Path, encoder: Encoder, data: Bytes)

  /** sharp as the converter uses it: an encoder run on the input's contents, and the error it
      throws for an input file that does not exist. */
  datatype Sharp = Sharp(encode: (Encoder, Bytes) -> Result<Bytes>, missingInput: Path -> Failure)

  /** `convertImage(filePath, outputFormat)`: `outputFormat` is `None` when the caller leaves it out;
      `input` is the file's contents (`None` when it is missing). */
  function ConvertImage(filePath: Path, outputFormat: Option<string>, input: Option<Bytes>, sharp: Sharp)
    : (r: Result<ImageWrite>)
    ensures r.Ok? <==> input.Some? && sharp.encode(EncoderFor(outputFormat.GetOr(DefaultFormat)), input.value).Ok?
    ensures r.Ok? ==> r.value.outputPath == OutputPath(filePath, outputFormat.GetOr(DefaultFormat))
    ensures r.Ok? ==> Ok(r.value.data) == sharp.encode(r.value.encoder, input.value)
    ensures r.Ok? ==> r.value.encoder == EncoderFor(outputFormat.GetOr(DefaultFormat))
    ensures input.None? ==> r == Err(sharp.missingInput(filePath))
  {
    var format := outputFormat.GetOr(DefaultFormat);
    var outputPath := OutputPath(filePath, format);
    var encoder := EncoderFor(format);
    match input
    case None => Err(sharp.missingInput(filePath))
    case Some(bytes) =>
      match sharp.encode(encoder, bytes)
      case Err(f) => Err(f)
      case Ok(data) => Ok(ImageWrite(outputPath, encoder, data))
  }

  /** Called with the path alone, as the endpoint calls it, the converter always encodes PNG and
      names the output after the input's stem with ".png". */
  lemma DefaultCallWritesPng(filePath: Path, input: Option<Bytes>, sharp: Sharp)
    requires ConvertImage(filePath, None, input, sharp).Ok?
    ensures ConvertImage(filePath, None, input, sharp).value.encoder == Png
    ensures ConvertImage(filePath, None, input, sharp).value.outputPath == Path(filePath.dir, Stem(filePath.name) + ".png")
  {
    assert DefaultFormat in FormatNames(Png);
  }
}
