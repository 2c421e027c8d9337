/**
 * The PowerPoint parser of src/services/parsers/pptx.parser.ts. The parser is a placeholder: it
 * reads nothing from the file but its name, size and modification time, and always yields one
 * fixed slide.
 */
module PptxParser {
  import opened Wrappers
  import opened JsString
  import opened AppConfig
  import opened Validators

  /** SlideContent; `title` and `notes` are optional. */
  datatype Slide = Slide(slideNumber: nat, title: Option<string>, content: string, notes: Option<string>)

  /** FileMetadata; `createdAt` is the Date built from `lastModified`, in milliseconds. */
  datatype Metadata = Metadata(fileName: string, fileSize: nat, createdAt: int)

  /** ParsedContent; `text`, `slides` and `metadata` are optional. */
  datatype ParsedContent = ParsedContent(
    fileType: FileType, text: Option<string>, slides: Option<seq<Slide>>, metadata: Option<Metadata>)

  const PlaceholderTitle := "Placeholder Slide"
  const PlaceholderContent := "This is a placeholder. PPTX parsing will be implemented with proper library."

  /** `${s.title}\\n${s.content}`: a missing title prints as `undefined`. */
  function SlideText(s: Slide): string
  {
    s.title.GetOr("undefined") + "\n" + s.content
  }

  /** `slides.map(...).join('\\n\\n')`. */
  function SlidesText(slides: seq<Slide>): (r: string)
    ensures slides == [] ==> r == ""
    ensures |slides| >= 1 ==> SlideText(slides[0]) <= r
    ensures |slides| == 1 ==> r == SlideText(slides[0])
  {
    Join(seq(|slides|, i requires 0 <= i < |slides| => SlideText(slides[i])), "\n\n")
  }

  /** parsePPTX: metadata copied from the file, then the one placeholder slide. */
  function ParsePPTX(file: File): (r: ParsedContent)
    ensures r.fileType == Pptx
    ensures r.metadata == Some(Metadata(file.name, file.size, file.lastModified))
    ensures r.slides.Some? && |r.slides.value| == 1 && r.slides.value[0].slideNumber == 1
    ensures r.text == Some(SlidesText(r.slides.value))
  {
    var slides := [Slide(1, Some(PlaceholderTitle), PlaceholderContent, Some(""))];
    ParsedContent(Pptx, Some(SlidesText(slides)), Some(slides), Some(Metadata(file.name, file.size, file.lastModified)))
  }

  /** extractPPTXText: `parsed.text || ''`. */
  function ExtractPPTXText(file: File): (text: string)
    ensures text == ParsePPTX(file).text.GetOr("")
  {
    var parsed := ParsePPTX(file);
    if parsed.text.Some? && parsed.text.value != "" then parsed.text.value else ""
  }

  /** getPPTXSlideCount: `parsed.slides?.length || 0`. */
  function GetPPTXSlideCount(file: File): (n: int)
    ensures n == 1
  {
    var parsed := ParsePPTX(file);
    if parsed.slides.Some? then |parsed.slides.value| else 0
  }

  /** validatePPTX: the lower-cased name ends with `.pptx` or `.ppt`. */
  function ValidatePPTX(file: File): (ok: bool)
    ensures ok <==> EndsWith(ToLower(file.name), ".pptx") || EndsWith(ToLower(file.name), ".ppt")
  {
    var extensions := [".pptx", ".ppt"];
    assert forall j :: 0 <= j < |extensions| ==> extensions[j] == ".pptx" || extensions[j] == ".ppt";
    assert extensions[0] == ".pptx" && extensions[1] == ".ppt";
    AnyEndsWith(ToLower(file.name), extensions)
  }

  /** The extracted text is the one slide's title, a line break, and its content. */
  lemma ExtractedTextIsPlaceholder(file: File)
    ensures ExtractPPTXText(file) == PlaceholderTitle + "\n" + PlaceholderContent
  {
    var slides := ParsePPTX(file).slides.value;
    assert SlidesText(slides) == SlideText(slides[0]);
  }

  /** The contents of the file play no part: files alike in name, size and time parse alike. */
  lemma ParseIgnoresContents(f: File, g: File)
    requires f.name == g.name && f.size == g.size && f.lastModified == g.lastModified
    ensures ParsePPTX(f) == ParsePPTX(g)
  {
  }

  /** validatePPTX agrees with validateFileType: a file passes exactly when its type is pptx. */
  lemma ValidatePPTXIsPptxType(file: File)
    ensures ValidatePPTX(file) <==> FileTypeOf(file.name) == Some(Pptx)
  {
    var s := ToLower(file.name);
    if ValidatePPTX(file) {
      assert HasExtensionOf(s, Pptx);
      UniqueMatch(file.name, Pptx);
    }
    if FileTypeOf(file.name) == Some(Pptx) {
      var k: nat :| FirstMatchAt(s, FileTypeOrder, k) && FileTypeOrder[k] == Pptx;
      assert HasExtensionOf(s, Pptx);
    }
  }
}
