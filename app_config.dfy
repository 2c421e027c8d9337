/** The file tables of src/config/app.config.ts:37-53 and the type SupportedFileType. */
module AppConfig {
  /** SupportedFileType. */
  datatype FileType = Pptx | Docx | Pdf | Mp4 | Txt | Md

  /** The keys of SUPPORTED_FILE_EXTENSIONS in the order `Object.entries` yields them. */
  const FileTypeOrder: seq<FileType> := [Pptx, Docx, Pdf, Mp4, Txt, Md]

  const MiB: nat := 1024 * 1024

  /** MAX_FILE_SIZES, in bytes. */
  function MaxFileSize(t: FileType): nat
  {
    match t
    case Pptx => 100 * MiB
    case Mp4 => 500 * MiB
    case Docx => 50 * MiB
    case Pdf => 50 * MiB
    case Txt => 10 * MiB
    case Md => 10 * MiB
  }

  /** SUPPORTED_FILE_EXTENSIONS: the extensions of each type, aliases after the main one. */
  function Extensions(t: FileType): seq<string>
  {
    match t
    case Pptx => [".pptx", ".ppt"]
    case Docx => [".docx", ".doc"]
    case Pdf => [".pdf"]
    case Mp4 => [".mp4", ".mov", ".avi"]
    case Txt => [".txt"]
    case Md => [".md"]
  }

  /** Every type appears exactly once in the search order. */
  lemma FileTypeOrderComplete(t: FileType)
    ensures t in FileTypeOrder
    ensures forall i, j :: 0 <= i < j < |FileTypeOrder| ==> FileTypeOrder[i] != FileTypeOrder[j]
  {
  }
}
