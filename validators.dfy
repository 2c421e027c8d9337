/**
 * File validation (src/utils/validators.ts:7-25): the type of a file from its name's extension,
 * compared without regard to ASCII case, and the size limit of each type.
 */
module Validators {
  import opened Wrappers
  import opened JsString
  import opened AppConfig

  /** A browser File: its name, size in bytes, modification time in milliseconds and bytes. */
  datatype File = File(name: string, size: nat, lastModified: int, contents: seq<bv8>)

  /** `extensions.some(ext => fileName.endsWith(ext))`. */
  function AnyEndsWith(fileName: string, extensions: seq<string>): (b: bool)
    ensures b <==> exists j :: 0 <= j < |extensions| && EndsWith(fileName, extensions[j])
  {
    if extensions == [] then false
    else if EndsWith(fileName, extensions[0]) then true
    else
      assert forall j :: 0 < j < |extensions| ==> extensions[1..][j - 1] == extensions[j];
      AnyEndsWith(fileName, extensions[1..])
  }

  /** The (lower-cased) name carries one of the extensions of `t`. */
  predicate HasExtensionOf(fileName: string, t: FileType) {
    AnyEndsWith(fileName, Extensions(t))
  }

  /** `types[k]` is the first of `types` whose extensions `fileName` ends with. */
  predicate FirstMatchAt(fileName: string, types: seq<FileType>, k: nat) {
    && k < |types|
    && HasExtensionOf(fileName, types[k])
    && forall i :: 0 <= i < k ==> !HasExtensionOf(fileName, types[i])
  }

  /** The first type in `types` whose extensions `fileName` ends with. */
  function FirstTypeMatching(fileName: string, types: seq<FileType>): (r: Option<FileType>)
    ensures r.Some? ==> exists k: nat :: FirstMatchAt(fileName, types, k) && types[k] == r.value
    ensures r.None? ==> forall t :: t in types ==> !HasExtensionOf(fileName, t)
  {
    if types == [] then None
    else if HasExtensionOf(fileName, types[0]) then
      assert FirstMatchAt(fileName, types, 0);
      Some(types[0])
    else
      var r := FirstTypeMatching(fileName, types[1..]);
      assert r.Some? ==> exists k: nat :: FirstMatchAt(fileName, types, k) && types[k] == r.value by {
        if r.Some? {
          var k: nat :| FirstMatchAt(fileName, types[1..], k) && types[1..][k] == r.value;
          assert forall i :: 0 < i <= k + 1 ==> types[i] == types[1..][i - 1];
          assert FirstMatchAt(fileName, types, k + 1);
        }
      }
      r
  }

  /** The result of validateFileType for a file named `name`. */
  function FileTypeOf(name: string): (r: Option<FileType>)
    ensures r.Some? ==> HasExtensionOf(ToLower(name), r.value)
    ensures r.None? ==> forall t :: t in FileTypeOrder ==> !HasExtensionOf(ToLower(name), t)
  {
    FirstTypeMatching(ToLower(name), FileTypeOrder)
  }

  /**
   * validateFileType: lower-case the name, then return the first type, in table order, one of
   * whose extensions ends the name; null when there is none.
   */
  method ValidateFileType(file: File) returns (r: Option<FileType>)
    ensures r == FileTypeOf(file.name)
    ensures r.Some? ==> HasExtensionOf(ToLower(file.name), r.value)
    ensures r.None? ==> forall t :: !HasExtensionOf(ToLower(file.name), t)
  {
    var fileName := ToLower(file.name);
    for n := 0 to |FileTypeOrder|
      invariant FileTypeOf(file.name) == FirstTypeMatching(fileName, FileTypeOrder[n..])
    {
      var t := FileTypeOrder[n];
      FirstTypeStep(fileName, n);
      if AnyEndsWith(fileName, Extensions(t)) {
        return Some(t);
      }
    }
    r := None;
    assert FileTypeOrder[|FileTypeOrder|..] == [];
    NoTypeMatching(fileName);
  }

  /** One step of the search in table order. */
  lemma FirstTypeStep(fileName: string, n: nat)
    requires n < |FileTypeOrder|
    ensures FirstTypeMatching(fileName, FileTypeOrder[n..]) ==
      if HasExtensionOf(fileName, FileTypeOrder[n]) then Some(FileTypeOrder[n])
      else FirstTypeMatching(fileName, FileTypeOrder[n + 1..])
  {
    assert FileTypeOrder[n..][1..] == FileTypeOrder[n + 1..];
  }

  /** No type in table order matching means no type at all matching. */
  lemma NoTypeMatching(fileName: string)
    requires FirstTypeMatching(fileName, FileTypeOrder).None?
    ensures forall t :: !HasExtensionOf(fileName, t)
  {
    forall t | true ensures !HasExtensionOf(fileName, t) {
      FileTypeOrderComplete(t);
    }
  }

  /** validateFileSize: the limit of the type is inclusive. */
  function ValidateFileSize(file: File, t: FileType): (ok: bool)
    ensures ok <==> file.size <= MaxFileSize(t)
  {
    file.size <= MaxFileSize(t)
  }

  /** There is a type exactly when the lower-cased name ends with some listed extension. */
  lemma FileTypeOfIff(name: string)
    ensures FileTypeOf(name).Some? <==> exists t :: HasExtensionOf(ToLower(name), t)
  {
    if t :| HasExtensionOf(ToLower(name), t) {
      FileTypeOrderComplete(t);
    }
  }

  /** Lower-casing twice is lower-casing once. */
  lemma ToLowerIdempotent(s: string)
    ensures ToLower(ToLower(s)) == ToLower(s)
  {
  }

  /** Upper and lower case are not told apart: a name and its lower-cased form get one type. */
  lemma FileTypeCaseInsensitive(name: string)
    ensures FileTypeOf(ToLower(name)) == FileTypeOf(name)
  {
    ToLowerIdempotent(name);
  }

  /** No listed extension ends with an extension of another type. */
  lemma ExtensionsSuffixFree(t1: FileType, t2: FileType, e1: string, e2: string)
    requires t1 != t2 && e1 in Extensions(t1) && e2 in Extensions(t2)
    ensures !EndsWith(e1, e2)
  {
    EndingDeterminesType(t1, e1);
    EndingDeterminesType(t2, e2);
  }

  /** The type whose extensions end in the two characters `c1`, `c2`. */
  function TypeOfEnding(c1: char, c2: char): Option<FileType>
  {
    match (c1, c2)
    case ('t', 'x') => Some(Pptx)
    case ('p', 't') => Some(Pptx)
    case ('c', 'x') => Some(Docx)
    case ('o', 'c') => Some(Docx)
    case ('d', 'f') => Some(Pdf)
    case ('p', '4') => Some(Mp4)
    case ('o', 'v') => Some(Mp4)
    case ('v', 'i') => Some(Mp4)
    case ('x', 't') => Some(Txt)
    case ('m', 'd') => Some(Md)
    case _ => None
  }

  /** Each extension's last two characters name its type. */
  lemma EndingDeterminesType(t: FileType, e: string)
    requires e in Extensions(t)
    ensures |e| >= 3 && TypeOfEnding(e[|e| - 2], e[|e| - 1]) == Some(t)
  {
  }

  /**
   * Because of that, a name carrying an extension of `t` is of type `t`: the first match in
   * table order is the only match.
   */
  lemma UniqueMatch(name: string, t: FileType)
    requires HasExtensionOf(ToLower(name), t)
    ensures FileTypeOf(name) == Some(t)
  {
    var s := ToLower(name);
    FileTypeOfIff(name);
    var u := FileTypeOf(name).value;
    if u != t {
      var i :| 0 <= i < |Extensions(t)| && EndsWith(s, Extensions(t)[i]);
      var j :| 0 <= j < |Extensions(u)| && EndsWith(s, Extensions(u)[j]);
      var e1, e2 := Extensions(t)[i], Extensions(u)[j];
      if |e1| <= |e2| {
        EndsWithBoth(s, e1, e2);
        ExtensionsSuffixFree(u, t, e2, e1);
      } else {
        EndsWithBoth(s, e2, e1);
        ExtensionsSuffixFree(t, u, e1, e2);
      }
    }
  }

  /** The aliases `.ppt`, `.doc`, `.mov` and `.avi` map to their family. */
  lemma AliasesMapToFamily(name: string)
    ensures EndsWith(ToLower(name), ".ppt") ==> FileTypeOf(name) == Some(Pptx)
    ensures EndsWith(ToLower(name), ".doc") ==> FileTypeOf(name) == Some(Docx)
    ensures EndsWith(ToLower(name), ".mov") ==> FileTypeOf(name) == Some(Mp4)
    ensures EndsWith(ToLower(name), ".avi") ==> FileTypeOf(name) == Some(Mp4)
  {
    var s := ToLower(name);
    if EndsWith(s, ".ppt") {
      assert Extensions(Pptx)[1] == ".ppt";
      UniqueMatch(name, Pptx);
    }
    if EndsWith(s, ".doc") {
      assert Extensions(Docx)[1] == ".doc";
      UniqueMatch(name, Docx);
    }
    if EndsWith(s, ".mov") {
      assert Extensions(Mp4)[1] == ".mov";
      UniqueMatch(name, Mp4);
    }
    if EndsWith(s, ".avi") {
      assert Extensions(Mp4)[2] == ".avi";
      UniqueMatch(name, Mp4);
    }
  }

  /** Matching ignores case: an upper-case name is recognised. */
  lemma UpperCaseNameRecognised()
    ensures FileTypeOf("DECK.PPTX") == Some(Pptx)
  {
    assert ToLower("DECK.PPTX") == "deck.pptx";
    assert EndsWith("deck.pptx", Extensions(Pptx)[0]);
    UniqueMatch("DECK.PPTX", Pptx);
  }

  /** The extension must end the name: one in the middle is not enough. */
  lemma ExtensionMustBeSuffix()
    ensures FileTypeOf("report.pdf.zip") == None
  {
    var s := "report.pdf.zip";
    assert ToLower(s) == s;
    forall t ensures !HasExtensionOf(s, t) {
      forall j | 0 <= j < |Extensions(t)| ensures !EndsWith(s, Extensions(t)[j]) {
        var e := Extensions(t)[j];
        assert e[|e| - 1] != 'p' by {
          assert e in Extensions(t);
        }
      }
    }
    FileTypeOfIff(s);
  }

  /** The size limit is inclusive: a PowerPoint file of exactly 100 MiB passes, one byte more does not. */
  lemma PptxLimitInclusive(f: File)
    ensures f.size == 104857600 ==> ValidateFileSize(f, Pptx)
    ensures f.size == 104857601 ==> !ValidateFileSize(f, Pptx)
  {
  }

  /** A size that passes keeps passing when it shrinks. */
  lemma FileSizeDownwardClosed(f: File, g: File, t: FileType)
    requires ValidateFileSize(f, t) && g.size <= f.size
    ensures ValidateFileSize(g, t)
  {
  }
}
