/**
 * The browser's file picker: the checks a file must pass before it is
 * attached to the next message, the one selected file, and the shortened
 * name shown in its preview card.
 */
module FileUpload {
  import opened Common
  import opened Strings

  /** A browser `File`: its name, its MIME type (`''` when unknown) and its size in bytes. */
  datatype BrowserFile = BrowserFile(name: string, mimeType: string, size: nat)

  datatype Validation = Valid | Invalid(error: string)

  const MaxFileSize: nat := 10 * 1024 * 1024
  const AllowedTypes := ["image/jpeg", "image/png", "image/gif", "image/webp"]

  /** `formatFileSize(10 * 1024 * 1024)`; the formatting of other sizes uses floating point and is not modelled. */
  const MaxFileSizeText := "10 MB"

  /**
   * `validateFile`: the type is checked first, then the size; a size of
   * exactly the limit passes. The size message always names
   * `MaxFileSizeText`, the formatted 10 MiB limit: it is right for the
   * limit `FileUploadManager` fixes, and other limits would be formatted
   * with floating point, which is not modelled.
   */
  function ValidateFile(allowedTypes: seq<string>, maxFileSize: nat, file: BrowserFile): (v: Validation)
    ensures v.Valid? <==> file.mimeType in allowedTypes && file.size <= maxFileSize
  {
    if file.mimeType !in allowedTypes then
      Invalid("File type not supported. Allowed types: " + JoinWith(allowedTypes, ", "))
    else if file.size > maxFileSize then
      Invalid("File size too large. Maximum size: " + MaxFileSizeText)
    else Valid
  }

  /** `array.join(sep)` with a separator of any length. */
  function JoinWith(parts: seq<string>, sep: string): string
    decreases |parts|
  {
    if parts == [] then ""
    else if |parts| == 1 then parts[0]
    else parts[0] + sep + JoinWith(parts[1..], sep)
  }

  /** The allowed types as the type error lists them. */
  lemma AllowedTypesListed()
    ensures JoinWith(AllowedTypes, ", ") == "image/jpeg, image/png, image/gif, image/webp"
  {
    var tail := "image/gif" + ", " + "image/webp";
    assert JoinWith(AllowedTypes[2..], ", ") == tail;
    assert JoinWith(AllowedTypes[1..], ", ") == "image/png" + ", " + tail;
  }

  /** A file of a type outside the list is refused for its type, whatever its size. */
  lemma TypeCheckedFirst(file: BrowserFile)
    requires file.mimeType !in AllowedTypes
    ensures ValidateFile(AllowedTypes, MaxFileSize, file)
      == Invalid("File type not supported. Allowed types: " + "image/jpeg, image/png, image/gif, image/webp")
  {
    AllowedTypesListed();
  }

  /** An image of exactly 10 MiB passes; one byte more is refused for its size. */
  lemma SizeLimitInclusive(name: string)
    ensures ValidateFile(AllowedTypes, MaxFileSize, BrowserFile(name, "image/png", 10485760)).Valid?
    ensures ValidateFile(AllowedTypes, MaxFileSize, BrowserFile(name, "image/png", 10485761))
      == Invalid("File size too large. Maximum size: 10 MB")
  {
  }

  const DefaultMaxLength := 30

  /** `filename.split('.').pop()`. */
  function Extension(filename: string): string {
    var pieces := Split(filename, '.');
    pieces[|pieces| - 1]
  }

  /** `filename.substring(0, filename.lastIndexOf('.'))`. */
  function NameWithoutExt(filename: string): string {
    JsSubstring(filename, 0, LastIndexOf(filename, '.'))
  }

  /**
   * `truncateFilename`, as written: a name longer than the limit keeps
   * what follows its last '.', and before it as much of the rest as fits
   * with "..." in between.
   */
  function TruncateFilename(filename: string, maxLength: int): (r: string)
    ensures |filename| <= maxLength ==> r == filename
  {
    if |filename| <= maxLength then filename
    else
      var extension := Extension(filename);
      var truncatedName := JsSubstring(NameWithoutExt(filename), 0, maxLength - |extension| - 3);
      truncatedName + "..." + extension
  }

  /** With a '.', the extension is what follows the last one and the name is what precedes it. */
  lemma DottedParts(filename: string)
    requires '.' in filename
    ensures var k := LastIndexOf(filename, '.');
      Extension(filename) == filename[k + 1..] && NameWithoutExt(filename) == filename[..k]
  {
    SplitLast(filename, '.');
    JsSubstringPrefix(filename, LastIndexOf(filename, '.'));
  }

  /**
   * A long name with a '.' keeps its extension whole after "...", preceded
   * by the start of the name; when the extension leaves room, the result
   * fits the limit.
   */
  lemma TruncateDotted(filename: string, maxLength: int)
    requires '.' in filename && |filename| > maxLength
    ensures var k := LastIndexOf(filename, '.');
      var extension := filename[k + 1..];
      var r := TruncateFilename(filename, maxLength);
      && r == filename[..Clamp(maxLength - |extension| - 3, k)] + "..." + extension
      && (|extension| + 3 <= maxLength ==> |r| <= maxLength)
  {
    var k := LastIndexOf(filename, '.');
    DottedParts(filename);
    var extension := Extension(filename);
    var name := NameWithoutExt(filename);
    var end := maxLength - |extension| - 3;
    JsSubstringPrefix(name, end);
    assert name[..Clamp(end, k)] == filename[..Clamp(end, k)];
  }

  /** A long name without a '.' comes out as "..." and the whole name, longer than it was. */
  lemma TruncateDotless(filename: string, maxLength: int)
    requires '.' !in filename && |filename| > maxLength
    ensures TruncateFilename(filename, maxLength) == "..." + filename
    ensures |TruncateFilename(filename, maxLength)| > |filename|
  {
    DotlessParts(filename);
    assert JsSubstring("", 0, maxLength - |filename| - 3) == "";
  }

  /** Without a '.', the extension is the whole name and the name before it is empty. */
  lemma DotlessParts(filename: string)
    requires '.' !in filename
    ensures Extension(filename) == filename && NameWithoutExt(filename) == ""
  {
    SplitNoSeparator(filename, '.');
  }

  /** A 31-character name without a '.' is lengthened to 34 characters under the default limit. */
  lemma TruncateLengthens()
    ensures var name := seq(31, i => 'a');
      |TruncateFilename(name, DefaultMaxLength)| == 34
  {
    var name := seq(31, i => 'a');
    assert '.' !in name by {
      forall i | 0 <= i < |name| ensures name[i] != '.' { }
    }
    TruncateDotless(name, DefaultMaxLength);
  }

  /**
   * The shortening evidently intended: a long name without a '.' is cut
   * to leave room for "...", like the part before an extension is.
   */
  function TruncateFilenameFixed(filename: string, maxLength: int): (r: string)
    ensures |filename| <= maxLength ==> r == filename
  {
    if |filename| <= maxLength then filename
    else if '.' !in filename then JsSubstring(filename, 0, maxLength - 3) + "..."
    else TruncateFilename(filename, maxLength)
  }

  /** The fixed shortening fits the limit whenever the extension leaves room for "...", and only differs for names without a '.'. */
  lemma TruncateFixedFits(filename: string, maxLength: int)
    requires maxLength >= 3
    requires '.' in filename ==> |filename[LastIndexOf(filename, '.') + 1..]| + 3 <= maxLength
    ensures |TruncateFilenameFixed(filename, maxLength)| <= maxLength
    ensures '.' in filename ==> TruncateFilenameFixed(filename, maxLength) == TruncateFilename(filename, maxLength)
  {
    if |filename| > maxLength {
      if '.' in filename {
        TruncateDotted(filename, maxLength);
      } else {
        JsSubstringPrefix(filename, maxLength - 3);
      }
    }
  }

  class FileUploadManager {
    var selectedFile: Option<BrowserFile>
    var maxFileSize: nat
    var allowedTypes: seq<string>

    constructor ()
      ensures selectedFile.None? && maxFileSize == MaxFileSize && allowedTypes == AllowedTypes
    {
      selectedFile := None;
      maxFileSize := MaxFileSize;
      allowedTypes := AllowedTypes;
    }

    /** `hasSelectedFile`. */
    predicate HasSelectedFile()
      reads this
    {
      selectedFile.Some?
    }

    /**
     * `selectFile`: a valid file replaces the selection; an invalid one
     * leaves the previous selection and yields the error for the toast.
     */
    method SelectFile(file: BrowserFile) returns (rejected: Option<string>)
      modifies this
      ensures rejected.None? <==> ValidateFile(allowedTypes, maxFileSize, file).Valid?
      ensures rejected.Some? ==> rejected.value == ValidateFile(allowedTypes, maxFileSize, file).error
      ensures selectedFile == (if rejected.None? then Some(file) else old(selectedFile))
      ensures maxFileSize == old(maxFileSize) && allowedTypes == old(allowedTypes)
    {
      var validation := ValidateFile(allowedTypes, maxFileSize, file);
      if validation.Invalid? {
        return Some(validation.error);
      }
      selectedFile := Some(file);
      rejected := None;
    }

    /** `clearSelection`: afterwards no file is selected. */
    method ClearSelection()
      modifies this
      ensures selectedFile.None? && !HasSelectedFile()
      ensures maxFileSize == old(maxFileSize) && allowedTypes == old(allowedTypes)
    {
      selectedFile := None;
    }
  }
}
