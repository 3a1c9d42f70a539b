/**
 * The file service: it checks an uploaded file against the configured
 * size limit, content types and file-name rule, stores it under a fresh
 * name that keeps the original extension, and reads, describes and
 * deletes stored files by attachment id.
 *
 * The random part of the stored name (`UUID.randomUUID()`) and the upload
 * time are parameters. Disk reads and writes do not fail here; the stored
 * bytes live in the attachment row (see `Store`).
 */
module FileService {
  import opened Common
  import opened Strings
  import opened Exceptions
  import opened Store

  /** `file.upload-dir`, `file.max-size` and `file.allowed-types` (a comma-separated list). */
  datatype FileConfig = FileConfig(uploadDir: string, maxFileSize: int, allowedTypes: string)

  /** A multipart upload: its declared content type and file name (either may be null) and its bytes. */
  datatype Upload = Upload(contentType: Option<string>, originalFilename: Option<string>, bytes: seq<byte>)

  /** `FileAttachmentDto`. */
  datatype FileAttachmentDto = FileAttachmentDto(
    id: Uuid, messageId: Uuid, fileName: string, fileType: string, filePath: string, fileSize: nat, uploadedAt: Timestamp)

  function StorageError(message: string): Thrown {
    Project(FileStorageException, message, None)
  }

  /**
   * `isAllowedContentType`: the trimmed content type is one of the
   * pieces of the configured list. The pieces themselves are not trimmed.
   */
  predicate IsAllowedContentType(config: FileConfig, contentType: string) {
    JavaTrim(contentType) in JavaSplit(config.allowedTypes, ',')
  }

  /** With a list of types joined by commas, a content type is allowed exactly when its trimmed form is one of them. */
  lemma AllowedTypesAsList(types: seq<string>, uploadDir: string, maxFileSize: int, contentType: string)
    requires |types| >= 1 && types[|types| - 1] != ""
    requires forall k :: 0 <= k < |types| ==> ',' !in types[k]
    ensures IsAllowedContentType(FileConfig(uploadDir, maxFileSize, Join(types, ',')), contentType)
            <==> JavaTrim(contentType) in types
  {
    JavaSplitJoin(types, ',');
  }

  /**
   * `validateFile`: the first failing check decides the error, in the
   * order empty file, size over the limit, missing or unlisted content
   * type, missing file name or one containing `..`. `None` when the file
   * passes.
   */
  function ValidateFile(config: FileConfig, file: Upload): Option<Thrown> {
    if |file.bytes| == 0 then
      Some(StorageError("Cannot upload empty file"))
    else if |file.bytes| > config.maxFileSize then
      Some(StorageError("File size exceeds maximum limit of " + IntToString(config.maxFileSize) + " bytes"))
    else if file.contentType.None? || !IsAllowedContentType(config, file.contentType.value) then
      Some(StorageError("File type not allowed. Allowed types: " + config.allowedTypes))
    else if file.originalFilename.None? || Contains(file.originalFilename.value, "..") then
      Some(StorageError("Invalid filename: " + JavaText(file.originalFilename)))
    else
      None
  }

  /**
   * A file passes exactly when it is non-empty, within the limit (a file
   * of exactly the limit passes), of an allowed type and named without
   * `..`; every rejection is a file-storage error.
   */
  lemma ValidateFileAccepts(config: FileConfig, file: Upload)
    ensures ValidateFile(config, file).None? <==>
      && 0 < |file.bytes| <= config.maxFileSize
      && file.contentType.Some? && JavaTrim(file.contentType.value) in JavaSplit(config.allowedTypes, ',')
      && file.originalFilename.Some? && !Contains(file.originalFilename.value, "..")
    ensures ValidateFile(config, file).Some? ==> ValidateFile(config, file).value.IsA(FileStorageException)
  {
  }

  /** An empty file is refused as empty, whatever its type and name. */
  lemma EmptyFileFirst(config: FileConfig, contentType: Option<string>, originalFilename: Option<string>)
    ensures ValidateFile(config, Upload(contentType, originalFilename, [])) == Some(StorageError("Cannot upload empty file"))
  {
  }

  /** The configuration the service's tests use, and its type list as pieces. */
  const TestConfig := FileConfig("uploads", 10485760, "image/jpeg,image/png,image/gif,image/webp")
  const TestTypes := ["image/jpeg", "image/png", "image/gif", "image/webp"]

  lemma TestTypesJoined()
    ensures Join(TestTypes, ',') == TestConfig.allowedTypes
  {
    assert Join(TestTypes[3..], ',') == "image/webp";
    assert Join(TestTypes[2..], ',') == "image/gif" + "," + "image/webp";
    assert Join(TestTypes[1..], ',') == "image/png" + "," + "image/gif,image/webp";
  }

  /** Under the tests' configuration a JPEG passes even with blanks around its content type. */
  lemma JpegAllowed()
    ensures IsAllowedContentType(TestConfig, "image/jpeg")
    ensures IsAllowedContentType(TestConfig, [' '] + "image/jpeg" + [' '])
  {
    TestTypesJoined();
    AllowedTypesAsList(TestTypes, "uploads", 10485760, "image/jpeg");
    AllowedTypesAsList(TestTypes, "uploads", 10485760, [' '] + "image/jpeg" + [' ']);
    TrimKeeps("image/jpeg", IsJavaSpace);
    TrimPadded("image/jpeg", IsJavaSpace, ' ', ' ');
  }

  /** Under the tests' configuration a text file is refused. */
  lemma TextRefused()
    ensures !IsAllowedContentType(TestConfig, "text/plain")
  {
    TestTypesJoined();
    AllowedTypesAsList(TestTypes, "uploads", 10485760, "text/plain");
    TrimKeeps("text/plain", IsJavaSpace);
  }

  lemma SpacedListJoined()
    ensures Join(["image/jpeg", " image/png"], ',') == "image/jpeg, image/png"
  {
    assert Join(["image/jpeg", " image/png"][1..], ',') == " image/png";
  }

  /** With a blank after the comma of the list, a PNG is refused: the list's pieces are not trimmed. */
  lemma UntrimmedListPiece()
    ensures !IsAllowedContentType(FileConfig("uploads", 10485760, "image/jpeg, image/png"), "image/png")
  {
    SpacedListJoined();
    AllowedTypesAsList(["image/jpeg", " image/png"], "uploads", 10485760, "image/png");
    TrimKeeps("image/png", IsJavaSpace);
  }

  /**
   * `getFileExtension`: from the last `.` to the end, or empty when the
   * name is null or has no `.`.
   */
  function GetFileExtension(filename: Option<string>): (r: string)
    ensures filename.None? ==> r == ""
    ensures filename.Some? ==>
      var f := filename.value;
      && |r| <= |f| && r == f[|f| - |r|..]
      && (r == "" <==> '.' !in f)
      && (r != "" ==> r[0] == '.' && '.' !in r[1..])
  {
    if filename.None? then ""
    else
      var i := LastIndexOf(filename.value, '.');
      if i == -1 then "" else filename.value[i..]
  }

  /** `uploadPath.resolve(name).toString()`: the directory and the name with one separator between. */
  function ResolvePath(dir: string, name: string): (r: string)
    ensures |r| >= |name| && r[|r| - |name|..] == name
  {
    if dir == "" then name
    else if dir[|dir| - 1] == '/' then dir + name
    else dir + "/" + name
  }

  /** The stored name: the random token and the original extension. */
  function StoredName(token: string, file: Upload): string {
    token + GetFileExtension(file.originalFilename)
  }

  /** The row `uploadFile` saves for a validated file. */
  function AttachmentRowOf(config: FileConfig, file: Upload, messageId: Uuid, token: string, now: Timestamp): AttachmentRow
    requires file.originalFilename.Some? && file.contentType.Some?
  {
    AttachmentRow(messageId, file.originalFilename.value, file.contentType.value,
      ResolvePath(config.uploadDir, StoredName(token, file)), |file.bytes|, now, file.bytes)
  }

  /** The stored file keeps the upload's name, type, size and bytes, and its path ends with the token and the extension. */
  lemma AttachmentRowKeepsUpload(config: FileConfig, file: Upload, messageId: Uuid, token: string, now: Timestamp)
    requires file.originalFilename.Some? && file.contentType.Some?
    ensures var row := AttachmentRowOf(config, file, messageId, token, now);
      && Some(row.fileName) == file.originalFilename && Some(row.fileType) == file.contentType
      && row.fileSize == |file.bytes| && row.stored == file.bytes && row.messageId == messageId
      && var name := token + GetFileExtension(file.originalFilename);
         |row.filePath| >= |name| && row.filePath[|row.filePath| - |name|..] == name
  {
  }

  /** `convertToDto`. */
  function ToDto(id: Uuid, row: AttachmentRow): FileAttachmentDto {
    FileAttachmentDto(id, row.messageId, row.fileName, row.fileType, row.filePath, row.fileSize, row.uploadedAt)
  }

  function NotFound(fileId: Uuid): Thrown {
    StorageError("File not found with id: " + UuidText(fileId))
  }

  /**
   * `uploadFile`: a rejected file throws the validation error and stores
   * nothing; an accepted one is stored under a fresh id, and its content
   * reads back as uploaded.
   */
  method UploadFile(config: FileConfig, db: Database, file: Upload, messageId: Uuid, token: string, now: Timestamp)
    returns (r: Outcome<FileAttachmentDto>)
    requires db.Valid() && messageId in db.messages
    modifies db
    ensures db.Valid()
    ensures db.sessions == old(db.sessions) && db.messages == old(db.messages) && db.histories == old(db.histories)
    ensures ValidateFile(config, file).Some? ==>
      r == Err(ValidateFile(config, file).value) && db.attachments == old(db.attachments) && db.nextId == old(db.nextId)
    ensures ValidateFile(config, file).None? ==>
      var row := AttachmentRowOf(config, file, messageId, token, now);
      && r.Ok? && r.value.id == old(db.nextId) && r == Ok(ToDto(r.value.id, row))
      && db.attachments == old(db.attachments)[r.value.id := row] && db.nextId == old(db.nextId) + 1
      && GetFileContent(db, r.value.id) == Ok(file.bytes) && GetFileInfo(db, r.value.id) == r
  {
    var rejection := ValidateFile(config, file);
    if rejection.Some? {
      return Err(rejection.value);
    }
    var row := AttachmentRowOf(config, file, messageId, token, now);
    var id := db.SaveAttachment(row);
    r := Ok(ToDto(id, row));
  }

  /** `getFileContent`: the stored bytes, or a not-found error. */
  function GetFileContent(db: Database, fileId: Uuid): (r: Outcome<seq<byte>>)
    reads db
    ensures r.Ok? <==> fileId in db.attachments
    ensures r.Ok? ==> r.value == db.attachments[fileId].stored
    ensures r.Err? ==> r.error == NotFound(fileId)
  {
    if fileId in db.attachments then Ok(db.attachments[fileId].stored) else Err(NotFound(fileId))
  }

  /** `fileExists`. */
  predicate FileExists(db: Database, fileId: Uuid)
    reads db
  {
    fileId in db.attachments
  }

  /** `getFileInfo`: the description of a stored file, or the same not-found error as `getFileContent`. */
  function GetFileInfo(db: Database, fileId: Uuid): (r: Outcome<FileAttachmentDto>)
    reads db
    ensures r.Ok? <==> FileExists(db, fileId)
    ensures r.Ok? ==> var row := db.attachments[fileId];
      && r.value.id == fileId && r.value.messageId == row.messageId && r.value.fileName == row.fileName
      && r.value.fileType == row.fileType && r.value.filePath == row.filePath
      && r.value.fileSize == row.fileSize && r.value.uploadedAt == row.uploadedAt
    ensures r.Err? ==> GetFileContent(db, fileId) == Err(r.error)
  {
    if fileId in db.attachments then Ok(ToDto(fileId, db.attachments[fileId])) else Err(NotFound(fileId))
  }

  /** `deleteFile`: an unknown id throws and changes nothing; a known one is gone afterwards. */
  method DeleteFile(db: Database, fileId: Uuid) returns (r: Option<Thrown>)
    requires db.Valid()
    modifies db
    ensures db.Valid()
    ensures db.sessions == old(db.sessions) && db.messages == old(db.messages) && db.histories == old(db.histories)
    ensures !old(FileExists(db, fileId)) ==> r == Some(NotFound(fileId)) && db.attachments == old(db.attachments)
    ensures old(FileExists(db, fileId)) ==> r.None? && db.attachments == old(db.attachments) - {fileId}
    ensures !FileExists(db, fileId) && GetFileContent(db, fileId).Err?
  {
    if fileId !in db.attachments {
      return Some(NotFound(fileId));
    }
    db.DeleteAttachment(fileId);
    r := None;
  }
}
