/**
 * The local image store that room photos are written to. An upload is
 * accepted when it is present, not empty, has a file name and carries one of
 * the allowed image extensions; it is then stored under a generated name and
 * addressed by a URL below `/upload/`. The random name and the outcome of
 * the file-system calls are parameters.
 */
module ImageStorage {
  import opened Common
  import opened Text

  /** A multipart upload: the client's file name, which may be missing, and the size in bytes. */
  datatype Upload = Upload(originalFilename: Option<string>, size: nat)

  /** Outcome of creating the upload directory and copying the bytes. */
  datatype IoOutcome = IoOk | IoFailed(message: string)

  /**
   * Why an upload was not stored: `Rejected` is the service's own exception
   * with its message; `NullFileName` is the null-pointer failure raised for
   * an upload without a file name, whose message is "File name is invalid.".
   */
  datatype StorageError = Rejected(message: string) | NullFileName

  /** The message of the exception behind a storage error. */
  function ErrorMessage(e: StorageError): string {
    match e
    case Rejected(message) => message
    case NullFileName => NullFileNameMessage
  }

  const AllowedExtensions: seq<string> := ["jpg", "jpeg", "png", "gif", "webp"]

  const EmptyUpload := "Uploaded file is empty."
  const NotAnImage := "Only image files (jpg, jpeg, png, gif, webp) are allowed."
  const NullFileNameMessage := "File name is invalid."

  lemma LowerKeepsDots(s: string)
    ensures '.' in Lower(s) <==> '.' in s
  {
    if '.' in s {
      var i :| 0 <= i < |s| && s[i] == '.';
      assert Lower(s)[i] == '.';
    }
  }

  /**
   * The lower-cased text after the last dot of `filename`, or "" when there
   * is no dot: the longest dot-free suffix that follows a dot.
   */
  function GetFileExtension(filename: string): (ext: string)
    ensures '.' !in filename ==> ext == ""
    ensures '.' in filename ==>
      var n := |filename| - |ext|;
      1 <= n && filename[n - 1] == '.' && '.' !in filename[n..] && ext == Lower(filename[n..])
  {
    var dot := LastIndexOf(filename, '.');
    if dot != -1 then Lower(filename[dot + 1..]) else ""
  }

  /** The extension is accepted when its lower-case form is one of the allowed ones. */
  function IsAllowedImageExt(ext: string): (ok: bool)
    ensures ok <==> Lower(ext) in AllowedExtensions
  {
    Lower(ext) in AllowedExtensions
  }

  /** `saveImage`: the URL of the stored file, or why nothing was stored. */
  function SaveImage(photo: Option<Upload>, generatedName: string, io: IoOutcome): (r: Result<string, StorageError>)
    ensures photo.None? || photo.value.size == 0 ==> r == Err(Rejected(EmptyUpload))
    ensures photo.Some? && photo.value.size > 0 && photo.value.originalFilename.None? ==> r == Err(NullFileName)
    ensures r.Ok? ==>
      photo.Some? && photo.value.size > 0 && photo.value.originalFilename.Some? && io == IoOk
      && var ext := GetFileExtension(photo.value.originalFilename.value);
         ext in AllowedExtensions && r.value == "/upload/" + generatedName + "." + ext
    ensures (photo.Some? && photo.value.size > 0 && photo.value.originalFilename.Some?
             && !IsAllowedImageExt(GetFileExtension(photo.value.originalFilename.value)))
      ==> r == Err(Rejected(NotAnImage))
    ensures (photo.Some? && photo.value.size > 0 && photo.value.originalFilename.Some?
             && IsAllowedImageExt(GetFileExtension(photo.value.originalFilename.value)) && io.IoFailed?)
      ==> r == Err(Rejected("Fail to save image: " + io.message))
  {
    if photo.None? || photo.value.size == 0 then
      Err(Rejected(EmptyUpload))
    else if photo.value.originalFilename.None? then
      Err(NullFileName)
    else
      var extension := GetFileExtension(photo.value.originalFilename.value);
      if !IsAllowedImageExt(extension) then
        Err(Rejected(NotAnImage))
      else if io.IoFailed? then
        Err(Rejected("Fail to save image: " + io.message))
      else
        LowerIdempotent(photo.value.originalFilename.value[|photo.value.originalFilename.value| - |extension|..]);
        Ok("/upload/" + generatedName + "." + extension)
  }

  /** The extension of `base.e` is `e` in lower case, whatever `base` holds, when `e` has no dot. */
  lemma ExtensionOfNamedFile(base: string, e: string)
    requires '.' !in e
    ensures GetFileExtension(base + "." + e) == Lower(e)
  {
    var f := base + "." + e;
    assert f[|base|] == '.';
    assert f[|base| + 1..] == e;
    LowerKeepsDots(e);
  }

  /**
   * A non-empty upload named `base.e` is stored, whatever the case of `e`,
   * exactly when `e` is an allowed image extension in some case and the file
   * system does not fail; the URL ends with the extension in lower case.
   */
  lemma AcceptsImagesInAnyCase(base: string, e: string, size: nat, generatedName: string)
    requires '.' !in e && size > 0
    ensures SaveImage(Some(Upload(Some(base + "." + e), size)), generatedName, IoOk).Ok? <==> Lower(e) in AllowedExtensions
    ensures Lower(e) in AllowedExtensions ==>
      SaveImage(Some(Upload(Some(base + "." + e), size)), generatedName, IoOk) == Ok("/upload/" + generatedName + "." + Lower(e))
  {
    ExtensionOfNamedFile(base, e);
    LowerIdempotent(e);
  }

  /** A name without a dot has no extension and is never stored. */
  lemma RejectsNamesWithoutExtension(name: string, size: nat, generatedName: string, io: IoOutcome)
    requires '.' !in name && size > 0
    ensures SaveImage(Some(Upload(Some(name), size)), generatedName, io) == Err(Rejected(NotAnImage))
  {
  }

  /** Validation comes before any file-system call: a rejected file is rejected whatever the disk would do. */
  lemma ValidationIgnoresIo(photo: Option<Upload>, generatedName: string, io1: IoOutcome, io2: IoOutcome)
    ensures SaveImage(photo, generatedName, io1) != SaveImage(photo, generatedName, io2) ==>
      photo.Some? && photo.value.size > 0 && photo.value.originalFilename.Some?
      && IsAllowedImageExt(GetFileExtension(photo.value.originalFilename.value))
  {
  }
}
