/**
 * The `localimage` field: one image per record. The record's field value is
 * an attachment; `uploadFile` sets it only in update mode.
 */
module LocalImage {
  import opened Wrappers
  import opened Text
  import opened Paths
  import opened Disk
  import opened FieldConfig
  import opened Attachments
  import opened Upload

  /** `thumb(type)`: the URL of the derivative for `token`. */
  function Thumb(a: Attachment, token: string): string
  {
    ThumbUrl(a.path, a.filename, token)
  }

  /** `href`: the URL of the default 160 by 160 thumbnail. */
  function Href(a: Attachment): string
  {
    ThumbUrl(a.path, a.filename, DefaultToken)
  }

  /** `format`: the configured formatter's text, or `href` when there is none. */
  function Format(a: Attachment, formatter: Option<Attachment -> string>): string
  {
    if formatter.Some? then formatter.value(a) else Href(a)
  }

  /** Without a formatter the field formats as its default thumbnail's URL. */
  lemma FormatWithoutFormatter(a: Attachment)
    ensures Format(a, None) == Thumb(a, DefaultToken)
  {
  }

  /**
   * After an upload the `href` of the stored attachment is the served URL of
   * the default thumbnail that resampling wrote.
   */
  lemma HrefServesUploadedThumbnail(opts: Options, dateText: string, files: set<string>, a: Attempt)
    requires IndexOf(SettingsOf(opts).dest, "public/") != -1
    requires UploadPipeline(SettingsOf(opts), dateText, files, a).stored.Some?
    ensures var s := SettingsOf(opts);
            var e := UploadPipeline(s, dateText, files, a);
            var name := e.stored.value.filename;
            && DerivativePath(s.dest, name, DefaultToken) in e.files
            && Href(e.stored.value) == ReplaceFirst(DerivativePath(s.dest, name, DefaultToken), "public/", "/")
  {
    var s := SettingsOf(opts);
    var e := UploadPipeline(s, dateText, files, a);
    DerivativePathsCover(s.dest, e.stored.value.filename, s.resample);
    ThumbUrlServesDerivative(s.dest, e.stored.value.filename, DefaultToken);
  }

  /** What the request's action does: `delete` and `reset` only, matched exactly. */
  function ActionEffect(action: string, image: Attachment, files: set<string>): (r: (Attachment, set<string>))
    ensures action != "delete" && action != "reset" ==> r == (image, files)
    ensures action == "reset" ==> r == (Empty, files)
    ensures action == "delete" ==> r == (Empty, DeleteFiles(image, files))
  {
    if action == "delete" then (Empty, DeleteFiles(image, files))
    else if action == "reset" then (Empty, files)
    else (image, files)
  }

  /** A form submission: the action field (empty when absent) and the uploaded file, if any. */
  datatype Request = Request(action: string, upload: Option<Attempt>)

  datatype Reply = NoUpload | Uploaded(verdict: Result<Attachment, UploadError>)

  /** The request handler uploads only a file of non-zero size. */
  predicate UploadRequested(req: Request)
  {
    req.upload.Some? && req.upload.value.file.size != 0
  }

  class ImageRecord {
    var image: Attachment

    constructor (image: Attachment)
      ensures this.image == image
    {
      this.image := image;
    }

    /** `exists`. */
    predicate Exists(fs: FileSystem)
      reads this, fs
    {
      Attachments.Exists(image, fs.files)
    }

    /** `reset`: clears all four parts of the attachment. */
    method Reset()
      modifies this`image
      ensures image == Empty
    {
      image := Empty;
    }

    /** `delete`: unlinks the stored file if it exists, then resets. */
    method Delete(fs: FileSystem)
      modifies this`image, fs
      ensures image == Empty
      ensures fs.files == DeleteFiles(old(image), old(fs.files))
    {
      if Exists(fs) {
        fs.Unlink(StoredAt(image));
      }
      Reset();
    }

    /** `uploadFile(item, file, update, callback)`: the field is set only when `update` holds. */
    method UploadFile(field: ImageField, fs: FileSystem, dateText: string, a: Attempt, update: bool)
        returns (verdict: Result<Attachment, UploadError>)
      requires |a.pre| == |field.preMove| && |a.post| == |field.postMove|
      modifies this`image, fs
      ensures var e := UploadPipeline(field.settings, dateText, old(fs.files), a);
              && verdict == e.verdict
              && fs.files == e.files
              && image == if update && e.stored.Some? then e.stored.value else old(image)
    {
      var stored;
      verdict, stored := Perform(field, fs, dateText, a);
      if update && stored.Some? {
        image := stored.value;
      }
    }

    /** `getRequestHandler`: the action first, then an upload in update mode. */
    method HandleRequest(field: ImageField, fs: FileSystem, dateText: string, req: Request) returns (reply: Reply)
      requires req.upload.Some? ==> |req.upload.value.pre| == |field.preMove| && |req.upload.value.post| == |field.postMove|
      modifies this`image, fs
      ensures var (image1, files1) := ActionEffect(req.action, old(image), old(fs.files));
              if UploadRequested(req) then
                var e := UploadPipeline(field.settings, dateText, files1, req.upload.value);
                && reply == Uploaded(e.verdict)
                && fs.files == e.files
                && image == if e.stored.Some? then e.stored.value else image1
              else
                reply == NoUpload && image == image1 && fs.files == files1
    {
      if req.action == "delete" {
        Delete(fs);
      } else if req.action == "reset" {
        Reset();
      }
      if UploadRequested(req) {
        var verdict := UploadFile(field, fs, dateText, req.upload.value, true);
        reply := Uploaded(verdict);
      } else {
        reply := NoUpload;
      }
    }
  }

  /** Deleting an uploaded image removes the file the upload stored. */
  lemma DeleteRemovesUpload(s: Settings, dateText: string, files: set<string>, a: Attempt)
    requires s.dest != ""
    requires UploadPipeline(s, dateText, files, a).stored.Some?
    requires UploadPipeline(s, dateText, files, a).stored.value.filename != ""
    ensures var e := UploadPipeline(s, dateText, files, a);
            && StoredAt(e.stored.value) !in DeleteFiles(e.stored.value, e.files)
            && DeleteFiles(e.stored.value, e.files) == e.files - {StoredAt(e.stored.value)}
  {
    StoredFileExists(s, dateText, files, a);
  }
}
