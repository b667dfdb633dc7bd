/**
 * The single-file upload pipeline both fields share: type check, `pre.move`
 * chain, name resolution (`checkExists` then `doMove`), the move, resampling,
 * and the `post.move` chain. What the record does with the attachment (set it
 * or append it) is up to the field.
 */
module Upload {
  import opened Wrappers
  import opened Text
  import opened Paths
  import opened Disk
  import opened Hooks
  import opened FieldConfig
  import opened Attachments

  /** An uploaded file as the request parser hands it over. */
  datatype UploadFile = UploadFile(tempPath: string, name: string, size: nat, mimeType: string)

  /**
   * One upload with what its collaborators report: one outcome per `pre.move`
   * hook, the move's outcome, and one outcome per `post.move` hook.
   */
  datatype Attempt = Attempt(file: UploadFile, pre: seq<Outcome>, move: Outcome, post: seq<Outcome>)

  datatype UploadError =
    | UnsupportedFileType(mimeType: string)
    | PreMoveFailed(hook: nat, message: string)
    | MoveFailed(message: string)
    | PostMoveFailed(hook: nat, message: string)

  /**
   * What one upload leads to: what reaches the callback, the disk afterwards,
   * and the attachment handed to the record (present once the move succeeded).
   */
  datatype Effects = Effects(verdict: Result<Attachment, UploadError>, files: set<string>, stored: Option<Attachment>)

  /** The allow-list check; a configured empty list allows nothing. */
  predicate TypeAllowed(allowed: Option<seq<string>>, mimeType: string)
  {
    allowed.None? || mimeType in allowed.value
  }

  /** The name before resolution: `<date>-<name>` when a date prefix is configured. */
  function PrefixedName(datePrefix: string, dateText: string, name: string): string
  {
    (if datePrefix != "" then dateText + "-" else "") + name
  }

  /** The `filename` option applied to a name, when it is set. */
  function Renamed(rename: Option<string -> string>, name: string): string
  {
    if rename.Some? then rename.value(name) else name
  }

  /**
   * The collision rule of `checkExists`: if `dest/name` exists the stem gets
   * the number of entries in `dest` appended, once, with no further check.
   */
  function Disambiguated(files: set<string>, dest: string, name: string): string
  {
    if Join(dest, name) in files then Stem(name) + NatToDecimal(EntryCount(files, dest)) + Ext(name)
    else name
  }

  /** The final name: prefix, rename, collision rule, then rename again in `doMove`. */
  function ResolveName(s: Settings, dateText: string, original: string, files: set<string>): string
  {
    Renamed(s.rename, Disambiguated(files, s.dest, Renamed(s.rename, PrefixedName(s.datePrefix, dateText, original))))
  }

  /** Without a prefix, a rename or a collision the name is kept as uploaded. */
  lemma NameKeptWithoutCollision(s: Settings, dateText: string, original: string, files: set<string>)
    requires s.datePrefix == "" && s.rename.None?
    requires Join(s.dest, original) !in files
    ensures ResolveName(s, dateText, original, files) == original
  {
    assert PrefixedName(s.datePrefix, dateText, original) == original;
  }

  /** With a date prefix the name is `<date>-<name>` unless that collides. */
  lemma NameCarriesDatePrefix(s: Settings, dateText: string, original: string, files: set<string>)
    requires s.datePrefix != "" && s.rename.None?
    requires Join(s.dest, dateText + "-" + original) !in files
    ensures ResolveName(s, dateText, original, files) == dateText + "-" + original
  {
  }

  /** The rename function is applied before the collision check and again after it. */
  lemma RenameAppliedTwice(s: Settings, dateText: string, original: string, files: set<string>)
    requires s.rename.Some?
    requires Join(s.dest, s.rename.value(PrefixedName(s.datePrefix, dateText, original))) !in files
    ensures ResolveName(s, dateText, original, files)
         == s.rename.value(s.rename.value(PrefixedName(s.datePrefix, dateText, original)))
  {
  }

  /** On a collision the entry count goes between stem and extension, giving a different name. */
  lemma CollisionAppendsEntryCount(s: Settings, dateText: string, original: string, files: set<string>)
    requires s.rename.None?
    requires Join(s.dest, PrefixedName(s.datePrefix, dateText, original)) in files
    ensures var n := PrefixedName(s.datePrefix, dateText, original);
            ResolveName(s, dateText, original, files) == Stem(n) + NatToDecimal(EntryCount(files, s.dest)) + Ext(n)
    ensures var n := PrefixedName(s.datePrefix, dateText, original);
            '/' !in n ==> ResolveName(s, dateText, original, files) != n
  {
    var n := PrefixedName(s.datePrefix, dateText, original);
    StemThenExt(n);
    if '/' !in n {
      BaseOfPlainName(n);
      var r := Stem(n) + NatToDecimal(EntryCount(files, s.dest)) + Ext(n);
      assert |r| == |Stem(n)| + |NatToDecimal(EntryCount(files, s.dest))| + |Ext(n)|;
      assert |r| > |n|;
    }
  }

  lemma PngName()
    ensures Base("a.png") == "a.png" && Ext("a.png") == ".png" && Stem("a.png") == "a"
  {
    PngBase();
    PngExt();
    assert "a.png"[..1] == "a";
  }

  lemma PngBase()
    ensures Base("a.png") == "a.png"
  {
    assert '/' !in "a.png";
    BaseOfPlainName("a.png");
  }

  lemma PngExt()
    ensures Ext("a.png") == ".png"
  {
    PngBase();
    PngDot();
    assert "a.png"[1..] == ".png";
  }

  lemma PngDot()
    ensures LastIndexOf("a.png", '.') == 1
  {
    var s := "a.png";
    assert s[1] == '.' && s[2] != '.' && s[3] != '.' && s[4] != '.';
    LastIndexOfAt(s, '.', 1);
  }

  /** `a.png` uploaded into a directory holding it and two more entries becomes `a3.png`. */
  lemma CollisionExample(s: Settings, files: set<string>)
    requires s.datePrefix == "" && s.rename.None?
    requires Join(s.dest, "a.png") in files && EntryCount(files, s.dest) == 3
    ensures ResolveName(s, "", "a.png", files) == "a3.png"
  {
    assert PrefixedName("", "", "a.png") == "a.png";
    assert Disambiguated(files, s.dest, "a.png") == "a3.png" by {
      assert "a" + "3" + ".png" == "a3.png";
      assert NatToDecimal(3) == "3";
      PngName();
    }
  }

  /** Every path of `files` lies directly in `dir`, so `dir` has as many entries as `files` has paths. */
  lemma AllDirectChildren(files: set<string>, dir: string)
    requires forall p :: p in files ==> DirectChild(dir, p)
    ensures EntryCount(files, dir) == |files|
  {
    assert (set p | p in files && DirectChild(dir, p)) == files;
  }

  lemma TwoEntries()
    ensures EntryCount({"d/a.png", "d/a2.png"}, "d") == 2
  {
    var x, y := "d/a.png", "d/a2.png";
    assert DirectChild("d", x) by {
      assert x[..2] == "d/" && x[2..] == "a.png";
    }
    assert DirectChild("d", y) by {
      assert y[..2] == "d/" && y[2..] == "a2.png";
    }
    assert x != y by { assert |x| != |y|; }
    AllDirectChildren({x, y}, "d");
  }

  /**
   * The rule is single-pass: with `d/a.png` and `d/a2.png` on disk, `a.png`
   * resolves to `a2.png`, which exists too.
   */
  lemma CollisionIsOneShot(s: Settings)
    requires s.dest == "d" && s.datePrefix == "" && s.rename.None?
    ensures ResolveName(s, "", "a.png", {"d/a.png", "d/a2.png"}) == "a2.png"
    ensures Join(s.dest, "a2.png") in {"d/a.png", "d/a2.png"}
  {
    var files := {"d/a.png", "d/a2.png"};
    assert Join("d", "a.png") == "d/a.png" && Join("d", "a2.png") == "d/a2.png";
    assert PrefixedName("", "", "a.png") == "a.png";
    assert Disambiguated(files, "d", "a.png") == "a2.png" by {
      assert "a" + "2" + ".png" == "a2.png";
      assert NatToDecimal(2) == "2";
      assert Join("d", "a.png") in files;
      TwoEntries();
      PngName();
    }
  }

  /**
   * The pipeline of `uploadFile` / one file of `uploadFiles`, from the disk
   * `files` before the upload.
   */
  function UploadPipeline(s: Settings, dateText: string, files: set<string>, a: Attempt): (e: Effects)
    ensures !TypeAllowed(s.allowedTypes, a.file.mimeType) ==>
              e == Effects(Failure(UnsupportedFileType(a.file.mimeType)), files, None)
    ensures TypeAllowed(s.allowedTypes, a.file.mimeType) && RunChain(a.pre).Aborted? ==>
              e == Effects(Failure(PreMoveFailed(RunChain(a.pre).at, RunChain(a.pre).message)), files, None)
    ensures TypeAllowed(s.allowedTypes, a.file.mimeType) && RunChain(a.pre).Completed? && a.move.Fail? ==>
              e == Effects(Failure(MoveFailed(a.move.message)), files, None)
    ensures e.stored.Some? <==> TypeAllowed(s.allowedTypes, a.file.mimeType) && RunChain(a.pre).Completed? && a.move.Pass?
    ensures e.stored.None? ==> e.files == files
    ensures e.stored.Some? ==>
              var name := ResolveName(s, dateText, a.file.name, files);
              && e.stored.value == Attachment(name, s.dest, a.file.size, a.file.mimeType)
              && e.files == files - {a.file.tempPath} + {Join(s.dest, name)} + DerivativePaths(s.dest, name, s.resample)
    ensures e.verdict.Success? <==> e.stored.Some? && RunChain(a.post).Completed?
    ensures e.verdict.Success? ==> e.stored == Some(e.verdict.value)
    ensures e.stored.Some? && RunChain(a.post).Aborted? ==>
              e.verdict == Failure(PostMoveFailed(RunChain(a.post).at, RunChain(a.post).message))
  {
    if !TypeAllowed(s.allowedTypes, a.file.mimeType) then
      Effects(Failure(UnsupportedFileType(a.file.mimeType)), files, None)
    else match RunChain(a.pre)
      case Aborted(k, m) => Effects(Failure(PreMoveFailed(k, m)), files, None)
      case Completed =>
        if a.move.Fail? then Effects(Failure(MoveFailed(a.move.message)), files, None)
        else
          var name := ResolveName(s, dateText, a.file.name, files);
          var data := Attachment(name, s.dest, a.file.size, a.file.mimeType);
          var written := files - {a.file.tempPath} + {Join(s.dest, name)} + DerivativePaths(s.dest, name, s.resample);
          match RunChain(a.post)
          case Aborted(k, m) => Effects(Failure(PostMoveFailed(k, m)), written, Some(data))
          case Completed => Effects(Success(data), written, Some(data))
  }

  /** A stored attachment names a file that exists afterwards, with its derivatives beside it. */
  lemma StoredFileExists(s: Settings, dateText: string, files: set<string>, a: Attempt)
    requires s.dest != ""
    requires UploadPipeline(s, dateText, files, a).stored.Some?
    requires UploadPipeline(s, dateText, files, a).stored.value.filename != ""
    ensures var e := UploadPipeline(s, dateText, files, a);
            && Exists(e.stored.value, e.files)
            && DerivativePaths(s.dest, e.stored.value.filename, s.resample) <= e.files
  {
  }

  /** An upload that fails before its move leaves the disk and the record as they were. */
  lemma FailureBeforeMoveChangesNothing(s: Settings, dateText: string, files: set<string>, a: Attempt)
    requires UploadPipeline(s, dateText, files, a).verdict.Failure?
    requires !UploadPipeline(s, dateText, files, a).verdict.error.PostMoveFailed?
    ensures UploadPipeline(s, dateText, files, a).files == files
    ensures UploadPipeline(s, dateText, files, a).stored.None?
  {
  }

  /** `checkExists` followed by the rename in `doMove`, reassigning `name` as they do. */
  method ResolveSteps(s: Settings, fs: FileSystem, prefixed: string) returns (name: string)
    ensures name == Renamed(s.rename, Disambiguated(fs.files, s.dest, Renamed(s.rename, prefixed)))
  {
    name := prefixed;
    if s.rename.Some? {
      name := s.rename.value(name);
    }
    if fs.ExistsSync(Join(s.dest, name)) {
      var count := fs.ReadDirCount(s.dest);
      name := Stem(name) + NatToDecimal(count) + Ext(name);
    }
    if s.rename.Some? {
      name := s.rename.value(name);
    }
  }

  /** The resampling loop: one derivative written per token. */
  method Resample(fs: FileSystem, dest: string, name: string, tokens: seq<string>)
    modifies fs
    ensures fs.files == old(fs.files) + DerivativePaths(dest, name, tokens)
  {
    var paths := DerivativeList(dest, name, tokens);
    WriteDerivatives(fs, paths);
    DerivativeListPaths(dest, name, tokens);
  }

  /** Writes each path in turn. */
  method WriteDerivatives(fs: FileSystem, paths: seq<string>)
    modifies fs
    ensures fs.files == old(fs.files) + set p | p in paths
  {
    var i := 0;
    while i < |paths|
      invariant 0 <= i <= |paths|
      invariant fs.files == old(fs.files) + set p | p in paths[..i]
    {
      assert paths[..i + 1] == paths[..i] + [paths[i]];
      fs.WriteDerivative(paths[i]);
      i := i + 1;
    }
    assert paths[..i] == paths;
  }

  /**
   * Runs the pipeline step by step on the field's configuration and the disk;
   * `name` is reassigned as `checkExists` and `doMove` do.
   */
  method Perform(field: ImageField, fs: FileSystem, dateText: string, a: Attempt)
      returns (verdict: Result<Attachment, UploadError>, stored: Option<Attachment>)
    requires |a.pre| == |field.preMove| && |a.post| == |field.postMove|
    modifies fs
    ensures var e := UploadPipeline(field.settings, dateText, old(fs.files), a);
            verdict == e.verdict && stored == e.stored && fs.files == e.files
  {
    var s := field.settings;
    ghost var before := fs.files;
    var name := PrefixedName(s.datePrefix, dateText, a.file.name);
    if !TypeAllowed(s.allowedTypes, a.file.mimeType) {
      return Failure(UnsupportedFileType(a.file.mimeType)), None;
    }
    var pre := RunChain(a.pre);
    if pre.Aborted? {
      return Failure(PreMoveFailed(pre.at, pre.message)), None;
    }
    name := ResolveSteps(s, fs, name);
    assert name == ResolveName(s, dateText, a.file.name, before);
    fs.Move(a.file.tempPath, Join(s.dest, name), a.move);
    if a.move.Fail? {
      return Failure(MoveFailed(a.move.message)), None;
    }
    var data := Attachment(name, s.dest, a.file.size, a.file.mimeType);
    stored := Some(data);
    Resample(fs, s.dest, name, s.resample);
    var post := RunChain(a.post);
    if post.Aborted? {
      verdict := Failure(PostMoveFailed(post.at, post.message));
    } else {
      verdict := Success(data);
    }
  }
}
