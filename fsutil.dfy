/**
 * sidecar/utils/fs/util.go: rename-based backup, restore and clean-up of
 * files, the loops that apply them (and writes and removals) to many files
 * and collect the errors, a recursive directory scan, and two string helpers.
 *
 * The host's files are a map from path to content, held by a `FileSystem`
 * object. Every call into package os takes an injected `fault`: the text of
 * an error other than "file does not exist" that the call reports instead of
 * doing its work. `filepath.Glob` is not computed: its result is an input.
 */
module FsUtil {
  import opened Wrappers
  import opened Strings
  import opened Errs

  const BackupSuffix := ".del"

  /** `filepath.ErrBadPattern`, the only error `filepath.Glob` reports. */
  const BadPatternText := "syntax error in pattern"

  type Files = map<string, string>

  // ---------------------------------------------------------------------------
  // The calls into package os

  /** What a call into package os reports. */
  datatype OsResult = Done | NotExist(text: string) | Failed(text: string)

  datatype OsStep = OsStep(files: Files, result: OsResult)

  /** `os.Rename(src, dst)`: `src` is moved to `dst`, replacing what `dst` held. */
  function OsRename(files: Files, src: string, dst: string, fault: Option<string>): OsStep
  {
    if fault.Some? then OsStep(files, Failed(fault.value))
    else if src !in files then OsStep(files, NotExist("rename " + src + " " + dst + ": no such file or directory"))
    else OsStep((files - {src})[dst := files[src]], Done)
  }

  /** `os.Remove(path)`. */
  function OsRemove(files: Files, path: string, fault: Option<string>): OsStep
  {
    if fault.Some? then OsStep(files, Failed(fault.value))
    else if path !in files then OsStep(files, NotExist("remove " + path + ": no such file or directory"))
    else OsStep(files - {path}, Done)
  }

  /** `os.WriteFile(path, data, perm)`: creates the file or replaces its content. */
  function OsWriteFile(files: Files, path: string, data: string, fault: Option<string>): OsStep
  {
    if fault.Some? then OsStep(files, Failed(fault.value)) else OsStep(files[path := data], Done)
  }

  /** The host's files; its methods are package os's calls. */
  class FileSystem {
    var files: Files

    constructor (init: Files)
      ensures files == init
    {
      files := init;
    }

    method Rename(src: string, dst: string, fault: Option<string>) returns (r: OsResult)
      modifies this
      ensures OsStep(files, r) == OsRename(old(files), src, dst, fault)
    {
      if fault.Some? {
        r := Failed(fault.value);
      } else if src !in files {
        r := NotExist("rename " + src + " " + dst + ": no such file or directory");
      } else {
        files := (files - {src})[dst := files[src]];
        r := Done;
      }
    }

    method Remove(path: string, fault: Option<string>) returns (r: OsResult)
      modifies this
      ensures OsStep(files, r) == OsRemove(old(files), path, fault)
    {
      if fault.Some? {
        r := Failed(fault.value);
      } else if path !in files {
        r := NotExist("remove " + path + ": no such file or directory");
      } else {
        files := files - {path};
        r := Done;
      }
    }

    method WriteFile(path: string, data: string, fault: Option<string>) returns (r: OsResult)
      modifies this
      ensures OsStep(files, r) == OsWriteFile(old(files), path, data, fault)
    {
      if fault.Some? {
        r := Failed(fault.value);
      } else {
        files := files[path := data];
        r := Done;
      }
    }
  }

  /** `errors.Wrapf(err, context)` of what an os call reported: nil stays nil. */
  function WrapOs(context: string, r: OsResult): Option<Err>
  {
    match r
    case Done => None
    case NotExist(t) => Some(Wrapped(context, Sys(t)))
    case Failed(t) => Some(Wrapped(context, Sys(t)))
  }

  /** `filepath.Join(dir, name)`, without its lexical clean-up of the result. */
  function JoinPath(dir: string, name: string): string
  {
    if dir == "" then name else dir + "/" + name
  }

  // ---------------------------------------------------------------------------
  // Single-file transactions

  /** State of the files after an operation, and the error it returns. */
  datatype Effect = Effect(files: Files, err: Option<Err>)

  /** `BackupFile(p)`: rename `p` to `p.del`; a missing `p` is not an error. */
  function BackedUp(files: Files, originFile: string, fault: Option<string>): Effect
  {
    var backupFile := originFile + BackupSuffix;
    var s := OsRename(files, originFile, backupFile, fault);
    if s.result.NotExist? then Effect(s.files, None)
    else Effect(s.files, WrapOs("Move file " + Quote(originFile) + " => " + Quote(backupFile) + " failed", s.result))
  }

  /** `RestoreFile(p)`: rename `p.del` back to `p`; a missing `p.del` is not an error. */
  function Restored(files: Files, originFile: string, fault: Option<string>): Effect
  {
    var backupFile := originFile + BackupSuffix;
    var s := OsRename(files, backupFile, originFile, fault);
    if s.result.NotExist? then Effect(s.files, None)
    else Effect(s.files, WrapOs("Restore file " + Quote(backupFile) + " failed", s.result))
  }

  /** `CleanBackupFile(p)`: remove `p.del`; a missing `p.del` is not an error. */
  function CleanedBackup(files: Files, originFile: string, fault: Option<string>): Effect
  {
    var backupFile := originFile + BackupSuffix;
    var s := OsRemove(files, backupFile, fault);
    if s.result.NotExist? then Effect(s.files, None)
    else Effect(s.files, WrapOs("Remove backup file " + Quote(backupFile) + " failed", s.result))
  }

  method BackupFile(fs: FileSystem, originFile: string, fault: Option<string>) returns (err: Option<Err>)
    modifies fs
    ensures Effect(fs.files, err) == BackedUp(old(fs.files), originFile, fault)
  {
    var backupFile := originFile + BackupSuffix;
    var r := fs.Rename(originFile, backupFile, fault);
    if r.NotExist? {
      return None;
    }
    err := WrapOs("Move file " + Quote(originFile) + " => " + Quote(backupFile) + " failed", r);
  }

  method RestoreFile(fs: FileSystem, originFile: string, fault: Option<string>) returns (err: Option<Err>)
    modifies fs
    ensures Effect(fs.files, err) == Restored(old(fs.files), originFile, fault)
  {
    var backupFile := originFile + BackupSuffix;
    var r := fs.Rename(backupFile, originFile, fault);
    if r.NotExist? {
      return None;
    }
    err := WrapOs("Restore file " + Quote(backupFile) + " failed", r);
  }

  method CleanBackupFile(fs: FileSystem, originFile: string, fault: Option<string>) returns (err: Option<Err>)
    modifies fs
    ensures Effect(fs.files, err) == CleanedBackup(old(fs.files), originFile, fault)
  {
    var backupFile := originFile + BackupSuffix;
    var r := fs.Remove(backupFile, fault);
    if r.NotExist? {
      return None;
    }
    err := WrapOs("Remove backup file " + Quote(backupFile) + " failed", r);
  }

  // ---------------------------------------------------------------------------
  // Applying a single-file operation to every match of a pattern

  /** State of the files after a loop, and the errors it collected in order. */
  datatype Batch = Batch(files: Files, errs: seq<Err>)

  /** The injected fault of the os call made for `path`, if any. */
  function FaultOf(faults: map<string, string>, path: string): Option<string>
  {
    if path in faults then Some(faults[path]) else None
  }

  function ErrSeq(e: Option<Err>): seq<Err>
  {
    if e.Some? then [e.value] else []
  }

  /** The loop's result: nil for no errors, otherwise the `ErrorList` of them all. */
  function Collected(errs: seq<Err>): Option<Err>
  {
    if errs == [] then None else Some(List(errs))
  }

  /** What `filepath.Glob(pattern)` returned. */
  datatype GlobResult = BadPattern | Matches(paths: seq<string>)

  function SearchFailed(searchPattern: string): Err
  {
    Wrapped("Search files " + Quote(searchPattern) + " failed", Sys(BadPatternText))
  }

  /** `BackupFile` applied to each path in turn, past failures. */
  function BackedUpAll(files: Files, paths: seq<string>, faults: map<string, string>): Batch
  {
    if paths == [] then Batch(files, [])
    else
      var b := BackedUpAll(files, paths[..|paths| - 1], faults);
      var p := paths[|paths| - 1];
      var e := BackedUp(b.files, p, FaultOf(faults, p));
      Batch(e.files, b.errs + ErrSeq(e.err))
  }

  /** `RestoreFile` applied to the origin of each backup path in turn, past failures. */
  function RestoredAll(files: Files, backupFiles: seq<string>, faults: map<string, string>): Batch
  {
    if backupFiles == [] then Batch(files, [])
    else
      var b := RestoredAll(files, backupFiles[..|backupFiles| - 1], faults);
      var o := TrimSuffix(backupFiles[|backupFiles| - 1], BackupSuffix);
      var e := Restored(b.files, o, FaultOf(faults, o));
      Batch(e.files, b.errs + ErrSeq(e.err))
  }

  /** `CleanBackupFile` applied to the origin of each backup path in turn, past failures. */
  function CleanedAll(files: Files, backupFiles: seq<string>, faults: map<string, string>): Batch
  {
    if backupFiles == [] then Batch(files, [])
    else
      var b := CleanedAll(files, backupFiles[..|backupFiles| - 1], faults);
      var o := TrimSuffix(backupFiles[|backupFiles| - 1], BackupSuffix);
      var e := CleanedBackup(b.files, o, FaultOf(faults, o));
      Batch(e.files, b.errs + ErrSeq(e.err))
  }

  /** `BackupDirFiles(dir, filePattern)`. */
  function BackupDir(files: Files, dir: string, filePattern: string, glob: GlobResult, faults: map<string, string>): Effect
  {
    match glob
    case BadPattern => Effect(files, Some(SearchFailed(JoinPath(dir, filePattern))))
    case Matches(paths) =>
      var b := BackedUpAll(files, paths, faults);
      Effect(b.files, Collected(b.errs))
  }

  /** `RestoreDirFiles(dir, originFilePattern)`; `glob` is the result for the pattern with ".del" appended. */
  function RestoreDir(files: Files, dir: string, originFilePattern: string, glob: GlobResult, faults: map<string, string>): Effect
  {
    match glob
    case BadPattern => Effect(files, Some(SearchFailed(JoinPath(dir, originFilePattern + BackupSuffix))))
    case Matches(backupFiles) =>
      var b := RestoredAll(files, backupFiles, faults);
      Effect(b.files, Collected(b.errs))
  }

  /** `CleanBackupDirFiles(dir, originFilePattern)`; `glob` is the result for the pattern with ".del" appended. */
  function CleanBackupDir(files: Files, dir: string, originFilePattern: string, glob: GlobResult, faults: map<string, string>): Effect
  {
    match glob
    case BadPattern => Effect(files, Some(SearchFailed(JoinPath(dir, originFilePattern + BackupSuffix))))
    case Matches(backupFiles) =>
      var b := CleanedAll(files, backupFiles, faults);
      Effect(b.files, Collected(b.errs))
  }

  method BackupDirFiles(fs: FileSystem, dir: string, filePattern: string, glob: GlobResult, faults: map<string, string>)
    returns (err: Option<Err>)
    modifies fs
    ensures Effect(fs.files, err) == BackupDir(old(fs.files), dir, filePattern, glob, faults)
  {
    var searchPattern := JoinPath(dir, filePattern);
    if glob.BadPattern? {
      return Some(SearchFailed(searchPattern));
    }
    var existFiles := glob.paths;
    var errList: seq<Err> := [];
    for i := 0 to |existFiles|
      invariant Batch(fs.files, errList) == BackedUpAll(old(fs.files), existFiles[..i], faults)
    {
      assert existFiles[..i + 1][..i] == existFiles[..i];
      var e := BackupFile(fs, existFiles[i], FaultOf(faults, existFiles[i]));
      if e.Some? {
        errList := errList + [e.value];
      }
    }
    assert existFiles[..|existFiles|] == existFiles;
    err := if |errList| == 0 then None else Some(List(errList));
  }

  method RestoreDirFiles(fs: FileSystem, dir: string, originFilePattern: string, glob: GlobResult, faults: map<string, string>)
    returns (err: Option<Err>)
    modifies fs
    ensures Effect(fs.files, err) == RestoreDir(old(fs.files), dir, originFilePattern, glob, faults)
  {
    var searchPattern := JoinPath(dir, originFilePattern + BackupSuffix);
    if glob.BadPattern? {
      return Some(SearchFailed(searchPattern));
    }
    var existBackupFiles := glob.paths;
    var errList: seq<Err> := [];
    for i := 0 to |existBackupFiles|
      invariant Batch(fs.files, errList) == RestoredAll(old(fs.files), existBackupFiles[..i], faults)
    {
      assert existBackupFiles[..i + 1][..i] == existBackupFiles[..i];
      var originFile := TrimSuffix(existBackupFiles[i], BackupSuffix);
      var e := RestoreFile(fs, originFile, FaultOf(faults, originFile));
      if e.Some? {
        errList := errList + [e.value];
      }
    }
    assert existBackupFiles[..|existBackupFiles|] == existBackupFiles;
    err := if |errList| == 0 then None else Some(List(errList));
  }

  method CleanBackupDirFiles(fs: FileSystem, dir: string, originFilePattern: string, glob: GlobResult, faults: map<string, string>)
    returns (err: Option<Err>)
    modifies fs
    ensures Effect(fs.files, err) == CleanBackupDir(old(fs.files), dir, originFilePattern, glob, faults)
  {
    var searchPattern := JoinPath(dir, originFilePattern + BackupSuffix);
    if glob.BadPattern? {
      return Some(SearchFailed(searchPattern));
    }
    var existBackupFiles := glob.paths;
    var errList: seq<Err> := [];
    for i := 0 to |existBackupFiles|
      invariant Batch(fs.files, errList) == CleanedAll(old(fs.files), existBackupFiles[..i], faults)
    {
      assert existBackupFiles[..i + 1][..i] == existBackupFiles[..i];
      var originFile := TrimSuffix(existBackupFiles[i], BackupSuffix);
      var e := CleanBackupFile(fs, originFile, FaultOf(faults, originFile));
      if e.Some? {
        errList := errList + [e.value];
      }
    }
    assert existBackupFiles[..|existBackupFiles|] == existBackupFiles;
    err := if |errList| == 0 then None else Some(List(errList));
  }

  // ---------------------------------------------------------------------------
  // Writing and removing many files

  datatype FileContent = FileContent(filename: string, content: string)

  /** State of the files after the write loop, the paths written, and the errors collected. */
  datatype Writes = Writes(files: Files, written: seq<string>, errs: seq<Err>)

  /** The write loop of `WriteDirFiles`: each file in turn under `dir`, past failures. */
  function WrittenAll(files: Files, dir: string, fileContents: seq<FileContent>, faults: map<string, string>): Writes
  {
    if fileContents == [] then Writes(files, [], [])
    else
      var w := WrittenAll(files, dir, fileContents[..|fileContents| - 1], faults);
      var rf := fileContents[|fileContents| - 1];
      var path := JoinPath(dir, rf.filename);
      var s := OsWriteFile(w.files, path, rf.content, FaultOf(faults, path));
      if s.result.Done? then Writes(s.files, w.written + [path], w.errs)
      else Writes(s.files, w.written, w.errs + [Wrapped("Write file " + Quote(rf.filename) + " failed", Sys(s.result.text))])
  }

  datatype WriteOutcome = WriteOutcome(files: Files, writtenFiles: seq<string>, err: Option<Err>)

  /** `WriteDirFiles(dirperm, dir, fileperm, fileContents)`; `mkdirFault` is what `os.MkdirAll(dir)` reports. */
  function WriteDir(files: Files, dir: string, fileContents: seq<FileContent>, mkdirFault: Option<string>, faults: map<string, string>): WriteOutcome
  {
    if mkdirFault.Some? then WriteOutcome(files, [], Some(Wrapped("mkdir " + dir + " failed", Sys(mkdirFault.value))))
    else
      var w := WrittenAll(files, dir, fileContents, faults);
      WriteOutcome(w.files, w.written, Collected(w.errs))
  }

  /** The removal loop of `RemoveFiles`: each path in turn, past failures (a missing file is one). */
  function RemovedAll(files: Files, paths: seq<string>, faults: map<string, string>): Batch
  {
    if paths == [] then Batch(files, [])
    else
      var b := RemovedAll(files, paths[..|paths| - 1], faults);
      var p := paths[|paths| - 1];
      var s := OsRemove(b.files, p, FaultOf(faults, p));
      Batch(s.files, b.errs + ErrSeq(WrapOs("Remove file " + Quote(p) + " failed", s.result)))
  }

  method WriteDirFiles(fs: FileSystem, dir: string, fileContents: seq<FileContent>, mkdirFault: Option<string>, faults: map<string, string>)
    returns (writtenFiles: seq<string>, err: Option<Err>)
    modifies fs
    ensures WriteOutcome(fs.files, writtenFiles, err) == WriteDir(old(fs.files), dir, fileContents, mkdirFault, faults)
  {
    writtenFiles := [];
    if mkdirFault.Some? {
      return writtenFiles, Some(Wrapped("mkdir " + dir + " failed", Sys(mkdirFault.value)));
    }
    var errList: seq<Err> := [];
    for i := 0 to |fileContents|
      invariant Writes(fs.files, writtenFiles, errList) == WrittenAll(old(fs.files), dir, fileContents[..i], faults)
    {
      assert fileContents[..i + 1][..i] == fileContents[..i];
      var rf := fileContents[i];
      var writtenFile := JoinPath(dir, rf.filename);
      var r := fs.WriteFile(writtenFile, rf.content, FaultOf(faults, writtenFile));
      if !r.Done? {
        errList := errList + [Wrapped("Write file " + Quote(rf.filename) + " failed", Sys(r.text))];
      } else {
        writtenFiles := writtenFiles + [writtenFile];
      }
    }
    assert fileContents[..|fileContents|] == fileContents;
    err := if |errList| == 0 then None else Some(List(errList));
  }

  method RemoveFiles(fs: FileSystem, files: seq<string>, faults: map<string, string>) returns (err: Option<Err>)
    modifies fs
    ensures Effect(fs.files, err) == Effect(RemovedAll(old(fs.files), files, faults).files, Collected(RemovedAll(old(fs.files), files, faults).errs))
  {
    var errList: seq<Err> := [];
    for i := 0 to |files|
      invariant Batch(fs.files, errList) == RemovedAll(old(fs.files), files[..i], faults)
    {
      assert files[..i + 1][..i] == files[..i];
      var r := fs.Remove(files[i], FaultOf(faults, files[i]));
      if !r.Done? {
        errList := errList + [Wrapped("Remove file " + Quote(files[i]) + " failed", Sys(r.text))];
      }
    }
    assert files[..|files|] == files;
    err := if |errList| == 0 then None else Some(List(errList));
  }

  /** `RemoveFilesByPattern(dir, filePattern)`: the removal loop over what the pattern matched. */
  method RemoveFilesByPattern(fs: FileSystem, dir: string, filePattern: string, glob: GlobResult, faults: map<string, string>)
    returns (err: Option<Err>)
    modifies fs
    ensures glob.BadPattern? ==> fs.files == old(fs.files) && err == Some(SearchFailed(JoinPath(dir, filePattern)))
    ensures glob.Matches? ==>
      Effect(fs.files, err) == Effect(RemovedAll(old(fs.files), glob.paths, faults).files, Collected(RemovedAll(old(fs.files), glob.paths, faults).errs))
  {
    var searchPattern := JoinPath(dir, filePattern);
    if glob.BadPattern? {
      return Some(SearchFailed(searchPattern));
    }
    err := RemoveFiles(fs, glob.paths, faults);
  }

  /** `ErrorList.Error`: a `strings.Builder` loop writing one numbered line per error. */
  method ErrorListError(el: seq<Err>) returns (r: string)
    ensures r == Text(List(el))
  {
    ghost var msgs := seq(|el|, i requires 0 <= i < |el| => Text(el[i]));
    ghost var lines := seq(|el|, i requires 0 <= i < |el| => NumberedLine(i, msgs[i]));
    var sb := "";
    for i := 0 to |el|
      invariant |lines| == |el|
      invariant i == 0 ==> sb == ""
      invariant 0 < i ==> sb == Join(lines[..i], "\n") + (if i < |el| then "\n" else "")
    {
      var line := "error[" + Itoa(i) + "]: " + Text(el[i]);
      assert line == lines[i];
      JoinPrefixStep(lines, "\n", i);
      sb := sb + line;
      if i < |el| - 1 {
        sb := sb + "\n";
      }
    }
    assert lines[..|el|] == lines;
    assert Text(List(el)) == ErrorListText(msgs);
    r := sb;
  }

  // ---------------------------------------------------------------------------
  // Properties of the single-file transactions

  /** A backup name is never its origin, and distinct origins have distinct backup names. */
  lemma BackupNames(p: string, q: string)
    ensures p + BackupSuffix != p
    ensures p != q ==> p + BackupSuffix != q + BackupSuffix
  {
    if p + BackupSuffix == q + BackupSuffix {
      assert p == (p + BackupSuffix)[..|p|];
      assert q == (q + BackupSuffix)[..|q|];
    }
  }

  /** Each single-file operation fails exactly when its os call faults, and then touches nothing; a missing file is never an error. */
  lemma SingleFileErrIffFault(files: Files, p: string, fault: Option<string>)
    ensures BackedUp(files, p, fault).err == None <==> fault == None
    ensures Restored(files, p, fault).err == None <==> fault == None
    ensures CleanedBackup(files, p, fault).err == None <==> fault == None
    ensures fault.Some? ==> BackedUp(files, p, fault).files == files
    ensures fault.Some? ==> Restored(files, p, fault).files == files
    ensures fault.Some? ==> CleanedBackup(files, p, fault).files == files
    ensures fault.Some? ==> BackedUp(files, p, fault).err == Some(Wrapped("Move file " + Quote(p) + " => " + Quote(p + BackupSuffix) + " failed", Sys(fault.value)))
    ensures fault.Some? ==> Restored(files, p, fault).err == Some(Wrapped("Restore file " + Quote(p + BackupSuffix) + " failed", Sys(fault.value)))
    ensures fault.Some? ==> CleanedBackup(files, p, fault).err == Some(Wrapped("Remove backup file " + Quote(p + BackupSuffix) + " failed", Sys(fault.value)))
  {
  }

  /** The single-file operations touch only the file and its backup name. */
  lemma SingleFileFrame(files: Files, p: string, fault: Option<string>, k: string)
    requires k != p && k != p + BackupSuffix
    ensures k in BackedUp(files, p, fault).files <==> k in files
    ensures k in Restored(files, p, fault).files <==> k in files
    ensures k in CleanedBackup(files, p, fault).files <==> k in files
    ensures k in files ==> BackedUp(files, p, fault).files[k] == files[k]
    ensures k in files ==> Restored(files, p, fault).files[k] == files[k]
    ensures k in files ==> CleanedBackup(files, p, fault).files[k] == files[k]
  {
  }

  /** Backing up moves the content of `p` to `p.del` and leaves no `p`; with no `p` nothing changes. */
  lemma BackupMovesContent(files: Files, p: string)
    ensures p in files ==> p !in BackedUp(files, p, None).files
    ensures p in files ==> BackedUp(files, p, None).files[p + BackupSuffix] == files[p]
    ensures p !in files ==> BackedUp(files, p, None).files == files
  {
    BackupNames(p, p);
  }

  /** Restoring moves the content of `p.del` back to `p` and leaves no `p.del`; with no `p.del` nothing changes. */
  lemma RestoreMovesContent(files: Files, p: string)
    ensures p + BackupSuffix !in Restored(files, p, None).files
    ensures p + BackupSuffix in files ==> Restored(files, p, None).files[p] == files[p + BackupSuffix]
    ensures p + BackupSuffix !in files ==> Restored(files, p, None).files == files
  {
    BackupNames(p, p);
  }

  /** Cleaning removes `p.del` and never touches `p`. */
  lemma CleanKeepsOrigin(files: Files, p: string)
    ensures CleanedBackup(files, p, None).files == files - {p + BackupSuffix}
    ensures p in CleanedBackup(files, p, None).files <==> p in files
  {
    BackupNames(p, p);
  }

  /** Restoring a second time changes nothing and reports nothing. */
  lemma RestoreIdempotent(files: Files, p: string)
    ensures Restored(Restored(files, p, None).files, p, None) == Restored(files, p, None)
  {
    RestoreMovesContent(files, p);
  }

  /** Rollback: a backup followed by a restore gives back the files as they were. */
  lemma BackupThenRestore(files: Files, p: string)
    requires p + BackupSuffix !in files
    ensures Restored(BackedUp(files, p, None).files, p, None) == Effect(files, None)
  {
    BackupNames(p, p);
  }

  /** Commit: a backup followed by a clean-up removes `p` and any earlier `p.del`, and nothing else. */
  lemma BackupThenClean(files: Files, p: string)
    ensures CleanedBackup(BackedUp(files, p, None).files, p, None) == Effect(files - {p, p + BackupSuffix}, None)
  {
    BackupNames(p, p);
  }

  // ---------------------------------------------------------------------------
  // Properties of the loops over many files

  /** How many of the paths have a faulting os call. */
  function CountFaulted(paths: seq<string>, faults: map<string, string>): (n: nat)
    ensures n <= |paths|
  {
    if paths == [] then 0
    else CountFaulted(paths[..|paths| - 1], faults) + (if paths[|paths| - 1] in faults then 1 else 0)
  }

  /** How many of the backup paths have an origin whose os call faults. */
  function CountFaultedOrigins(backupFiles: seq<string>, faults: map<string, string>): (n: nat)
    ensures n <= |backupFiles|
  {
    if backupFiles == [] then 0
    else
      var last := backupFiles[|backupFiles| - 1];
      CountFaultedOrigins(backupFiles[..|backupFiles| - 1], faults) + (if TrimSuffix(last, BackupSuffix) in faults then 1 else 0)
  }

  /** No path is counted exactly when none of them faults. */
  lemma {:induction false} CountFaultedZero(paths: seq<string>, faults: map<string, string>)
    ensures CountFaulted(paths, faults) == 0 <==> forall i :: 0 <= i < |paths| ==> paths[i] !in faults
  {
    if paths != [] {
      var init := paths[..|paths| - 1];
      CountFaultedZero(init, faults);
      assert forall i :: 0 <= i < |init| ==> init[i] == paths[i];
    }
  }

  /** No backup path is counted exactly when none of their origins faults. */
  lemma {:induction false} CountFaultedOriginsZero(backupFiles: seq<string>, faults: map<string, string>)
    ensures CountFaultedOrigins(backupFiles, faults) == 0 <==>
      forall i :: 0 <= i < |backupFiles| ==> TrimSuffix(backupFiles[i], BackupSuffix) !in faults
  {
    if backupFiles != [] {
      var init := backupFiles[..|backupFiles| - 1];
      CountFaultedOriginsZero(init, faults);
      assert forall i :: 0 <= i < |init| ==> init[i] == backupFiles[i];
    }
  }

  /** The backup loop reports one error per faulting path. */
  lemma {:induction false} BackedUpAllErrCount(files: Files, paths: seq<string>, faults: map<string, string>)
    ensures |BackedUpAll(files, paths, faults).errs| == CountFaulted(paths, faults)
  {
    if paths != [] {
      var init := paths[..|paths| - 1];
      var last := paths[|paths| - 1];
      BackedUpAllErrCount(files, init, faults);
      SingleFileErrIffFault(BackedUpAll(files, init, faults).files, last, FaultOf(faults, last));
    }
  }

  /** The restore loop reports one error per backup path whose origin faults. */
  lemma {:induction false} RestoredAllErrCount(files: Files, backupFiles: seq<string>, faults: map<string, string>)
    ensures |RestoredAll(files, backupFiles, faults).errs| == CountFaultedOrigins(backupFiles, faults)
  {
    if backupFiles != [] {
      var init := backupFiles[..|backupFiles| - 1];
      var o := TrimSuffix(backupFiles[|backupFiles| - 1], BackupSuffix);
      RestoredAllErrCount(files, init, faults);
      SingleFileErrIffFault(RestoredAll(files, init, faults).files, o, FaultOf(faults, o));
    }
  }

  /** The clean-up loop reports one error per backup path whose origin faults. */
  lemma {:induction false} CleanedAllErrCount(files: Files, backupFiles: seq<string>, faults: map<string, string>)
    ensures |CleanedAll(files, backupFiles, faults).errs| == CountFaultedOrigins(backupFiles, faults)
  {
    if backupFiles != [] {
      var init := backupFiles[..|backupFiles| - 1];
      var o := TrimSuffix(backupFiles[|backupFiles| - 1], BackupSuffix);
      CleanedAllErrCount(files, init, faults);
      SingleFileErrIffFault(CleanedAll(files, init, faults).files, o, FaultOf(faults, o));
    }
  }

  /** A loop reports an error for exactly the paths whose os call faults, one error per such path. */
  lemma BatchErrsIffFaults(files: Files, paths: seq<string>, faults: map<string, string>)
    ensures |BackedUpAll(files, paths, faults).errs| == CountFaulted(paths, faults)
    ensures |RestoredAll(files, paths, faults).errs| == CountFaultedOrigins(paths, faults)
    ensures |CleanedAll(files, paths, faults).errs| == CountFaultedOrigins(paths, faults)
    ensures |BackedUpAll(files, paths, faults).errs| <= |paths|
    ensures BackedUpAll(files, paths, faults).errs == [] <==> forall i :: 0 <= i < |paths| ==> paths[i] !in faults
    ensures |RestoredAll(files, paths, faults).errs| <= |paths|
    ensures RestoredAll(files, paths, faults).errs == [] <==>
      forall i :: 0 <= i < |paths| ==> TrimSuffix(paths[i], BackupSuffix) !in faults
    ensures |CleanedAll(files, paths, faults).errs| <= |paths|
    ensures CleanedAll(files, paths, faults).errs == [] <==>
      forall i :: 0 <= i < |paths| ==> TrimSuffix(paths[i], BackupSuffix) !in faults
  {
    BackedUpAllErrCount(files, paths, faults);
    RestoredAllErrCount(files, paths, faults);
    CleanedAllErrCount(files, paths, faults);
    CountFaultedZero(paths, faults);
    CountFaultedOriginsZero(paths, faults);
  }

  /**
   * Cleaning by pattern: when no clean-up faults, no matched backup is left,
   * and no file appears that was not there before.
   */
  lemma {:induction false} CleanedAllRemovesBackups(files: Files, backupFiles: seq<string>, faults: map<string, string>)
    requires forall i :: 0 <= i < |backupFiles| ==> TrimSuffix(backupFiles[i], BackupSuffix) !in faults
    ensures forall i :: 0 <= i < |backupFiles| ==>
      TrimSuffix(backupFiles[i], BackupSuffix) + BackupSuffix !in CleanedAll(files, backupFiles, faults).files
    ensures CleanedAll(files, backupFiles, faults).files.Keys <= files.Keys
  {
    if backupFiles != [] {
      var init := backupFiles[..|backupFiles| - 1];
      assert forall i :: 0 <= i < |init| ==> init[i] == backupFiles[i];
      CleanedAllRemovesBackups(files, init, faults);
      var o := TrimSuffix(backupFiles[|backupFiles| - 1], BackupSuffix);
      CleanKeepsOrigin(CleanedAll(files, init, faults).files, o);
    }
  }

  /** `BackupDirFiles` touches only the matched paths and their backup names. */
  lemma {:induction false} BackedUpAllFrame(files: Files, paths: seq<string>, faults: map<string, string>, k: string)
    requires forall i :: 0 <= i < |paths| ==> k != paths[i] && k != paths[i] + BackupSuffix
    ensures k in BackedUpAll(files, paths, faults).files <==> k in files
    ensures k in files ==> BackedUpAll(files, paths, faults).files[k] == files[k]
  {
    if paths != [] {
      var init := paths[..|paths| - 1];
      BackedUpAllFrame(files, init, faults, k);
      SingleFileFrame(BackedUpAll(files, init, faults).files, paths[|paths| - 1], FaultOf(faults, paths[|paths| - 1]), k);
    }
  }

  /** `RestoreDirFiles` and `CleanBackupDirFiles` touch only the origins of the matched backups and their backup names. */
  lemma {:induction false} RestoredAllFrame(files: Files, backupFiles: seq<string>, faults: map<string, string>, k: string)
    requires forall i :: 0 <= i < |backupFiles| ==>
      k != TrimSuffix(backupFiles[i], BackupSuffix) && k != TrimSuffix(backupFiles[i], BackupSuffix) + BackupSuffix
    ensures k in RestoredAll(files, backupFiles, faults).files <==> k in files
    ensures k in files ==> RestoredAll(files, backupFiles, faults).files[k] == files[k]
    ensures k in CleanedAll(files, backupFiles, faults).files <==> k in files
    ensures k in files ==> CleanedAll(files, backupFiles, faults).files[k] == files[k]
  {
    if backupFiles != [] {
      var init := backupFiles[..|backupFiles| - 1];
      var o := TrimSuffix(backupFiles[|backupFiles| - 1], BackupSuffix);
      RestoredAllFrame(files, init, faults, k);
      SingleFileFrame(RestoredAll(files, init, faults).files, o, FaultOf(faults, o), k);
      SingleFileFrame(CleanedAll(files, init, faults).files, o, FaultOf(faults, o), k);
    }
  }

  /** The backup names of some paths, in the same order. */
  function DelPaths(paths: seq<string>): (r: seq<string>)
    ensures |r| == |paths| && forall i :: 0 <= i < |paths| ==> r[i] == paths[i] + BackupSuffix
  {
    seq(|paths|, i requires 0 <= i < |paths| => paths[i] + BackupSuffix)
  }

  /**
   * Paths a backup loop can take back: no two equal, no backup name already
   * present in the files, and no path the backup name of another.
   */
  predicate Backupable(files: Files, paths: seq<string>)
  {
    && (forall i, j :: 0 <= i < j < |paths| ==> paths[i] != paths[j])
    && (forall i :: 0 <= i < |paths| ==> paths[i] + BackupSuffix !in files)
    && (forall i, j :: 0 <= i < |paths| && 0 <= j < |paths| ==> paths[i] != paths[j] + BackupSuffix)
  }

  /** A restore and a backup of unrelated files commute. */
  lemma RestoreBackupCommute(files: Files, x: string, q: string)
    requires x != q && x != q + BackupSuffix && x + BackupSuffix != q
    ensures Restored(BackedUp(files, x, None).files, q, None).files == BackedUp(Restored(files, q, None).files, x, None).files
  {
    BackupNames(x, q);
    BackupNames(x, x);
    BackupNames(q, q);
  }

  /** Restoring a list of backups commutes with backing up a file none of them concerns. */
  lemma {:induction false} RestoredAllBackupCommute(files: Files, x: string, qs: seq<string>)
    requires forall i :: 0 <= i < |qs| ==> x != qs[i] && x != qs[i] + BackupSuffix && x + BackupSuffix != qs[i]
    ensures RestoredAll(BackedUp(files, x, None).files, DelPaths(qs), map[]) ==
      Batch(BackedUp(RestoredAll(files, DelPaths(qs), map[]).files, x, None).files, [])
  {
    BatchErrsIffFaults(BackedUp(files, x, None).files, DelPaths(qs), map[]);
    if qs != [] {
      var init := qs[..|qs| - 1];
      var q := qs[|qs| - 1];
      assert DelPaths(qs)[..|qs| - 1] == DelPaths(init);
      TrimSuffixOfAppended(q, BackupSuffix);
      RestoredAllBackupCommute(files, x, init);
      RestoreBackupCommute(RestoredAll(files, DelPaths(init), map[]).files, x, q);
    }
  }

  /**
   * Rollback of a whole directory: backing up the matched files and then
   * restoring from their backup names gives back the files as they were,
   * with no error.
   */
  lemma {:induction false} BackupDirThenRestoreDir(files: Files, paths: seq<string>)
    requires Backupable(files, paths)
    ensures RestoredAll(BackedUpAll(files, paths, map[]).files, DelPaths(paths), map[]) == Batch(files, [])
  {
    if paths != [] {
      var init := paths[..|paths| - 1];
      var x := paths[|paths| - 1];
      var g := BackedUpAll(files, init, map[]).files;
      assert Backupable(files, init);
      BackupDirThenRestoreDir(files, init);
      assert DelPaths(paths)[..|paths| - 1] == DelPaths(init);
      TrimSuffixOfAppended(x, BackupSuffix);
      RestoredAllBackupCommute(g, x, init);
      BackupThenRestore(files, x);
    }
  }

  /**
   * The directory operations return nil exactly when the pattern is valid and
   * no per-file call faults; a bad pattern changes no file.
   */
  lemma DirOpsErrIff(files: Files, dir: string, pattern: string, glob: GlobResult, faults: map<string, string>)
    ensures glob.BadPattern? ==> BackupDir(files, dir, pattern, glob, faults).files == files
    ensures glob.BadPattern? ==> RestoreDir(files, dir, pattern, glob, faults).files == files
    ensures glob.BadPattern? ==> CleanBackupDir(files, dir, pattern, glob, faults).files == files
    ensures BackupDir(files, dir, pattern, glob, faults).err.None? <==>
      glob.Matches? && forall i :: 0 <= i < |glob.paths| ==> glob.paths[i] !in faults
    ensures RestoreDir(files, dir, pattern, glob, faults).err.None? <==>
      glob.Matches? && forall i :: 0 <= i < |glob.paths| ==> TrimSuffix(glob.paths[i], BackupSuffix) !in faults
    ensures CleanBackupDir(files, dir, pattern, glob, faults).err.None? <==>
      glob.Matches? && forall i :: 0 <= i < |glob.paths| ==> TrimSuffix(glob.paths[i], BackupSuffix) !in faults
  {
    if glob.Matches? {
      BatchErrsIffFaults(files, glob.paths, faults);
    }
  }

  /** The paths of a removal loop whose os call is not made to fault. */
  function Unfaulted(paths: seq<string>, faults: map<string, string>): set<string>
  {
    set i | 0 <= i < |paths| && paths[i] !in faults :: paths[i]
  }

  /**
   * `RemoveFiles` removes exactly the listed paths whose removal does not
   * fault, and (with no path listed twice) reports no error exactly when
   * every listed path exists and none faults.
   */
  lemma {:induction false} RemovedAllEffect(files: Files, paths: seq<string>, faults: map<string, string>)
    ensures RemovedAll(files, paths, faults).files == files - Unfaulted(paths, faults)
    ensures |RemovedAll(files, paths, faults).errs| <= |paths|
    ensures RemovedAll(files, paths, faults).errs == [] ==>
      forall i :: 0 <= i < |paths| ==> paths[i] in files && paths[i] !in faults
    ensures (forall i, j :: 0 <= i < j < |paths| ==> paths[i] != paths[j]) ==>
      (forall i :: 0 <= i < |paths| ==> paths[i] in files && paths[i] !in faults) ==>
      RemovedAll(files, paths, faults).errs == []
  {
    if paths != [] {
      var init := paths[..|paths| - 1];
      var p := paths[|paths| - 1];
      RemovedAllEffect(files, init, faults);
      assert forall i :: 0 <= i < |init| ==> init[i] == paths[i];
      assert Unfaulted(paths, faults) == Unfaulted(init, faults) + (if p in faults then {} else {p});
    }
  }

  /** The joined path the write loop uses for entry `i`. */
  function WritePath(dir: string, fileContents: seq<FileContent>, i: nat): string
    requires i < |fileContents|
  {
    JoinPath(dir, fileContents[i].filename)
  }

  /**
   * The write loop reports every entry exactly once: as a written path when
   * its write does not fault, as an error otherwise, in input order.
   */
  lemma {:induction false} WrittenAllReports(files: Files, dir: string, fileContents: seq<FileContent>, faults: map<string, string>)
    ensures var w := WrittenAll(files, dir, fileContents, faults);
      |w.written| + |w.errs| == |fileContents|
    ensures WrittenAll(files, dir, fileContents, faults).written ==
      UnfaultedWrites(dir, fileContents, faults)
    ensures WrittenAll(files, dir, fileContents, faults).errs == [] <==>
      forall i :: 0 <= i < |fileContents| ==> WritePath(dir, fileContents, i) !in faults
  {
    if fileContents != [] {
      var init := fileContents[..|fileContents| - 1];
      var last := |fileContents| - 1;
      WrittenAllReports(files, dir, init, faults);
      UnfaultedWritesSnoc(dir, fileContents, faults);
      assert forall i :: 0 <= i < |init| ==> WritePath(dir, init, i) == WritePath(dir, fileContents, i);
      assert WritePath(dir, fileContents, last) == JoinPath(dir, fileContents[last].filename);
    }
  }

  /** Reference: the joined paths of the entries whose write does not fault, in input order. */
  function UnfaultedWrites(dir: string, fileContents: seq<FileContent>, faults: map<string, string>): seq<string>
  {
    if fileContents == [] then []
    else
      var path := JoinPath(dir, fileContents[0].filename);
      (if path in faults then [] else [path]) + UnfaultedWrites(dir, fileContents[1..], faults)
  }

  /** `UnfaultedWrites` taken from the back, as the loop builds it. */
  lemma {:induction false} UnfaultedWritesSnoc(dir: string, fileContents: seq<FileContent>, faults: map<string, string>)
    requires fileContents != []
    ensures var path := JoinPath(dir, fileContents[|fileContents| - 1].filename);
      UnfaultedWrites(dir, fileContents, faults) ==
      UnfaultedWrites(dir, fileContents[..|fileContents| - 1], faults) + (if path in faults then [] else [path])
  {
    if |fileContents| > 1 {
      var rest := fileContents[1..];
      UnfaultedWritesSnoc(dir, rest, faults);
      assert rest[..|rest| - 1] == fileContents[..|fileContents| - 1][1..];
    }
  }

  /**
   * `WriteDirFiles` writes nothing and reports no path when mkdir fails;
   * otherwise it reports the unfaulted paths in input order and returns nil
   * exactly when no write faults.
   */
  lemma WriteDirOutcome(files: Files, dir: string, fileContents: seq<FileContent>, mkdirFault: Option<string>, faults: map<string, string>)
    ensures mkdirFault.Some? ==>
      WriteDir(files, dir, fileContents, mkdirFault, faults) == WriteOutcome(files, [], Some(Wrapped("mkdir " + dir + " failed", Sys(mkdirFault.value))))
    ensures mkdirFault.None? ==> WriteDir(files, dir, fileContents, mkdirFault, faults).writtenFiles == UnfaultedWrites(dir, fileContents, faults)
    ensures WriteDir(files, dir, fileContents, mkdirFault, faults).err.None? <==>
      mkdirFault.None? && forall i :: 0 <= i < |fileContents| ==> WritePath(dir, fileContents, i) !in faults
  {
    WrittenAllReports(files, dir, fileContents, faults);
  }

  /** One step of the write loop, as seen on the files. */
  lemma WrittenAllStep(files: Files, dir: string, fileContents: seq<FileContent>, faults: map<string, string>)
    requires fileContents != []
    ensures var last := |fileContents| - 1;
      var path := WritePath(dir, fileContents, last);
      WrittenAll(files, dir, fileContents, faults).files ==
      (if path in faults then WrittenAll(files, dir, fileContents[..last], faults).files
       else WrittenAll(files, dir, fileContents[..last], faults).files[path := fileContents[last].content])
  {
  }

  /** A path that is never written without a fault keeps its old state through the write loop. */
  lemma {:induction false} WrittenAllKeepsOthers(files: Files, dir: string, fileContents: seq<FileContent>, faults: map<string, string>, k: string)
    requires k in faults || forall i :: 0 <= i < |fileContents| ==> WritePath(dir, fileContents, i) != k
    ensures k in WrittenAll(files, dir, fileContents, faults).files <==> k in files
    ensures k in files ==> WrittenAll(files, dir, fileContents, faults).files[k] == files[k]
  {
    if fileContents != [] {
      var init := fileContents[..|fileContents| - 1];
      assert forall i :: 0 <= i < |init| ==> WritePath(dir, init, i) == WritePath(dir, fileContents, i);
      WrittenAllKeepsOthers(files, dir, init, faults, k);
      WrittenAllStep(files, dir, fileContents, faults);
    }
  }

  /** With no joined path repeated, an entry whose write does not fault holds its content after the loop. */
  lemma {:induction false} WrittenAllHolds(files: Files, dir: string, fileContents: seq<FileContent>, faults: map<string, string>, n: nat)
    requires forall i, j :: 0 <= i < j < |fileContents| ==> WritePath(dir, fileContents, i) != WritePath(dir, fileContents, j)
    requires n < |fileContents| && WritePath(dir, fileContents, n) !in faults
    ensures WritePath(dir, fileContents, n) in WrittenAll(files, dir, fileContents, faults).files
    ensures WrittenAll(files, dir, fileContents, faults).files[WritePath(dir, fileContents, n)] == fileContents[n].content
  {
    var last := |fileContents| - 1;
    WrittenAllStep(files, dir, fileContents, faults);
    if n < last {
      var init := fileContents[..last];
      assert forall i :: 0 <= i < |init| ==> WritePath(dir, init, i) == WritePath(dir, fileContents, i);
      WrittenAllHolds(files, dir, init, faults, n);
      assert WritePath(dir, fileContents, n) != WritePath(dir, fileContents, last);
    }
  }

  /**
   * After the write loop, with no joined path repeated, every entry whose
   * write does not fault holds its content, and every other file is as it was.
   */
  lemma WrittenAllFiles(files: Files, dir: string, fileContents: seq<FileContent>, faults: map<string, string>, k: string)
    requires forall i, j :: 0 <= i < j < |fileContents| ==> WritePath(dir, fileContents, i) != WritePath(dir, fileContents, j)
    ensures forall i :: 0 <= i < |fileContents| && WritePath(dir, fileContents, i) == k && k !in faults ==>
      k in WrittenAll(files, dir, fileContents, faults).files &&
      WrittenAll(files, dir, fileContents, faults).files[k] == fileContents[i].content
    ensures (k in faults || forall i :: 0 <= i < |fileContents| ==> WritePath(dir, fileContents, i) != k) ==>
      (k in WrittenAll(files, dir, fileContents, faults).files <==> k in files) &&
      (k in files ==> WrittenAll(files, dir, fileContents, faults).files[k] == files[k])
  {
    forall i | 0 <= i < |fileContents| && WritePath(dir, fileContents, i) == k && k !in faults
      ensures k in WrittenAll(files, dir, fileContents, faults).files &&
        WrittenAll(files, dir, fileContents, faults).files[k] == fileContents[i].content
    {
      WrittenAllHolds(files, dir, fileContents, faults, i);
    }
    if k in faults || forall i :: 0 <= i < |fileContents| ==> WritePath(dir, fileContents, i) != k {
      WrittenAllKeepsOthers(files, dir, fileContents, faults, k);
    }
  }

  // ---------------------------------------------------------------------------
  // File names

  /**
   * The characters of `badFilenameChars` as a regular-expression class:
   * the RE2 `\s` class (tab, newline, form feed, carriage return, space) and
   * the listed punctuation.
   */
  predicate BadFilenameChar(c: char)
  {
    || c == '\t' || c == '\n' || c == '\U{c}' || c == '\r' || c == ' '
    || c == '!' || c == '@' || c == '#' || c == '$' || c == '%' || c == '^' || c == '&' || c == '*'
    || c == '(' || c == ')' || c == '+' || c == '=' || c == '[' || c == ']' || c == '\\' || c == '{'
    || c == '}' || c == '|' || c == ';' || c == ':' || c == '\'' || c == '"' || c == ',' || c == '<'
    || c == '>' || c == '/' || c == '?' || c == '~' || c == '`'
  }

  predicate NoBadChar(s: string)
  {
    forall i :: 0 <= i < |s| ==> !BadFilenameChar(s[i])
  }

  /** `s` without its leading run of bad characters. */
  function SkipBad(s: string): (r: string)
    ensures |r| <= |s| && (r == [] || !BadFilenameChar(r[0]))
    ensures r == s[|s| - |r|..]
    ensures forall i :: 0 <= i < |s| - |r| ==> BadFilenameChar(s[i])
  {
    if s != [] && BadFilenameChar(s[0]) then SkipBad(s[1..]) else s
  }

  /** `NormFilename`: every maximal run of bad characters becomes a single "_". */
  function NormFilename(s: string): (r: string)
    ensures NoBadChar(r)
    ensures |r| <= |s|
  {
    if s == [] then ""
    else if BadFilenameChar(s[0]) then "_" + NormFilename(SkipBad(s))
    else [s[0]] + NormFilename(s[1..])
  }

  /**
   * Reference reading of `NormFilename`, one character at a time: a bad
   * character writes "_" unless the previous character was bad too.
   */
  function NormFrom(s: string, afterBad: bool): string
  {
    if s == [] then ""
    else if BadFilenameChar(s[0]) then (if afterBad then "" else "_") + NormFrom(s[1..], true)
    else [s[0]] + NormFrom(s[1..], false)
  }

  /** After a bad character, a run of bad characters still to come writes nothing. */
  lemma {:induction false} NormFromSkips(s: string)
    ensures NormFrom(s, true) == NormFrom(SkipBad(s), true)
    ensures SkipBad(s) == [] || NormFrom(SkipBad(s), true) == NormFrom(SkipBad(s), false)
  {
    if s != [] && BadFilenameChar(s[0]) {
      NormFromSkips(s[1..]);
    }
  }

  /** The run-collapsing definition agrees with the character-at-a-time reading. */
  lemma {:induction false} NormFilenameIsNormFrom(s: string)
    ensures NormFilename(s) == NormFrom(s, false)
    decreases |s|
  {
    if s != [] {
      if BadFilenameChar(s[0]) {
        NormFromSkips(s[1..]);
        var t := SkipBad(s);
        assert SkipBad(s) == SkipBad(s[1..]);
        NormFilenameIsNormFrom(t);
        if t == [] {
        } else {
          assert NormFrom(t, true) == NormFrom(t, false);
        }
      } else {
        NormFilenameIsNormFrom(s[1..]);
      }
    }
  }

  /** A name with no bad character is left as it is, and only such a name is. */
  lemma {:induction false} NormFilenameFixedIff(s: string)
    ensures NormFilename(s) == s <==> NoBadChar(s)
  {
    if NoBadChar(s) {
      NormFilenameKeepsGood(s);
    } else {
      assert !NoBadChar(NormFilename(s)) || NormFilename(s) != s;
    }
  }

  lemma {:induction false} NormFilenameKeepsGood(s: string)
    requires NoBadChar(s)
    ensures NormFilename(s) == s
  {
    if s != [] {
      NormFilenameKeepsGood(s[1..]);
    }
  }

  /** Normalising a normalised name changes nothing. */
  lemma NormFilenameIdempotent(s: string)
    ensures NormFilename(NormFilename(s)) == NormFilename(s)
  {
    NormFilenameKeepsGood(NormFilename(s));
  }

  /** Collapsing runs: one bad character in a good name gives the name with "_" there. */
  lemma NormFilenameOneBad(a: string, c: char, b: string)
    requires NoBadChar(a) && NoBadChar(b) && BadFilenameChar(c)
    ensures NormFilename(a + [c] + b) == a + "_" + b
  {
    assert a + [c] + b == a + ([c] + b);
    NormFilenameGoodPrefix(a, [c] + b);
    assert ([c] + b)[1..] == b;
    assert SkipBad([c] + b) == b;
    NormFilenameKeepsGood(b);
  }

  /** A prefix with no bad character is copied as it is. */
  lemma {:induction false} NormFilenameGoodPrefix(a: string, rest: string)
    requires NoBadChar(a)
    ensures NormFilename(a + rest) == a + NormFilename(rest)
  {
    if a != [] {
      var s := a + rest;
      var tail := a[1..];
      assert s[0] == a[0] && !BadFilenameChar(a[0]);
      assert s[1..] == tail + rest;
      assert NoBadChar(tail);
      NormFilenameGoodPrefix(tail, rest);
      var n := NormFilename(rest);
      assert NormFilename(s) == [a[0]] + (tail + n);
      assert [a[0]] + (tail + n) == ([a[0]] + tail) + n;
      assert [a[0]] + tail == a;
    } else {
      assert a + rest == rest;
    }
  }

  /** `FilenameSuffixes.IsMatch`: some listed suffix ends the name. */
  function IsMatch(suffixes: seq<string>, filename: string): (r: bool)
    ensures r <==> exists i :: 0 <= i < |suffixes| && HasSuffix(filename, suffixes[i])
  {
    if suffixes == [] then false
    else if HasSuffix(filename, suffixes[0]) then true
    else
      var m := IsMatch(suffixes[1..], filename);
      assert forall i :: 1 <= i < |suffixes| ==> suffixes[i] == suffixes[1..][i - 1];
      m
  }

  // ---------------------------------------------------------------------------
  // Scanning a directory tree

  /** What `os.ReadFile` gives for a file. */
  datatype FileData = Bytes(content: string) | ReadFailed(reason: string)

  /** What `os.ReadDir` gives for a directory: its entries in order, or an error. */
  datatype Listing = Entries(entries: seq<Entry>) | ListFailed(reason: string)

  /** One directory entry: a file with what reading it gives, or a sub-directory with its listing. */
  datatype Entry = FileEntry(name: string, data: FileData) | DirEntry(name: string, listing: Listing)

  /** The files handed to the consumer, in order, and the error the scan returns. */
  datatype Scan = Scan(consumed: seq<FileContent>, err: Option<Err>)

  function Prepend(consumed: seq<FileContent>, r: Scan): Scan
  {
    Scan(consumed + r.consumed, r.err)
  }

  /**
   * `ScanDir(dir)` over the tree `l` that `os.ReadDir(dir)` gives: recurse into
   * sub-directories, hand every file whose name matches a suffix to `consume`,
   * and stop at the first error. `consume` is the consumer's outcome for a path
   * and its content.
   */
  function Scanned(dir: string, l: Listing, suffixes: seq<string>, consume: (string, string) -> Option<Err>): Scan
    decreases l, 1
  {
    match l
    case ListFailed(reason) => Scan([], Some(Wrapped("scan dir " + Quote(dir) + " error", Sys(reason))))
    case Entries(es) => ScannedFrom(dir, l, 0, suffixes, consume)
  }

  /** The scan of the entries of `l` from index `i` on. */
  function ScannedFrom(dir: string, l: Listing, i: nat, suffixes: seq<string>, consume: (string, string) -> Option<Err>): Scan
    requires l.Entries? && i <= |l.entries|
    decreases l, 0, |l.entries| - i
  {
    if i == |l.entries| then Scan([], None)
    else
      var e := l.entries[i];
      var path := JoinPath(dir, e.name);
      match e
      case DirEntry(_, sub) =>
        var r := Scanned(path, sub, suffixes, consume);
        if r.err.Some? then r else Prepend(r.consumed, ScannedFrom(dir, l, i + 1, suffixes, consume))
      case FileEntry(name, data) =>
        if !IsMatch(suffixes, name) then ScannedFrom(dir, l, i + 1, suffixes, consume)
        else match data
          case ReadFailed(reason) => Scan([], Some(Wrapped("read file " + Quote(path) + " error", Sys(reason))))
          case Bytes(content) =>
            var ce := consume(path, content);
            if ce.Some? then Scan([FileContent(path, content)], Some(Wrapped("consume file content " + Quote(path) + " error", ce.value)))
            else Prepend([FileContent(path, content)], ScannedFrom(dir, l, i + 1, suffixes, consume))
  }

  method ScanDir(dir: string, l: Listing, suffixes: seq<string>, consume: (string, string) -> Option<Err>)
    returns (consumed: seq<FileContent>, err: Option<Err>)
    ensures Scan(consumed, err) == Scanned(dir, l, suffixes, consume)
    decreases l
  {
    consumed, err := [], None;
    if l.ListFailed? {
      return consumed, Some(Wrapped("scan dir " + Quote(dir) + " error", Sys(l.reason)));
    }
    var files := l.entries;
    for i := 0 to |files|
      invariant Scanned(dir, l, suffixes, consume) == Prepend(consumed, ScannedFrom(dir, l, i, suffixes, consume))
    {
      var file := files[i];
      var filepath := JoinPath(dir, file.name);
      if file.DirEntry? {
        var sub, e := ScanDir(filepath, file.listing, suffixes, consume);
        if e.Some? {
          return consumed + sub, e;
        }
        consumed := consumed + sub;
        continue;
      }
      if !IsMatch(suffixes, file.name) {
        continue;
      }
      if file.data.ReadFailed? {
        return consumed, Some(Wrapped("read file " + Quote(filepath) + " error", Sys(file.data.reason)));
      }
      var content := file.data.content;
      var ce := consume(filepath, content);
      consumed := consumed + [FileContent(filepath, content)];
      if ce.Some? {
        return consumed, Some(Wrapped("consume file content " + Quote(filepath) + " error", ce.value));
      }
    }
    assert consumed + [] == consumed;
  }

  /** Reference: every file of the tree whose name matches and that can be read, in scan order. */
  function Matching(dir: string, l: Listing, suffixes: seq<string>): seq<FileContent>
    decreases l, 1
  {
    match l
    case ListFailed(_) => []
    case Entries(_) => MatchingFrom(dir, l, 0, suffixes)
  }

  function MatchingFrom(dir: string, l: Listing, i: nat, suffixes: seq<string>): seq<FileContent>
    requires l.Entries? && i <= |l.entries|
    decreases l, 0, |l.entries| - i
  {
    if i == |l.entries| then []
    else
      var e := l.entries[i];
      var path := JoinPath(dir, e.name);
      var here := match e
        case DirEntry(_, sub) => Matching(path, sub, suffixes)
        case FileEntry(name, data) =>
          if IsMatch(suffixes, name) && data.Bytes? then [FileContent(path, data.content)] else [];
      here + MatchingFrom(dir, l, i + 1, suffixes)
  }

  /** Reference: every directory of the tree can be listed, every matching file read, and the consumer accepts each. */
  predicate Clean(dir: string, l: Listing, suffixes: seq<string>, consume: (string, string) -> Option<Err>)
    decreases l, 1
  {
    l.Entries? && CleanFrom(dir, l, 0, suffixes, consume)
  }

  predicate CleanFrom(dir: string, l: Listing, i: nat, suffixes: seq<string>, consume: (string, string) -> Option<Err>)
    requires l.Entries? && i <= |l.entries|
    decreases l, 0, |l.entries| - i
  {
    if i == |l.entries| then true
    else
      var e := l.entries[i];
      var path := JoinPath(dir, e.name);
      && (match e
          case DirEntry(_, sub) => Clean(path, sub, suffixes, consume)
          case FileEntry(name, data) =>
            IsMatch(suffixes, name) ==> data.Bytes? && consume(path, data.content).None?)
      && CleanFrom(dir, l, i + 1, suffixes, consume)
  }

  predicate IsPrefix(a: seq<FileContent>, b: seq<FileContent>)
  {
    |a| <= |b| && b[..|a|] == a
  }

  lemma PrefixExtend(a: seq<FileContent>, b: seq<FileContent>, c: seq<FileContent>, d: seq<FileContent>)
    requires IsPrefix(a, b)
    ensures IsPrefix(a, b + d)
    ensures IsPrefix(c + a, c + b)
  {
    assert (b + d)[..|a|] == b[..|a|];
    assert (c + b)[..|c + a|] == c + b[..|a|];
  }

  /**
   * The scan hands the consumer a prefix of the matching files, in order; it
   * returns no error exactly when nothing fails, and then it has handed over
   * every matching file.
   */
  lemma {:induction false} ScanAgainstMatching(dir: string, l: Listing, suffixes: seq<string>, consume: (string, string) -> Option<Err>)
    ensures IsPrefix(Scanned(dir, l, suffixes, consume).consumed, Matching(dir, l, suffixes))
    ensures Scanned(dir, l, suffixes, consume).err.None? <==> Clean(dir, l, suffixes, consume)
    ensures Scanned(dir, l, suffixes, consume).err.None? ==> Scanned(dir, l, suffixes, consume).consumed == Matching(dir, l, suffixes)
    decreases l, 1
  {
    if l.Entries? {
      ScanFromAgainstMatching(dir, l, 0, suffixes, consume);
    }
  }

  lemma {:induction false} ScanFromAgainstMatching(dir: string, l: Listing, i: nat, suffixes: seq<string>, consume: (string, string) -> Option<Err>)
    requires l.Entries? && i <= |l.entries|
    ensures IsPrefix(ScannedFrom(dir, l, i, suffixes, consume).consumed, MatchingFrom(dir, l, i, suffixes))
    ensures ScannedFrom(dir, l, i, suffixes, consume).err.None? <==> CleanFrom(dir, l, i, suffixes, consume)
    ensures ScannedFrom(dir, l, i, suffixes, consume).err.None? ==>
      ScannedFrom(dir, l, i, suffixes, consume).consumed == MatchingFrom(dir, l, i, suffixes)
    decreases l, 0, |l.entries| - i
  {
    if i < |l.entries| {
      var e := l.entries[i];
      var path := JoinPath(dir, e.name);
      var rest := ScannedFrom(dir, l, i + 1, suffixes, consume);
      var mest := MatchingFrom(dir, l, i + 1, suffixes);
      ScanFromAgainstMatching(dir, l, i + 1, suffixes, consume);
      match e
      case DirEntry(_, sub) =>
        var r := Scanned(path, sub, suffixes, consume);
        var m := Matching(path, sub, suffixes);
        ScanAgainstMatching(path, sub, suffixes, consume);
        PrefixExtend(r.consumed, m, [], mest);
        PrefixExtend(rest.consumed, mest, r.consumed, []);
      case FileEntry(name, data) =>
        if IsMatch(suffixes, name) && data.Bytes? {
          PrefixExtend(rest.consumed, mest, [FileContent(path, data.content)], []);
          PrefixExtend([FileContent(path, data.content)], [FileContent(path, data.content)], [], mest);
        }
    }
  }

  /** The consumer accepts the file. */
  predicate Accepted(consume: (string, string) -> Option<Err>, f: FileContent)
  {
    consume(f.filename, f.content).None?
  }

  /**
   * The scan stops at the first file the consumer rejects: every file handed
   * over before the last one was accepted, and on success all of them were.
   */
  lemma {:induction false} ScanStops(dir: string, l: Listing, suffixes: seq<string>, consume: (string, string) -> Option<Err>)
    ensures var s := Scanned(dir, l, suffixes, consume);
      forall k :: 0 <= k < |s.consumed| - 1 ==> Accepted(consume, s.consumed[k])
    ensures var s := Scanned(dir, l, suffixes, consume);
      s.err.None? ==> forall k :: 0 <= k < |s.consumed| ==> Accepted(consume, s.consumed[k])
    decreases l, 1
  {
    if l.Entries? {
      ScanFromStops(dir, l, 0, suffixes, consume);
    }
  }

  lemma {:induction false} ScanFromStops(dir: string, l: Listing, i: nat, suffixes: seq<string>, consume: (string, string) -> Option<Err>)
    requires l.Entries? && i <= |l.entries|
    ensures var s := ScannedFrom(dir, l, i, suffixes, consume);
      forall k :: 0 <= k < |s.consumed| - 1 ==> Accepted(consume, s.consumed[k])
    ensures var s := ScannedFrom(dir, l, i, suffixes, consume);
      s.err.None? ==> forall k :: 0 <= k < |s.consumed| ==> Accepted(consume, s.consumed[k])
    decreases l, 0, |l.entries| - i
  {
    if i < |l.entries| {
      var e := l.entries[i];
      ScanFromStops(dir, l, i + 1, suffixes, consume);
      match e
      case DirEntry(_, sub) =>
        var r := Scanned(JoinPath(dir, e.name), sub, suffixes, consume);
        ScanStops(JoinPath(dir, e.name), sub, suffixes, consume);
        if r.err.None? {
          var rest := ScannedFrom(dir, l, i + 1, suffixes, consume);
          var all := r.consumed + rest.consumed;
          assert ScannedFrom(dir, l, i, suffixes, consume) == Scan(all, rest.err);
          assert forall k :: 0 <= k < |r.consumed| ==> all[k] == r.consumed[k];
          assert forall k :: |r.consumed| <= k < |all| ==> all[k] == rest.consumed[k - |r.consumed|];
        } else {
          assert ScannedFrom(dir, l, i, suffixes, consume) == r;
        }
      case FileEntry(_, _) =>
    }
  }

  /** What the scan meets, in order: a readable matching file, an unreadable one, or a directory it cannot list. */
  datatype ScanEvent = Readable(file: FileContent) | Unreadable(path: string) | Unlisted(dir: string)

  /** Reference: the events of the whole tree, in scan order, as if the scan never stopped. */
  function Events(dir: string, l: Listing, suffixes: seq<string>): seq<ScanEvent>
    decreases l, 1
  {
    match l
    case ListFailed(_) => [Unlisted(dir)]
    case Entries(_) => EventsFrom(dir, l, 0, suffixes)
  }

  function EventsFrom(dir: string, l: Listing, i: nat, suffixes: seq<string>): seq<ScanEvent>
    requires l.Entries? && i <= |l.entries|
    decreases l, 0, |l.entries| - i
  {
    if i == |l.entries| then []
    else
      var e := l.entries[i];
      var path := JoinPath(dir, e.name);
      var here := match e
        case DirEntry(_, sub) => Events(path, sub, suffixes)
        case FileEntry(name, data) =>
          if !IsMatch(suffixes, name) then []
          else if data.Bytes? then [Readable(FileContent(path, data.content))]
          else [Unreadable(path)];
      here + EventsFrom(dir, l, i + 1, suffixes)
  }

  /** An event at which the scan stops: a failed listing or read, or a file the consumer rejects. */
  predicate Stops(consume: (string, string) -> Option<Err>, ev: ScanEvent)
  {
    !ev.Readable? || !Accepted(consume, ev.file)
  }

  predicate Halts(consume: (string, string) -> Option<Err>, evs: seq<ScanEvent>)
  {
    evs != [] && (Stops(consume, evs[0]) || Halts(consume, evs[1..]))
  }

  /** Reference: the files handed over when the events are taken in order up to and including the first stop. */
  function HandedOver(consume: (string, string) -> Option<Err>, evs: seq<ScanEvent>): seq<FileContent>
  {
    if evs == [] then []
    else
      (if evs[0].Readable? then [evs[0].file] else [])
      + (if Stops(consume, evs[0]) then [] else HandedOver(consume, evs[1..]))
  }

  /** Taking events in order splits at a seam: the second part counts only if the first did not stop. */
  lemma {:induction false} HandedOverConcat(consume: (string, string) -> Option<Err>, a: seq<ScanEvent>, b: seq<ScanEvent>)
    ensures Halts(consume, a + b) <==> Halts(consume, a) || Halts(consume, b)
    ensures HandedOver(consume, a + b) ==
      if Halts(consume, a) then HandedOver(consume, a) else HandedOver(consume, a) + HandedOver(consume, b)
  {
    if a == [] {
      assert a + b == b;
    } else {
      assert (a + b)[1..] == a[1..] + b;
      HandedOverConcat(consume, a[1..], b);
    }
  }

  /** An event that stops the scan makes the events halt. */
  lemma {:induction false} HaltsAt(consume: (string, string) -> Option<Err>, evs: seq<ScanEvent>, j: nat)
    requires j < |evs| && Stops(consume, evs[j])
    ensures Halts(consume, evs)
  {
    if j > 0 {
      HaltsAt(consume, evs[1..], j - 1);
    }
  }

  /** Nothing after a stopping event is handed over. */
  lemma HandedOverCut(consume: (string, string) -> Option<Err>, evs: seq<ScanEvent>, j: nat)
    requires j < |evs| && Stops(consume, evs[j])
    ensures HandedOver(consume, evs) == HandedOver(consume, evs[..j + 1])
  {
    assert evs == evs[..j + 1] + evs[j + 1..];
    assert evs[..j + 1][j] == evs[j];
    HaltsAt(consume, evs[..j + 1], j);
    HandedOverConcat(consume, evs[..j + 1], evs[j + 1..]);
  }

  /**
   * The scan takes the tree's events in order and stops at the first failed
   * listing, failed read or rejected file: it hands over exactly the files
   * read up to that point (the rejected one included), and returns an error
   * exactly when such an event exists.
   */
  lemma {:induction false} ScanAgainstEvents(dir: string, l: Listing, suffixes: seq<string>, consume: (string, string) -> Option<Err>)
    ensures Scanned(dir, l, suffixes, consume).consumed == HandedOver(consume, Events(dir, l, suffixes))
    ensures Scanned(dir, l, suffixes, consume).err.Some? <==> Halts(consume, Events(dir, l, suffixes))
    decreases l, 1
  {
    if l.Entries? {
      ScanFromAgainstEvents(dir, l, 0, suffixes, consume);
    } else {
      assert [Unlisted(dir)][1..] == [];
    }
  }

  lemma {:induction false} ScanFromAgainstEvents(dir: string, l: Listing, i: nat, suffixes: seq<string>, consume: (string, string) -> Option<Err>)
    requires l.Entries? && i <= |l.entries|
    ensures ScannedFrom(dir, l, i, suffixes, consume).consumed == HandedOver(consume, EventsFrom(dir, l, i, suffixes))
    ensures ScannedFrom(dir, l, i, suffixes, consume).err.Some? <==> Halts(consume, EventsFrom(dir, l, i, suffixes))
    decreases l, 0, |l.entries| - i
  {
    if i < |l.entries| {
      var e := l.entries[i];
      var path := JoinPath(dir, e.name);
      var rest := EventsFrom(dir, l, i + 1, suffixes);
      ScanFromAgainstEvents(dir, l, i + 1, suffixes, consume);
      match e
      case DirEntry(_, sub) =>
        ScanAgainstEvents(path, sub, suffixes, consume);
        HandedOverConcat(consume, Events(path, sub, suffixes), rest);
      case FileEntry(name, data) =>
        var here := if !IsMatch(suffixes, name) then []
          else if data.Bytes? then [Readable(FileContent(path, data.content))]
          else [Unreadable(path)];
        assert EventsFrom(dir, l, i, suffixes) == here + rest;
        HandedOverConcat(consume, here, rest);
        if here != [] {
          assert here[1..] == [];
        }
    }
  }

  lemma HasSuffixExtend(pre: string, s: string, suffix: string)
    requires HasSuffix(s, suffix)
    ensures HasSuffix(pre + s, suffix)
  {
    assert (pre + s)[|pre + s| - |suffix|..] == s[|s| - |suffix|..];
  }

  /** Every matching file's path, like its name, ends with one of the suffixes. */
  lemma {:induction false} MatchingPathsMatch(dir: string, l: Listing, suffixes: seq<string>)
    ensures forall k :: 0 <= k < |Matching(dir, l, suffixes)| ==> IsMatch(suffixes, Matching(dir, l, suffixes)[k].filename)
    decreases l, 1
  {
    if l.Entries? {
      MatchingFromPathsMatch(dir, l, 0, suffixes);
    }
  }

  lemma {:induction false} MatchingFromPathsMatch(dir: string, l: Listing, i: nat, suffixes: seq<string>)
    requires l.Entries? && i <= |l.entries|
    ensures forall k :: 0 <= k < |MatchingFrom(dir, l, i, suffixes)| ==> IsMatch(suffixes, MatchingFrom(dir, l, i, suffixes)[k].filename)
    decreases l, 0, |l.entries| - i
  {
    if i < |l.entries| {
      var e := l.entries[i];
      var path := JoinPath(dir, e.name);
      MatchingFromPathsMatch(dir, l, i + 1, suffixes);
      match e
      case DirEntry(_, sub) =>
        MatchingPathsMatch(path, sub, suffixes);
      case FileEntry(name, data) =>
        if IsMatch(suffixes, name) && data.Bytes? {
          var j :| 0 <= j < |suffixes| && HasSuffix(name, suffixes[j]);
          if dir != "" {
            assert path == (dir + "/") + name;
            HasSuffixExtend(dir + "/", name, suffixes[j]);
          }
          assert IsMatch(suffixes, path);
        }
    }
  }
}
