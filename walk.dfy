/**
 * The decision walkHandler makes for one directory entry: emit nothing, or
 * emit exactly one fileStat. The file-system calls and the regular expression
 * are parameters; the goroutine and the channel send around the decision are
 * not part of this model.
 */
module Walk {
  import opened Wrappers
  import opened Types

  /** filepath.EvalSymlinks, os.Stat and os.Lstat, each succeeding or failing per path. */
  datatype FileSystem = FileSystem(
    evalSymlinks: string -> Result<string, GoError>,
    stat: string -> Result<FileInfo, GoError>,
    lstat: string -> Result<FileInfo, GoError>)

  /** A godirwalk.Dirent: the entry's name and the type bits of its mode. */
  datatype Dirent = Dirent(name: string, modeType: FileMode)
  {
    /** Dirent.IsSymlink. */
    predicate IsSymlink() {
      modeType & ModeSymlink != 0
    }
  }

  /** godirwalk.ErrorAction. */
  datatype ErrorAction = Halt | SkipNode

  /**
   * checkRegularOrSymlink: a mode passes when it is a symlink or carries no
   * type bit at all, so directories, devices, pipes, sockets and irregular
   * files are turned away whatever their permission bits.
   */
  function CheckRegularOrSymlink(mode: FileMode): (ok: bool)
    ensures ok <==> mode & ModeSymlink != 0
                    || mode & (ModeDir | ModeDevice | ModeNamedPipe | ModeSocket | ModeCharDevice | ModeIrregular) == 0
  {
    IsRegular(mode) || mode & ModeSymlink != 0
  }

  /**
   * The symlink step: the target EvalSymlinks reports, or, when it fails,
   * the path carried by its *os.PathError ("" for any other error), and
   * the resolution error itself.
   */
  function Resolve(path: string, de: Dirent, fs: FileSystem): (string, Option<GoError>)
  {
    if !de.IsSymlink() then ("", None)
    else
      match fs.evalSymlinks(path)
      case Ok(target) => (target, None)
      case Err(e) => (if e.PathError? then e.path else "", Some(e))
  }

  /**
   * Only a symlink is resolved: any other entry keeps an empty target and no
   * error, whatever EvalSymlinks would answer. A failed resolution keeps
   * EvalSymlinks' error and, for a PathError, its path as the target.
   */
  lemma ResolveOnlyFollowsSymlinks(path: string, de: Dirent, fs: FileSystem, other: FileSystem)
    ensures !de.IsSymlink() ==> Resolve(path, de, fs) == ("", None) == Resolve(path, de, other)
    ensures Resolve(path, de, fs).1.None? <==> !de.IsSymlink() || fs.evalSymlinks(path).Ok?
    ensures de.IsSymlink() && fs.evalSymlinks(path).Err? ==>
              var e := fs.evalSymlinks(path).error;
              Resolve(path, de, fs) == (if e.PathError? then e.path else "", Some(e))
  {
  }

  /** The path that is stat'd: the target when there is one, the entry's own path otherwise. */
  function Resolved(path: string, de: Dirent, fs: FileSystem): string
  {
    var target := Resolve(path, de, fs).0;
    if target != "" then target else path
  }

  /** os.Stat of the resolved path, skipped (and failing with the resolution error) when resolution failed. */
  function StatResolved(path: string, de: Dirent, fs: FileSystem): Result<FileInfo, GoError>
  {
    var err := Resolve(path, de, fs).1;
    if err.Some? then Err(err.value) else fs.stat(Resolved(path, de, fs))
  }

  /** The ids from Sys(), when it is a *syscall.Stat_t. */
  function Uid(info: FileInfo): Option<uint32> {
    if info.sys.Some? then Some(info.sys.value.uid) else None
  }

  function Gid(info: FileInfo): Option<uint32> {
    if info.sys.Some? then Some(info.sys.value.gid) else None
  }

  /** The tail of walkHandler: drop a mode that is not regular or symlink, otherwise record the metadata. */
  function Record(path: string, info: FileInfo, target: string, err: Option<GoError>): Option<FileStat>
  {
    if !CheckRegularOrSymlink(info.mode) then None
    else Some(FileStat(path, Some(info.mode), Uid(info), Gid(info), Some(info.size), Some(info.modTime), target, err))
  }

  /** walkHandler: what one entry found by the walk contributes to the stats stream. */
  function WalkHandler(path: string, matches: string -> bool, de: Dirent, fs: FileSystem): (r: Option<FileStat>)
    ensures !CheckRegularOrSymlink(de.modeType) || !matches(path) ==> r.None?
    ensures r.Some? ==> r.value.path == path && r.value.target == Resolve(path, de, fs).0
    ensures r.Some? ==> r.value.mode.Some? && CheckRegularOrSymlink(r.value.mode.value)
    ensures r.Some? && r.value.err.None? ==> StatResolved(path, de, fs).Ok?
    ensures r.Some? && r.value.err.Some? ==>
              StatResolved(path, de, fs).Err? && r.value.err.value == StatResolved(path, de, fs).error
  {
    var mode := de.modeType;
    if !CheckRegularOrSymlink(mode) || !matches(path) then None
    else
      var target := Resolve(path, de, fs).0;
      match StatResolved(path, de, fs)
      case Ok(info) => Record(path, info, target, None)
      case Err(err) =>
        match fs.lstat(path)
        case Err(_) => Some(FileStat(path, Some(mode), None, None, None, None, target, Some(err)))
        case Ok(info) => Record(path, info, target, Some(err))
  }

  /** walkErrorCallback: a traversal error becomes a record of the path and the error alone; the walk skips the node. */
  function WalkErrorCallback(path: string, err: GoError): (r: (FileStat, ErrorAction))
    ensures r.0.path == path && r.0.err == Some(err) && r.0.target == ""
    ensures r.0.mode.None? && r.0.uid.None? && r.0.gid.None? && r.0.size.None? && r.0.modTime.None?
    ensures r.1 == SkipNode
  {
    (FileStat(path, None, None, None, None, None, "", Some(err)), SkipNode)
  }

  /** Entries passing the filter: an acceptable raw mode and a path the regular expression matches. */
  predicate Selected(path: string, matches: string -> bool, de: Dirent) {
    CheckRegularOrSymlink(de.modeType) && matches(path)
  }

  // ---------------------------------------------------------------------------
  // Properties of the decision

  /** The type bits alone decide the filter: permission bits never matter. */
  lemma PermissionBitsIgnored(mode: FileMode)
    ensures CheckRegularOrSymlink(mode) == CheckRegularOrSymlink(mode & ModeType)
  {
  }

  /** Nothing is emitted for an entry the filter turns away. */
  lemma FilteredEntryEmitsNothing(path: string, matches: string -> bool, de: Dirent, fs: FileSystem)
    requires !Selected(path, matches, de)
    ensures WalkHandler(path, matches, de, fs).None?
  {
  }

  /**
   * A symlink whose resolution fails with a *os.PathError records that
   * error's path as the target, never consults os.Stat, and falls back to
   * os.Lstat of the entry's own path.
   */
  lemma PathErrorSkipsStat(path: string, matches: string -> bool, de: Dirent, fs: FileSystem,
                           op: string, errPath: string, cause: string,
                           otherStat: string -> Result<FileInfo, GoError>)
    requires Selected(path, matches, de) && de.IsSymlink()
    requires fs.evalSymlinks(path) == Err(PathError(op, errPath, cause))
    ensures WalkHandler(path, matches, de, fs) == WalkHandler(path, matches, de, fs.(stat := otherStat))
    ensures var r := WalkHandler(path, matches, de, fs);
            r.Some? ==> r.value.target == errPath && r.value.err == Some(PathError(op, errPath, cause))
    ensures fs.lstat(path).Ok? ==>
              WalkHandler(path, matches, de, fs) == Record(path, fs.lstat(path).value, errPath, Some(PathError(op, errPath, cause)))
  {
  }

  /**
   * When resolution or os.Stat fails and os.Lstat fails too, exactly one
   * record is emitted: path, raw entry mode, target and the first error, and
   * no size, ids or modification time.
   */
  lemma BothStatsFail(path: string, matches: string -> bool, de: Dirent, fs: FileSystem)
    requires Selected(path, matches, de)
    requires StatResolved(path, de, fs).Err? && fs.lstat(path).Err?
    ensures WalkHandler(path, matches, de, fs)
            == Some(FileStat(path, Some(de.modeType), None, None, None, None,
                             Resolve(path, de, fs).0, Some(StatResolved(path, de, fs).error)))
  {
  }

  /**
   * When resolution or os.Stat fails but os.Lstat succeeds, the record
   * carries Lstat's metadata together with the original, non-nil error.
   */
  lemma LstatFallback(path: string, matches: string -> bool, de: Dirent, fs: FileSystem)
    requires Selected(path, matches, de)
    requires StatResolved(path, de, fs).Err? && fs.lstat(path).Ok?
    requires CheckRegularOrSymlink(fs.lstat(path).value.mode)
    ensures var info := fs.lstat(path).value;
            WalkHandler(path, matches, de, fs)
            == Some(FileStat(path, Some(info.mode), Uid(info), Gid(info), Some(info.size), Some(info.modTime),
                             Resolve(path, de, fs).0, Some(StatResolved(path, de, fs).error)))
  {
  }

  /** The mode that was stat'd decides last: a link to a directory (or any non-regular, non-symlink mode) is dropped. */
  lemma StatModeDecides(path: string, matches: string -> bool, de: Dirent, fs: FileSystem)
    requires Selected(path, matches, de)
    ensures StatResolved(path, de, fs).Ok? ==>
              var info := StatResolved(path, de, fs).value;
              WalkHandler(path, matches, de, fs).Some? <==> CheckRegularOrSymlink(info.mode)
    ensures StatResolved(path, de, fs).Err? && fs.lstat(path).Ok? ==>
              var info := fs.lstat(path).value;
              WalkHandler(path, matches, de, fs).Some? <==> CheckRegularOrSymlink(info.mode)
  {
  }

  /** A successful resolution and stat of a regular file or symlink yields one error-free record of its metadata. */
  lemma SuccessRecord(path: string, matches: string -> bool, de: Dirent, fs: FileSystem)
    requires Selected(path, matches, de)
    requires StatResolved(path, de, fs).Ok? && CheckRegularOrSymlink(StatResolved(path, de, fs).value.mode)
    ensures var info := StatResolved(path, de, fs).value;
            WalkHandler(path, matches, de, fs)
            == Some(FileStat(path, Some(info.mode), Uid(info), Gid(info), Some(info.size), Some(info.modTime),
                             Resolve(path, de, fs).0, None))
  {
  }

  /** A matched regular file that os.Stat reports as regular gives exactly one record with no error and no target. */
  lemma RegularFileRecorded(path: string, matches: string -> bool, de: Dirent, fs: FileSystem, info: FileInfo)
    requires IsRegular(de.modeType) && matches(path)
    requires fs.stat(path) == Ok(info) && IsRegular(info.mode)
    ensures WalkHandler(path, matches, de, fs)
            == Some(FileStat(path, Some(info.mode), Uid(info), Gid(info), Some(info.size), Some(info.modTime), "", None))
  {
  }

  /** A matched symlink to a regular file records the target and the target's metadata, with no error. */
  lemma SymlinkToFileRecorded(path: string, matches: string -> bool, de: Dirent, fs: FileSystem, target: string, info: FileInfo)
    requires de.IsSymlink() && matches(path)
    requires target != "" && fs.evalSymlinks(path) == Ok(target)
    requires fs.stat(target) == Ok(info) && IsRegular(info.mode)
    ensures WalkHandler(path, matches, de, fs)
            == Some(FileStat(path, Some(info.mode), Uid(info), Gid(info), Some(info.size), Some(info.modTime), target, None))
  {
  }

  /**
   * A matched dangling symlink is not dropped: when os.Lstat fails or
   * reports the link itself, exactly one record with the error is emitted.
   */
  lemma DanglingSymlinkRecorded(path: string, matches: string -> bool, de: Dirent, fs: FileSystem)
    requires de.IsSymlink() && matches(path)
    requires fs.evalSymlinks(path).Err?
    requires fs.lstat(path).Ok? ==> fs.lstat(path).value.mode & ModeSymlink != 0
    ensures var r := WalkHandler(path, matches, de, fs);
            r.Some? && r.value.path == path && r.value.err == Some(fs.evalSymlinks(path).error)
  {
  }

  /** A matched symlink to a directory is dropped. */
  lemma SymlinkToDirectoryDropped(path: string, matches: string -> bool, de: Dirent, fs: FileSystem, target: string, info: FileInfo)
    requires de.IsSymlink() && matches(path)
    requires target != "" && fs.evalSymlinks(path) == Ok(target)
    requires fs.stat(target) == Ok(info) && info.mode & ModeDir != 0 && info.mode & ModeSymlink == 0
    ensures WalkHandler(path, matches, de, fs).None?
  {
  }
}
