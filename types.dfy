/**
 * The values main.go works with: Go's fixed-width integers, the type bits of
 * os.FileMode, what os.Stat/os.Lstat report, Go errors, and the fileStat
 * record that one directory entry turns into.
 */
module Types {
  import opened Wrappers

  newtype uint32 = x: int | 0 <= x < 0x1_0000_0000
  newtype int64 = x: int | -0x8000_0000_0000_0000 <= x < 0x8000_0000_0000_0000

  /** os.FileMode is a uint32: type bits at the top, permission bits at the bottom. */
  type FileMode = bv32

  // The type bits of io/fs.FileMode (ModeDir is bit 31, counting down).
  const ModeDir: FileMode := 0x8000_0000
  const ModeSymlink: FileMode := 0x0800_0000
  const ModeDevice: FileMode := 0x0400_0000
  const ModeNamedPipe: FileMode := 0x0200_0000
  const ModeSocket: FileMode := 0x0100_0000
  const ModeCharDevice: FileMode := 0x0020_0000
  const ModeIrregular: FileMode := 0x0008_0000

  /** The mask of all type bits; a mode with none of them set is a regular file. */
  const ModeType: FileMode :=
    ModeDir | ModeSymlink | ModeNamedPipe | ModeSocket | ModeDevice | ModeCharDevice | ModeIrregular

  /** FileMode.IsRegular. */
  predicate IsRegular(m: FileMode) {
    m & ModeType == 0
  }

  /** A time.Time, kept as seconds and nanoseconds since the Unix epoch. */
  datatype Time = Time(unixSeconds: int, nanoseconds: int)

  /** The owner ids carried by syscall.Stat_t. */
  datatype StatT = StatT(uid: uint32, gid: uint32)

  /** An os.FileInfo; `sys` is absent when Sys() is not a *syscall.Stat_t. */
  datatype FileInfo = FileInfo(mode: FileMode, size: int64, modTime: Time, sys: Option<StatT>)

  /** A Go error: an *os.PathError, which names the path it failed on, or any other error. */
  datatype GoError = PathError(op: string, path: string, cause: string) | OtherError(text: string)
  {
    /** The text that err.Error() returns. */
    function Error(): string {
      match this
      case PathError(op, path, cause) => op + " " + path + ": " + cause
      case OtherError(text) => text
    }

    /** A PathError's text names the operation and then the path; any other error is its own text. */
    lemma PathErrorNamesPath()
      ensures PathError? ==> var t := Error();
                |op| + 1 + |path| <= |t| && t[..|op|] == op && t[|op| + 1..|op| + 1 + |path|] == path
      ensures OtherError? ==> Error() == text
    {
    }
  }

  /**
   * fileStat: the record for one entry. Pointer fields are optional; `target`
   * is "" when there is none and `err` is absent when nothing failed.
   */
  datatype FileStat = FileStat(
    path: string,
    mode: Option<FileMode>,
    uid: Option<uint32>,
    gid: Option<uint32>,
    size: Option<int64>,
    modTime: Option<Time>,
    target: string,
    err: Option<GoError>)
}
