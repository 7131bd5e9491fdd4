# filestats-bq in Dafny

filestats-bq walks a directory tree and writes one metadata record per file
into a BigQuery table. It comes in two forms, and this project models the
sequential logic of both.

`main.go` is the first form:

- Each entry found by the walk goes through `walkHandler`. It either emits nothing or emits exactly one `fileStat` record. Along the way it resolves symlinks, calls `os.Stat`, and falls back to `os.Lstat`.
- A traversal error becomes a record of its own through `walkErrorCallback`.
- `writeStats` turns every record into an eight-field, tab-separated row in the order of `getSchema`'s columns, and stops at the first failed write.
- Owner and group ids are named through a `nameMap` cache. `getOwner` fills the cache on first use.

`isilon_bq.py` is the second form, a PubSub worker:

- For each message it lists one page of an Isilon directory.
- It publishes a follow-up listing request for every sub-directory on that page, and one for the rest of the page when a resume token comes back.
- Only after every publish has resolved does it stream one row per entry, under insert ids `"<message id>.<i>"`, and ack the message.

Modules:

- `Wrappers`: `Option` and `Result`.
- `Types`: Go's `uint32` and `int64` as newtypes, and `os.FileMode` as `bv32` with the `io/fs` type bits. Also `os.FileInfo`, Go errors (an `*os.PathError` carries its path) and `fileStat`.
- `Decimal`: base-10 text of integers. This covers `fmt.Sprint` of an id, `strconv.FormatInt(n, 10)` and Python's `"{}".format(i)`, together with the parsers that invert them.
- `Walk`: `checkRegularOrSymlink`, `walkHandler` and `walkErrorCallback`, as pure functions. `EvalSymlinks`, `Stat`, `Lstat` and the regular expression are parameters (`FileSystem`, `matches`).
- `Owners`: the `nameMap` cache as the class `NameMap`, whose method `GetOwner` updates the map in place. The class also keeps two ghost fields:
  - `keys`, the ids it holds;
  - `log`, the ids the lookup was called for, in call order.
- `Serialize`: `getSchema`, and the row built for each record. `writeStats` is a loop over the records received, modelled by these methods:
  - `FormatRow`: one loop body up to the `Write` call;
  - `WriteNext`: one full iteration;
  - `WriteRows`: the loop, over two caches;
  - `WriteStats`: allocates the two caches and runs the loop.

  `writeErr(k)` is what the k-th `csv.Writer.Write` call returns. `FileMode.String` and `civil.DateTimeOf(t).String` are the parameters in `Formats`.
- `Isilon`: the `isilon_bq.py` logic. It covers `get_type`/`DirentType`, `get_path` (`posixpath.join`), `.strip('/')`, the `list_dir` keyword arguments, `insert_rows`' rows and ids, and the callback's fan-out.

  The Isilon listing call, the publish futures, the `insert_rows_json` call and `get_datetime` are parameters (`client`, `resolves`, `inserts`, `datetime`). An exception that ends the callback is an `Outcome`: `ListFailed`, `PublishFailed` or `InsertFailed`.

## Model

| member | source | states |
|---|---|---|
| `Types.GoError.Error` | main.go:299 | The text written for a record's error; its contract is stated by `Types.GoError.PathErrorNamesPath`. |
| `Types.GoError.PathErrorNamesPath` | main.go:299 | An `*os.PathError`'s text starts with the operation, then names the path after one separator; any other error's text is its own message. |
| `Walk.CheckRegularOrSymlink` | main.go:159-161 | A mode passes exactly when its symlink bit is set or it has none of the directory, device, pipe, socket, char-device and irregular bits. |
| `Walk.PermissionBitsIgnored` | main.go:159-161 | Only the type bits decide `checkRegularOrSymlink`: masking a mode down to `ModeType` never changes the answer. |
| `Walk.Resolve` | main.go:113-121 | Computes the target and the resolution error; its contract is stated by `Walk.ResolveOnlyFollowsSymlinks`. |
| `Walk.ResolveOnlyFollowsSymlinks` | main.go:113-121 | A non-symlink gets an empty target and no error, whatever `EvalSymlinks` would answer. The error is set exactly when a symlink fails to resolve; it is then `EvalSymlinks`' error, and the target is the `PathError`'s path (or "" for any other error). |
| `Walk.WalkHandler` | main.go:103-157 | Returns nothing for a non-regular, non-symlink raw mode or an unmatched path. Any record it emits has the entry's own path, the resolved target and a regular or symlink mode. The record carries an error exactly when resolution or `Stat` failed, and then that very error. |
| `Walk.FilteredEntryEmitsNothing` | main.go:109-112 | An entry whose raw mode fails `checkRegularOrSymlink`, or whose path the regex does not match, emits nothing, whatever the file system answers. |
| `Walk.PathErrorSkipsStat` | main.go:115-132 | When `EvalSymlinks` fails with a `PathError`, `Stat` is never consulted: any `stat` oracle gives the same result. The target is the error's `Path` and the error is kept. If `Lstat` of the original path succeeds, the record is built from `Lstat`'s metadata. |
| `Walk.BothStatsFail` | main.go:130-140 | When resolution/`Stat` fails and `Lstat` fails too, exactly one record is emitted. It holds the path, the raw entry mode, the target and the first error, and no uid, gid, size or time. |
| `Walk.LstatFallback` | main.go:130-155 | When resolution/`Stat` fails but `Lstat` succeeds with a regular or symlink mode, the record carries `Lstat`'s mode, ids, size and time together with the original non-nil error. |
| `Walk.StatModeDecides` | main.go:142-145 | Once a stat succeeds (`Stat`, or else `Lstat`), a record is emitted if and only if the mode it reports passes `checkRegularOrSymlink`. |
| `Walk.SuccessRecord` | main.go:126-155 | A successful resolution and `Stat` with an acceptable mode yields exactly one error-free record of the stat'd metadata and the target. |
| `Walk.RegularFileRecorded` | main.go:109-155 | A matched regular file that `Stat` reports regular gives one record with an empty target and no error. |
| `Walk.SymlinkToFileRecorded` | main.go:113-155 | A matched symlink whose target resolves to a regular file records the target and the target's metadata, with no error. |
| `Walk.DanglingSymlinkRecorded` | main.go:115-140 | A matched symlink whose resolution fails is still recorded, with the resolution error, when `Lstat` fails or reports the link itself. |
| `Walk.SymlinkToDirectoryDropped` | main.go:142-145 | A matched symlink to a directory emits nothing. |
| `Walk.WalkErrorCallback` | main.go:79-86 | A traversal error yields a record with only the path and the error, applying no filter, and the answer `SkipNode`. |
| `Decimal.NatToString` | main.go:330 | The text of an id is a non-empty string of digits, with a leading zero only for 0 and a single digit exactly below 10. |
| `Decimal.IntToString` | main.go:291 | The size text is non-empty digits, prefixed by '-' exactly for negative numbers. |
| `Decimal.ParseNatToString` | main.go:330 | Reading the printed id back gives the id: the text determines the number. |
| `Decimal.ParseIntToString` | main.go:291 | Reading a printed size back gives the size. |
| `Decimal.NatToStringInjective` | isilon_bq.py:114 | Different numbers never print the same, which is what keeps the insert ids apart. |
| `Decimal.IntToStringInjective` | main.go:291 | Different sizes never print the same. |
| `Owners.NameLookup` | main.go:340-345 | The lookup `getUser` passes to `getOwner` (`getGroup`'s, main.go:352-357, has the same shape); its contract is stated by `Owners.NameLookupFailsToEmpty`. |
| `Owners.NameLookupFailsToEmpty` | main.go:340-345 | A failed `user.LookupId` gives the name "", and a successful one gives the name found. |
| `Owners.NameMap.constructor` | main.go:279-280 | A new `nameMap{}` is empty, holds no ids and has made no lookup. |
| `Owners.NameMap.GetOwner` | main.go:320-334 | Cache behaviour: a nil id gives "" and leaves the map unchanged; a cached id gives the stored name with no lookup; a new id calls the lookup once, on its decimal text, and stores the answer (even "") under that id only. The name returned always equals the uncached answer, and every stored name is its lookup, given a lookup that answers the same for an id throughout a run (see Left out). |
| `Serialize.GetSchema` | main.go:230-265 | Eight columns with distinct names; only the first (Path) is required. |
| `Serialize.Row` | main.go:283-310 | Every row has exactly eight fields. |
| `Serialize.RowFollowsSchema` | main.go:230-310 | The row has one field per schema column, and field i is that record's value for the column named by `getSchema()[i]`. |
| `Serialize.AbsentFieldsEmpty` | main.go:283-300 | An absent mode, uid, gid, size, time or error is written as "". |
| `Serialize.SizeColumnReadsBack` | main.go:289-292 | A present size is written in base 10 and parses back to the same number. |
| `Serialize.TraceHoldsRecordIds` | main.go:279-288 | After n records, each cache holds exactly the user (or group) ids those records carry. |
| `Serialize.LookupsOncePer` | main.go:320-334 | Over any run of records the lookup is called for every id the cache holds and for no other id, and never twice for the same id. |
| `Serialize.Rows` | main.go:282-314 | n records give n rows. |
| `Serialize.RowsAt` | main.go:282-314 | The k-th row written is the row of the k-th record received. |
| `Serialize.FormatRow` | main.go:283-300 | One record's row equals `Row` with names from the two caches. Each cache gains the record's id and calls its lookup exactly when that id was new to it. |
| `Serialize.WriteNext` | main.go:282-313 | One loop iteration keeps the loop's state: rows so far, writes that succeeded, and each cache's ids and lookups for the records handled. |
| `Serialize.WriteRows` | main.go:282-315 | The rows written are those of the first records, in order. With no error, every record was written and every write succeeded. Otherwise the error is the last write's, every earlier write succeeded, and nothing follows it. Afterwards each cache is still consistent, and holds exactly the ids and lookups that `Trace` gives for the records handled. |
| `Serialize.WriteStats` | main.go:267-316 | From fresh caches: the rows written follow the records in order and stop at, and return, the first write error. The ids looked up are those `LookupsOncePer` describes. |
| `Isilon.Member` | isilon_bq.py:71-77 | `DirentType[name]` finds only a member whose name is `name`. |
| `Isilon.MemberFindsEveryName` | isilon_bq.py:71-77 | Every member is found by its own name. |
| `Isilon.GetType` | isilon_bq.py:76-79 | Renames a type name; its contract is stated by `Isilon.GetTypeMapsMembers`, `Isilon.GetTypeRenames` and `Isilon.GetTypeIdempotent`. |
| `Isilon.GetTypeMapsMembers` | isilon_bq.py:76-79 | A member's name becomes that member's value; any name that is not a member's is returned unchanged. |
| `Isilon.GetTypeRenames` | isilon_bq.py:71-78 | `container` becomes `dir`, `object` becomes `file`, `symbolic_link` becomes `symlink`. |
| `Isilon.GetTypeIdempotent` | isilon_bq.py:71-79 | No value is a member name, so applying `get_type` twice equals applying it once. |
| `Isilon.PathJoin` | isilon_bq.py:66 | `posixpath.join` of two parts; its contract is stated by `Isilon.PathJoinParts` and `Isilon.PathJoinSeparator`. |
| `Isilon.GetPath` | isilon_bq.py:65-66 | An entry's full path, the join of its container path and its name; its contract is stated by `Isilon.PathJoinParts` and `Isilon.ToRowFields`. |
| `Isilon.PathJoinParts` | isilon_bq.py:65-66 | An absolute name replaces the container path. Otherwise the path starts with the container path and adds at most one separator. Either way it ends with the name. |
| `Isilon.PathJoinSeparator` | isilon_bq.py:65-66 | Exactly one '/' stands between a non-empty container path and a relative name; one the container path already ends with is not doubled. |
| `Isilon.LeadingSlashes` | isilon_bq.py:202 | Counts the slashes a string starts with: they are all '/', and the next character is not. |
| `Isilon.TrailingSlashes` | isilon_bq.py:202 | Counts the slashes a string ends with: they are all '/', and the character before them is not. |
| `Isilon.Strip` | isilon_bq.py:202 | `.strip('/')`; its contract is stated by `Isilon.StripKeepsMiddle`, `Isilon.StripRemovesOnlySlashes`, `Isilon.StripIdempotent` and `Isilon.StripKeepsInner`. |
| `Isilon.StripKeepsMiddle` | isilon_bq.py:202 | `.strip('/')` leaves a contiguous piece of the path that neither starts nor ends with '/'. |
| `Isilon.StripRemovesOnlySlashes` | isilon_bq.py:202 | Every character `.strip('/')` removes is a '/'. |
| `Isilon.StripIdempotent` | isilon_bq.py:202 | Stripping a stripped path changes nothing. |
| `Isilon.StripKeepsInner` | isilon_bq.py:202 | A path with no slash at either end is left as it is. |
| `Isilon.ListDirKwargs` | isilon_bq.py:169-177 | The keyword arguments are `detail` (the sixteen fields) and `limit` (10000) always, plus `resume` exactly when a token is given. |
| `Isilon.ListDir` | isilon_bq.py:169-178 | One `get_directory_contents` call for the path, with the keyword arguments whose contract `Isilon.ListDirKwargs` states. |
| `Isilon.ToRow` | isilon_bq.py:115-131 | The row for one entry; its contract is stated by `Isilon.ToRowFields`. |
| `Isilon.ToRowFields` | isilon_bq.py:115-131 | A row's path ends with the entry's name and, for a relative name, starts with its container path. Its type is already renamed (`get_type` leaves it as it is), its inode is the entry's id and its last_modified is the entry's mtime. |
| `Isilon.InsertId` | isilon_bq.py:114 | The insert id of an entry; its contract is stated by `Isilon.InsertIdParts` and `Isilon.InsertIdsDistinct`. |
| `Isilon.InsertIdParts` | isilon_bq.py:114 | An insert id is the message id, a '.', and digits that parse back to the entry's position. |
| `Isilon.InsertIdsDistinct` | isilon_bq.py:113-114 | Two positions of one page never get the same insert id. |
| `Isilon.PageIdsDistinct` | isilon_bq.py:111-114 | The ids built for a page are pairwise distinct. |
| `Isilon.PageRows` | isilon_bq.py:111-131 | One row and one id per entry, in the page's order. Row i is entry i's row: path via `get_path`, type via `get_type`, the copied fields, and `inode` from `id`. Id i is `"<message id>.<i>"`. |
| `Isilon.InsertRows` | isilon_bq.py:108-132 | An empty page inserts nothing. Otherwise one row and one id per entry, in order, with pairwise distinct ids. |
| `Isilon.ChildRequests` | isilon_bq.py:200-203 | No more child requests than children. |
| `Isilon.ChildRequestsCount` | isilon_bq.py:200-203 | One request per child of type `container`. |
| `Isilon.ChildRequestsFromContainers` | isilon_bq.py:200-203 | Every child request is the stripped path of some `container` child, with no resume token. |
| `Isilon.ContainersRequested` | isilon_bq.py:200-203 | Every `container` child's stripped path is requested. |
| `Isilon.FollowUps` | isilon_bq.py:199-205 | At most one request per child, plus one. |
| `Isilon.FollowUpsContinue` | isilon_bq.py:204-205 | A request with a resume token is published if and only if the listing returned one. It is the last request, for the same path and with that token. |
| `Isilon.PublishChildren` | isilon_bq.py:199-203 | The loop over the children publishes exactly the child requests, in order. |
| `Isilon.AwaitAll` | isilon_bq.py:206-207 | Waiting succeeds if and only if every published future resolves. |
| `Isilon.Callback` | isilon_bq.py:196-209 | Listing fails (the callback raises) exactly when the client fails; then nothing is published or inserted. Otherwise the published requests are the follow-ups, in order. Publishing fails exactly when some published future raises; then nothing is inserted. The insert fails exactly when every publish resolved and the insert call made raises. The message is acked if and only if the listing succeeded, every publish resolved and the insert, if one was made, returned. The insert is made only when every publish resolved, and as `insert_rows` builds it. |

## Left out

- The concurrency of `main.go` is not part of this model: goroutines, the `WaitGroup`, the `stats` and `errs` channels and first-error-wins (main.go:25-77, 88-101, 174-192). `WriteStats` receives the records as a finite sequence in arrival order.
- The BigQuery plumbing, `getWriter`, `loadJob` and the `io.Pipe` are cloud-client wrappers (main.go:201-228, 360-375), and are not modelled.
- The `godirwalk` traversal, `regexp`, `filepath.EvalSymlinks`, `os.Stat`, `os.Lstat`, `syscall.Stat_t`, `user.LookupId` and `user.LookupGroupId` are operating-system or library calls. They appear only as oracle parameters.
- `encoding/csv` quoting, `FileMode.String` and `civil.DateTimeOf(t).String` are library formatting; they are parameters. The result of each `csv.Writer.Write` call is the oracle `writeErr`, because the buffering that decides when a write fails is inside the library.
- The errors of the deferred `w.Flush()` and `writer.Close()` are not modelled; the Go code discards them too.
- `Owners.NameMap.GetOwner`: `fmt.Sprint` of a `uint32` is modelled as its base-10 digits only.
- `Owners.NameMap.GetOwner`: the lookup is a pure function, so `user.LookupId` and `user.LookupGroupId` are assumed to answer the same for an id throughout a run. A user database that changes mid-run could make a cached name differ from a fresh lookup, and this model does not capture that.
- `get_datetime` converts float epochs in the local time zone, so it is the parameter `datetime`.
- The JSON encoding and decoding of PubSub messages is not modelled: a message is a `Request` value. A message without a `path` key is not modelled, since the publisher always writes both keys.
- The Isilon, PubSub and BigQuery clients are not modelled, including `get_schema`/`create_table`, `patch_urllib`, the thread-pool subscriber, `signal.pause`, argument parsing and `main` in both programs. The errors `insert_rows_json` returns are only printed by the source, and are not modelled.
- `Isilon.Callback` waits on the futures in publish order, whereas Python iterates the `published` set in an unspecified order. The outcome is the same, because any future that raises ends the callback before the insert and the ack. Redelivery of an un-acked message is PubSub's concern and is not modelled.
- `Isilon.Callback`: a `publish(...)` call (isilon_bq.py:203, 205) that raises before returning its future is not modelled separately. Like a future that raises, it ends the callback before the insert and the ack, but the requests after it are then never published, whereas the model publishes them all.
- `Isilon.PathJoinParts`: `os.path.join` is modelled for the two components `get_path` passes, following `posixpath.join`.
- Isilon dirent fields are modelled as present values; the SDK's `None` for a missing detail field is not modelled.
