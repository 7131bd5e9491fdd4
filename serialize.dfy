/**
 * getSchema and writeStats: each fileStat becomes one tab-separated row of
 * eight fields in the destination table's column order, owners are named
 * through two NameMap caches, and the first failed write stops the loop.
 * FileMode.String and civil.DateTimeOf(...).String are parameters; the csv
 * quoting of a row is not part of this model.
 */
module Serialize {
  import opened Wrappers
  import opened Types
  import Decimal
  import opened Owners

  /** bigquery.FieldType, for the three types the schema uses. */
  datatype FieldType = StringFieldType | IntegerFieldType | TimestampFieldType

  /** bigquery.FieldSchema. */
  datatype FieldSchema = FieldSchema(name: string, fieldType: FieldType, required: bool, description: string)

  /** getSchema: the destination table's columns. */
  function GetSchema(): (schema: seq<FieldSchema>)
    ensures |schema| == 8
    ensures forall i :: 0 <= i < |schema| ==> (schema[i].required <==> i == 0)
    ensures forall i, j :: 0 <= i < j < |schema| ==> schema[i].name != schema[j].name
  {
    [ FieldSchema("Path", StringFieldType, true, "Absolute path to the file"),
      FieldSchema("Mode", StringFieldType, false, "File mode bits"),
      FieldSchema("User", StringFieldType, false, "Owner user name of the file"),
      FieldSchema("Group", StringFieldType, false, "Owner group name of the file"),
      FieldSchema("Size", IntegerFieldType, false, "Size of the file, in bytes"),
      FieldSchema("Modified", TimestampFieldType, false, "Timestamp of the last file modification"),
      FieldSchema("Target", StringFieldType, false, "Target of the symlink, if applicable"),
      FieldSchema("Error", StringFieldType, false, "Error in retrieval of file stats") ]
  }

  /** The library formatting writeStats relies on: FileMode.String and civil.DateTimeOf(t).String. */
  datatype Formats = Formats(modeString: FileMode -> string, civilDateTime: Time -> string)

  /** An optional field's text: "" when absent. */
  function ModeText(s: FileStat, f: Formats): string {
    if s.mode.Some? then f.modeString(s.mode.value) else ""
  }

  function SizeText(s: FileStat): string {
    if s.size.Some? then Decimal.IntToString(s.size.value as int) else ""
  }

  function ModTimeText(s: FileStat, f: Formats): string {
    if s.modTime.Some? then f.civilDateTime(s.modTime.value) else ""
  }

  function ErrorText(s: FileStat): string {
    if s.err.Some? then s.err.value.Error() else ""
  }

  /** The row writeStats hands to the csv writer for one record. */
  function Row(s: FileStat, f: Formats, userName: string -> string, groupName: string -> string): (row: seq<string>)
    ensures |row| == 8
  {
    [ s.path, ModeText(s, f), OwnerName(s.uid, userName), OwnerName(s.gid, groupName),
      SizeText(s), ModTimeText(s, f), s.target, ErrorText(s) ]
  }

  /** The value of the column called `name`, found by name rather than by position. */
  function Column(s: FileStat, name: string, f: Formats, userName: string -> string, groupName: string -> string): string
  {
    if name == "Path" then s.path
    else if name == "Mode" then ModeText(s, f)
    else if name == "User" then OwnerName(s.uid, userName)
    else if name == "Group" then OwnerName(s.gid, groupName)
    else if name == "Size" then SizeText(s)
    else if name == "Modified" then ModTimeText(s, f)
    else if name == "Target" then s.target
    else if name == "Error" then ErrorText(s)
    else ""
  }

  /** Every row has one field per column, listed in the schema's column order. */
  lemma RowFollowsSchema(s: FileStat, f: Formats, userName: string -> string, groupName: string -> string)
    ensures |Row(s, f, userName, groupName)| == |GetSchema()|
    ensures forall i :: 0 <= i < |GetSchema()| ==>
              Row(s, f, userName, groupName)[i] == Column(s, GetSchema()[i].name, f, userName, groupName)
  {
  }

  /** A field the record does not have is written as the empty string. */
  lemma AbsentFieldsEmpty(s: FileStat, f: Formats, userName: string -> string, groupName: string -> string)
    ensures var row := Row(s, f, userName, groupName);
            && (s.mode.None? ==> row[1] == "")
            && (s.uid.None? ==> row[2] == "")
            && (s.gid.None? ==> row[3] == "")
            && (s.size.None? ==> row[4] == "")
            && (s.modTime.None? ==> row[5] == "")
            && (s.err.None? ==> row[7] == "")
  {
  }

  /** A present size is written in base 10 and reads back as the same number. */
  lemma SizeColumnReadsBack(s: FileStat, f: Formats, userName: string -> string, groupName: string -> string)
    requires s.size.Some?
    ensures var text := Row(s, f, userName, groupName)[4];
            |text| >= 1 && (if text[0] == '-' then Decimal.AllDigits(text[1..]) else Decimal.AllDigits(text))
            && Decimal.ParseInt(text) == s.size.value as int
  {
    Decimal.ParseIntToString(s.size.value as int);
  }

  /** A record's owning user id, or its owning group id when `group` holds. */
  function OwnerId(s: FileStat, group: bool): Option<uint32> {
    if group then s.gid else s.uid
  }

  /** The ids a cache filled by getOwner over the first n records holds, and those it has looked up, in call order. */
  ghost function Trace(stats: seq<FileStat>, n: nat, group: bool): (set<uint32>, seq<uint32>)
    requires n <= |stats|
  {
    if n == 0 then ({}, [])
    else
      var prev := Trace(stats, n - 1, group);
      var id := OwnerId(stats[n - 1], group);
      (prev.0 + IdSet(id), prev.1 + Missed(id, prev.0))
  }

  /** The ids a cache holds after n records are exactly the ids those records carry. */
  lemma {:induction false} TraceHoldsRecordIds(stats: seq<FileStat>, n: nat, group: bool, id: uint32)
    requires n <= |stats|
    ensures id in Trace(stats, n, group).0 <==> exists k :: 0 <= k < n && OwnerId(stats[k], group) == Some(id)
  {
    if n > 0 {
      TraceHoldsRecordIds(stats, n - 1, group, id);
      if OwnerId(stats[n - 1], group) == Some(id) {
        assert id in IdSet(OwnerId(stats[n - 1], group));
      }
    }
  }

  /**
   * The cache pays for itself: over any run of records, the lookup is called
   * once for every id the records carry, and never twice for the same id.
   */
  lemma {:induction false} LookupsOncePer(stats: seq<FileStat>, n: nat, group: bool)
    requires n <= |stats|
    ensures NoDuplicates(Trace(stats, n, group).1)
    ensures forall id :: id in Trace(stats, n, group).1 <==> id in Trace(stats, n, group).0
  {
    if n > 0 {
      LookupsOncePer(stats, n - 1, group);
      var prev := Trace(stats, n - 1, group);
      var id := OwnerId(stats[n - 1], group);
      assert Trace(stats, n, group) == (prev.0 + IdSet(id), prev.1 + Missed(id, prev.0));
    }
  }

  /** The rows of the first n records, in order. */
  function Rows(stats: seq<FileStat>, n: nat, f: Formats, userName: string -> string, groupName: string -> string): (rows: seq<seq<string>>)
    requires n <= |stats|
    ensures |rows| == n
  {
    if n == 0 then [] else Rows(stats, n - 1, f, userName, groupName) + [Row(stats[n - 1], f, userName, groupName)]
  }

  /** The k-th row handed to Write is the row of the k-th record. */
  lemma {:induction false} RowsAt(stats: seq<FileStat>, n: nat, f: Formats,
                                  userName: string -> string, groupName: string -> string, k: nat)
    requires k < n <= |stats|
    ensures Rows(stats, n, f, userName, groupName)[k] == Row(stats[k], f, userName, groupName)
  {
    if k < n - 1 {
      RowsAt(stats, n - 1, f, userName, groupName, k);
    }
  }

  /** The first n calls to Write all succeeded. */
  predicate WritesSucceeded(writeErr: nat -> Option<GoError>, n: nat) {
    forall k :: 0 <= k < n ==> writeErr(k).None?
  }

  /** One more successful Write extends the run of successes. */
  lemma WritesSucceededStep(writeErr: nat -> Option<GoError>, n: nat)
    requires WritesSucceeded(writeErr, n)
    ensures writeErr(n).None? ==> WritesSucceeded(writeErr, n + 1)
  {
  }

  /**
   * The body of writeStats' loop up to the Write call: the row for one
   * record, naming its owner and group through the two caches. Each cache
   * adds the record's id to the ids it holds, and calls its lookup once
   * exactly when that id was new to it.
   */
  method FormatRow(stat: FileStat, f: Formats, users: NameMap, groups: NameMap) returns (row: seq<string>)
    requires users.Valid() && groups.Valid() && users != groups
    modifies users, groups
    ensures users.Valid() && groups.Valid()
    ensures users.keys == old(users.keys) + IdSet(stat.uid) && users.log == old(users.log) + Missed(stat.uid, old(users.keys))
    ensures groups.keys == old(groups.keys) + IdSet(stat.gid) && groups.log == old(groups.log) + Missed(stat.gid, old(groups.keys))
    ensures row == Row(stat, f, users.lookup, groups.lookup)
  {
    var mode := "";
    if stat.mode.Some? {
      mode := f.modeString(stat.mode.value);
    }
    var user := users.GetOwner(stat.uid);
    var group := groups.GetOwner(stat.gid);
    var size := "";
    if stat.size.Some? {
      size := Decimal.IntToString(stat.size.value as int);
    }
    var modTime := "";
    if stat.modTime.Some? {
      modTime := f.civilDateTime(stat.modTime.value);
    }
    var e := "";
    if stat.err.Some? {
      e := stat.err.value.Error();
    }
    row := [stat.path, mode, user, group, size, modTime, stat.target, e];
  }

  /**
   * Where writeStats' loop stands after n records: the rows written, the
   * Write calls that succeeded, and both caches' contents and lookups.
   */
  ghost predicate Progress(stats: seq<FileStat>, n: nat, f: Formats, users: NameMap, groups: NameMap,
                           writeErr: nat -> Option<GoError>, rows: seq<seq<string>>, err: Option<GoError>)
    reads users, groups
  {
    && n == |rows| <= |stats|
    && rows == Rows(stats, n, f, users.lookup, groups.lookup)
    && (err.None? ==> WritesSucceeded(writeErr, n))
    && (err.Some? ==> n > 0 && err == writeErr(n - 1) && WritesSucceeded(writeErr, n - 1))
    && users.Valid() && (users.keys, users.log) == Trace(stats, n, false)
    && groups.Valid() && (groups.keys, groups.log) == Trace(stats, n, true)
  }

  /** One pass of writeStats' loop: format the next record and hand its row to Write. */
  method WriteNext(stats: seq<FileStat>, i: nat, f: Formats, users: NameMap, groups: NameMap,
                   writeErr: nat -> Option<GoError>, rows: seq<seq<string>>) returns (rows': seq<seq<string>>, err: Option<GoError>)
    requires i < |stats| && users != groups
    requires Progress(stats, i, f, users, groups, writeErr, rows, None)
    modifies users, groups
    ensures Progress(stats, i + 1, f, users, groups, writeErr, rows', err)
  {
    var row := FormatRow(stats[i], f, users, groups);
    WritesSucceededStep(writeErr, i);
    err := writeErr(i);
    rows' := rows + [row];
  }

  /**
   * The loop of writeStats, over two caches that start out empty.
   */
  method WriteRows(stats: seq<FileStat>, f: Formats, users: NameMap, groups: NameMap,
                   writeErr: nat -> Option<GoError>) returns (rows: seq<seq<string>>, err: Option<GoError>)
    requires users != groups
    requires users.Valid() && (users.keys, users.log) == ({}, [])
    requires groups.Valid() && (groups.keys, groups.log) == ({}, [])
    modifies users, groups
    ensures |rows| <= |stats| && rows == Rows(stats, |rows|, f, users.lookup, groups.lookup)
    ensures err.None? ==> |rows| == |stats| && WritesSucceeded(writeErr, |stats|)
    ensures err.Some? ==> |rows| > 0 && err == writeErr(|rows| - 1) && WritesSucceeded(writeErr, |rows| - 1)
    ensures users.Valid() && (users.keys, users.log) == Trace(stats, |rows|, false)
    ensures groups.Valid() && (groups.keys, groups.log) == Trace(stats, |rows|, true)
  {
    rows, err := [], None;
    var i := 0;
    while i < |stats| && err.None?
      invariant Progress(stats, i, f, users, groups, writeErr, rows, err)
    {
      rows, err := WriteNext(stats, i, f, users, groups, writeErr, rows);
      i := i + 1;
    }
  }

  /**
   * writeStats over the records received, in order. `writeErr(k)` is what the
   * k-th csv Write call returns. The result lists the rows handed to Write
   * (the last of them the one that failed, if any) and the first write error.
   * The ghost results are the ids the user and group lookups were called
   * for, in call order.
   */
  method WriteStats(stats: seq<FileStat>, f: Formats,
                    lookupUserId: string -> Option<string>, lookupGroupId: string -> Option<string>,
                    writeErr: nat -> Option<GoError>)
    returns (rows: seq<seq<string>>, err: Option<GoError>,
             ghost userLookups: seq<uint32>, ghost groupLookups: seq<uint32>)
    ensures |rows| <= |stats| && rows == Rows(stats, |rows|, f, NameLookup(lookupUserId), NameLookup(lookupGroupId))
    ensures err.None? ==> |rows| == |stats| && WritesSucceeded(writeErr, |stats|)
    ensures err.Some? ==> |rows| > 0 && err == writeErr(|rows| - 1) && WritesSucceeded(writeErr, |rows| - 1)
    ensures userLookups == Trace(stats, |rows|, false).1 && groupLookups == Trace(stats, |rows|, true).1
  {
    var users := new NameMap(NameLookup(lookupUserId));
    var groups := new NameMap(NameLookup(lookupGroupId));
    rows, err := WriteRows(stats, f, users, groups, writeErr);
    userLookups, groupLookups := users.log, groups.log;
  }
}
