/**
 * isilon_bq.py: a PubSub subscriber that lists one Isilon directory page per
 * message, publishes a follow-up request for every sub-directory and for the
 * rest of the page, then streams one BigQuery row per entry. The Isilon,
 * PubSub and BigQuery clients are parameters: `client` answers a listing
 * request, `resolves` says whether a publish future resolves, and `datetime`
 * is get_datetime.
 */
module Isilon {
  import opened Wrappers
  import Decimal

  /** DirentType: the Isilon type names that are renamed for the table. */
  datatype DirentType = Container | Object | SymbolicLink
  {
    /** The member's name, as Isilon spells the type. */
    function Name(): string {
      match this
      case Container => "container"
      case Object => "object"
      case SymbolicLink => "symbolic_link"
    }

    /** The member's value, the name written to the table. */
    function Value(): string {
      match this
      case Container => "dir"
      case Object => "file"
      case SymbolicLink => "symlink"
    }
  }

  /** DirentType[name], defined exactly on the members' names (DirentType.__members__). */
  function Member(name: string): (t: Option<DirentType>)
    ensures t.Some? ==> t.value.Name() == name
  {
    if name == "container" then Some(Container)
    else if name == "object" then Some(Object)
    else if name == "symbolic_link" then Some(SymbolicLink)
    else None
  }

  /** Every member's name is found by Member, so Member fails exactly on other names. */
  lemma MemberFindsEveryName(t: DirentType)
    ensures Member(t.Name()) == Some(t)
  {
  }

  /** get_type. */
  function GetType(typeName: string): string {
    match Member(typeName)
    case Some(t) => t.Value()
    case None => typeName
  }

  /** A member's name becomes its value; any other type name is kept as it is. */
  lemma GetTypeMapsMembers(typeName: string)
    ensures forall t: DirentType :: typeName == t.Name() ==> GetType(typeName) == t.Value()
    ensures (forall t: DirentType :: typeName != t.Name()) ==> GetType(typeName) == typeName
  {
  }

  /** The three renamings, spelled out. */
  lemma GetTypeRenames()
    ensures GetType("container") == "dir"
    ensures GetType("object") == "file"
    ensures GetType("symbolic_link") == "symlink"
  {
    MemberFindsEveryName(Container);
    MemberFindsEveryName(Object);
    MemberFindsEveryName(SymbolicLink);
  }

  /** No value is itself a member's name, so renaming a second time changes nothing. */
  lemma GetTypeIdempotent(typeName: string)
    ensures GetType(GetType(typeName)) == GetType(typeName)
  {
  }

  /** posixpath.join of two components. */
  function PathJoin(a: string, b: string): string {
    if |b| > 0 && b[0] == '/' then b
    else if a == [] || a[|a| - 1] == '/' then a + b
    else a + "/" + b
  }

  /**
   * An absolute second part replaces the first; otherwise the join starts with
   * the first part and adds at most one separator. Either way it ends with
   * the second part.
   */
  lemma PathJoinParts(a: string, b: string)
    ensures var r := PathJoin(a, b);
            && (|b| > 0 && b[0] == '/' ==> r == b)
            && (!(|b| > 0 && b[0] == '/') ==> |a| <= |r| && r[..|a|] == a)
            && |b| <= |r| && r[|r| - |b|..] == b
            && |r| <= |a| + 1 + |b|
  {
  }

  /** The join never doubles a separator the first part already ends with. */
  lemma PathJoinSeparator(a: string, b: string)
    requires |a| > 0 && !(|b| > 0 && b[0] == '/')
    ensures |PathJoin(a, b)| == (if a[|a| - 1] == '/' then |a| + |b| else |a| + 1 + |b|)
    ensures PathJoin(a, b)[|a| - 1 + (if a[|a| - 1] == '/' then 0 else 1)] == '/'
  {
  }

  /** One entry of a directory listing, with the detail fields requested. */
  datatype Dirent = Dirent(
    containerPath: string, name: string, typeName: string, mode: string, isHidden: bool, size: int,
    gid: int, group: string, uid: int, owner: string,
    atimeVal: int, btimeVal: int, ctimeVal: int, mtimeVal: int,
    id: int, nlink: int)

  /** get_path: the entry's full path. */
  function GetPath(d: Dirent): string {
    PathJoin(d.containerPath, d.name)
  }

  /** How many '/' characters s starts with. */
  function LeadingSlashes(s: string): (n: nat)
    ensures n <= |s|
    ensures forall k :: 0 <= k < n ==> s[k] == '/'
    ensures n < |s| ==> s[n] != '/'
  {
    if |s| > 0 && s[0] == '/' then 1 + LeadingSlashes(s[1..]) else 0
  }

  /** How many '/' characters s ends with. */
  function TrailingSlashes(s: string): (n: nat)
    ensures n <= |s|
    ensures forall k :: |s| - n <= k < |s| ==> s[k] == '/'
    ensures n < |s| ==> s[|s| - n - 1] != '/'
  {
    if |s| > 0 && s[|s| - 1] == '/' then 1 + TrailingSlashes(s[..|s| - 1]) else 0
  }

  /**
   * str.strip('/'): s without the slashes at either end. What is left is one
   * contiguous piece of s that neither starts nor ends with '/', and every
   * character removed is a slash.
   */
  function Strip(s: string): string {
    var i := LeadingSlashes(s);
    var t := s[i..];
    t[..|t| - TrailingSlashes(t)]
  }

  /** What str.strip('/') leaves is one contiguous piece of s that neither starts nor ends with '/'. */
  lemma StripKeepsMiddle(s: string)
    ensures var r, i := Strip(s), LeadingSlashes(s);
            && (r == [] || (r[0] != '/' && r[|r| - 1] != '/'))
            && i + |r| <= |s| && r == s[i..i + |r|]
  {
  }

  /** Every character str.strip('/') removes is a slash. */
  lemma StripRemovesOnlySlashes(s: string)
    ensures var r, i := Strip(s), LeadingSlashes(s);
            forall k :: 0 <= k < |s| && !(i <= k < i + |r|) ==> s[k] == '/'
  {
    var i := LeadingSlashes(s);
    var t := s[i..];
    var r := Strip(s);
    assert |r| == |t| - TrailingSlashes(t);
    forall k | i + |r| <= k < |s|
      ensures s[k] == '/'
    {
      assert s[k] == t[k - i];
    }
  }

  /** Stripping is idempotent: a stripped path has no slash left at either end. */
  lemma StripIdempotent(s: string)
    ensures Strip(Strip(s)) == Strip(s)
  {
    var r := Strip(s);
    StripKeepsMiddle(s);
    assert LeadingSlashes(r) == 0;
    assert TrailingSlashes(r) == 0;
  }

  /** A path with no slash at either end is left as it is. */
  lemma StripKeepsInner(s: string)
    requires s == [] || (s[0] != '/' && s[|s| - 1] != '/')
    ensures Strip(s) == s
  {
    assert LeadingSlashes(s) == 0;
    assert TrailingSlashes(s) == 0;
  }

  /** DIRENTS_LIMIT: the most entries one listing page returns. */
  const DirentsLimit: nat := 10000

  /**
   * DIRENTS_DETAIL: the sixteen detail fields each listing asks for, in
   * request order, joined by ','.
   */
  const DirentsDetail: string :=
    "container_path,name,type,mode,is_hidden,size,gid,group,uid,owner,atime_val,btime_val,ctime_val,mtime_val,id,nlink"

  /** A keyword argument of get_directory_contents. */
  datatype KwArg = StrArg(s: string) | IntArg(n: int)

  /**
   * The keyword arguments list_dir passes: always the detail fields and the
   * page limit, and the resume token only when there is one.
   */
  function ListDirKwargs(resume: Option<string>): (kwargs: map<string, KwArg>)
    ensures forall key :: key in kwargs <==> key == "detail" || key == "limit" || (key == "resume" && resume.Some?)
    ensures kwargs["detail"] == StrArg(DirentsDetail) && kwargs["limit"] == IntArg(10000)
    ensures resume.Some? ==> kwargs["resume"] == StrArg(resume.value)
  {
    var kwargs := map["detail" := StrArg(DirentsDetail), "limit" := IntArg(DirentsLimit)];
    if resume.Some? then kwargs["resume" := StrArg(resume.value)] else kwargs
  }

  /** A page of a directory listing: the entries and, if more follow, a resume token. */
  datatype Listing = Listing(children: seq<Dirent>, resume: Option<string>)

  /** get_directory_contents; None when the call raises. */
  type Client = (string, map<string, KwArg>) -> Option<Listing>

  /** list_dir. */
  function ListDir(client: Client, path: string, resume: Option<string>): Option<Listing> {
    client(path, ListDirKwargs(resume))
  }

  /** One row of the table, as the JSON object insert_rows_json receives. */
  datatype InsertRow = InsertRow(
    path: string, typeName: string, mode: string, size: int, owner: string, group: string,
    uid: int, gid: int, lastModified: string, accessTime: string, createTime: string,
    changeTime: string, isHidden: bool, nlink: int, inode: int)

  /** The row for one entry; `datetime` is get_datetime. */
  function ToRow(d: Dirent, datetime: int -> string): InsertRow {
    InsertRow(GetPath(d), GetType(d.typeName), d.mode, d.size, d.owner, d.group, d.uid, d.gid,
              datetime(d.mtimeVal), datetime(d.atimeVal), datetime(d.btimeVal), datetime(d.ctimeVal),
              d.isHidden, d.nlink, d.id)
  }

  /**
   * A row's path ends with the entry's name and, for a relative name, starts
   * with its container path; its type is already renamed; its inode is the
   * entry's id and its last_modified is the entry's mtime.
   */
  lemma ToRowFields(d: Dirent, datetime: int -> string)
    ensures var r := ToRow(d, datetime);
            && |d.name| <= |r.path| && r.path[|r.path| - |d.name|..] == d.name
            && (!(|d.name| > 0 && d.name[0] == '/') ==> |d.containerPath| <= |r.path| && r.path[..|d.containerPath|] == d.containerPath)
            && GetType(r.typeName) == r.typeName
            && r.inode == d.id && r.lastModified == datetime(d.mtimeVal)
  {
    PathJoinParts(d.containerPath, d.name);
    GetTypeIdempotent(d.typeName);
  }

  /** The insert id of the i-th entry of a message's page: "<message id>.<i>". */
  function InsertId(messageId: string, i: nat): string {
    messageId + "." + Decimal.NatToString(i)
  }

  /**
   * An insert id reads back as its parts: the message id, a '.', and the
   * decimal text of the entry's position.
   */
  lemma InsertIdParts(messageId: string, i: nat)
    ensures var id := InsertId(messageId, i);
            && |messageId| + 1 < |id| && id[..|messageId|] == messageId && id[|messageId|] == '.'
            && Decimal.AllDigits(id[|messageId| + 1..]) && Decimal.ParseNat(id[|messageId| + 1..]) == i
  {
    var id := InsertId(messageId, i);
    assert id[|messageId| + 1..] == Decimal.NatToString(i);
    Decimal.ParseNatToString(i);
  }

  /** Two entries of one page never share an insert id. */
  lemma InsertIdsDistinct(messageId: string, i: nat, j: nat)
    requires i != j
    ensures InsertId(messageId, i) != InsertId(messageId, j)
  {
    var n := |messageId| + 1;
    if InsertId(messageId, i) == InsertId(messageId, j) {
      assert InsertId(messageId, i)[n..] == Decimal.NatToString(i);
      assert InsertId(messageId, j)[n..] == Decimal.NatToString(j);
      Decimal.NatToStringInjective(i, j);
    }
  }

  /** The insert_rows_json call for one page: rows and their insert ids, side by side. */
  datatype InsertCall = InsertCall(rows: seq<InsertRow>, ids: seq<string>)

  /**
   * The insert made for a page: none for an empty page; otherwise one row and
   * one id per entry, in the page's order.
   */
  ghost predicate InsertsPage(call: Option<InsertCall>, messageId: string, dirents: seq<Dirent>, datetime: int -> string) {
    && (call.None? <==> |dirents| == 0)
    && (call.Some? ==> |call.value.rows| == |dirents| && |call.value.ids| == |dirents|)
    && (call.Some? ==> forall i :: 0 <= i < |dirents| ==>
          call.value.rows[i] == ToRow(dirents[i], datetime) && call.value.ids[i] == InsertId(messageId, i))
  }

  /** The ids of a page's rows are pairwise distinct. */
  lemma PageIdsDistinct(messageId: string, ids: seq<string>)
    requires forall i :: 0 <= i < |ids| ==> ids[i] == InsertId(messageId, i)
    ensures forall i, j :: 0 <= i < j < |ids| ==> ids[i] != ids[j]
  {
    forall i, j | 0 <= i < j < |ids|
      ensures ids[i] != ids[j]
    {
      InsertIdsDistinct(messageId, i, j);
    }
  }

  /** The loop of insert_rows: the row and the insert id of every entry, in order. */
  method PageRows(messageId: string, dirents: seq<Dirent>, datetime: int -> string)
    returns (rows: seq<InsertRow>, ids: seq<string>)
    ensures |rows| == |dirents| && |ids| == |dirents|
    ensures forall k :: 0 <= k < |dirents| ==> rows[k] == ToRow(dirents[k], datetime)
    ensures forall k :: 0 <= k < |dirents| ==> ids[k] == InsertId(messageId, k)
  {
    rows, ids := [], [];
    for i := 0 to |dirents|
      invariant |rows| == i && |ids| == i
      invariant forall k :: 0 <= k < i ==> rows[k] == ToRow(dirents[k], datetime)
      invariant forall k :: 0 <= k < i ==> ids[k] == InsertId(messageId, k)
    {
      ids := ids + [InsertId(messageId, i)];
      rows := rows + [ToRow(dirents[i], datetime)];
    }
  }

  /**
   * insert_rows: nothing is inserted for an empty page; otherwise one row and
   * one id per entry, in the page's order, with ids that are pairwise distinct.
   */
  method InsertRows(messageId: string, dirents: seq<Dirent>, datetime: int -> string) returns (call: Option<InsertCall>)
    ensures InsertsPage(call, messageId, dirents, datetime)
    ensures call.Some? ==> forall i, j :: 0 <= i < j < |call.value.ids| ==> call.value.ids[i] != call.value.ids[j]
  {
    if |dirents| == 0 {
      return None;
    }
    var rows, ids := PageRows(messageId, dirents, datetime);
    PageIdsDistinct(messageId, ids);
    call := Some(InsertCall(rows, ids));
  }

  /** The message a request is published as: the JSON object {'path', 'resume'}. */
  datatype Request = Request(path: string, resume: Option<string>)

  /** The entry is a directory, by its raw Isilon type name. */
  predicate IsContainer(d: Dirent) {
    d.typeName == "container"
  }

  /** The request for one sub-directory: its path with the slashes at both ends stripped. */
  function ChildRequest(d: Dirent): Request {
    Request(Strip(GetPath(d)), None)
  }

  /** The requests published for the sub-directories among `children`, in order. */
  function ChildRequests(children: seq<Dirent>): (requests: seq<Request>)
    ensures |requests| <= |children|
  {
    if |children| == 0 then []
    else
      var d := children[|children| - 1];
      ChildRequests(children[..|children| - 1]) + (if IsContainer(d) then [ChildRequest(d)] else [])
  }

  /** How many of `children` are directories. */
  function Containers(children: seq<Dirent>): nat {
    if |children| == 0 then 0
    else Containers(children[..|children| - 1]) + (if IsContainer(children[|children| - 1]) then 1 else 0)
  }

  /** One request per directory child, none for any other child. */
  lemma {:induction false} ChildRequestsCount(children: seq<Dirent>)
    ensures |ChildRequests(children)| == Containers(children)
  {
    if |children| > 0 {
      ChildRequestsCount(children[..|children| - 1]);
    }
  }

  /** Each request published for a child names a directory child. */
  lemma {:induction false} ChildRequestsFromContainers(children: seq<Dirent>, r: Request)
    requires r in ChildRequests(children)
    ensures exists k :: 0 <= k < |children| && IsContainer(children[k]) && r == ChildRequest(children[k])
  {
    var init := children[..|children| - 1];
    if r in ChildRequests(init) {
      ChildRequestsFromContainers(init, r);
      var k :| 0 <= k < |init| && IsContainer(init[k]) && r == ChildRequest(init[k]);
      assert children[k] == init[k];
    } else {
      assert IsContainer(children[|children| - 1]);
    }
  }

  /** Every directory child has its request published. */
  lemma {:induction false} ContainersRequested(children: seq<Dirent>, k: nat)
    requires k < |children| && IsContainer(children[k])
    ensures ChildRequest(children[k]) in ChildRequests(children)
  {
    var init, last := children[..|children| - 1], children[|children| - 1];
    var tail := if IsContainer(last) then [ChildRequest(last)] else [];
    assert ChildRequests(children) == ChildRequests(init) + tail;
    if k < |init| {
      ContainersRequested(init, k);
      assert init[k] == children[k];
    } else {
      assert tail == [ChildRequest(children[k])];
    }
  }

  /** Every request the callback publishes after listing a page, in publish order. */
  function FollowUps(path: string, listing: Listing): (requests: seq<Request>)
    ensures |requests| <= |listing.children| + 1
  {
    ChildRequests(listing.children) + (if listing.resume.Some? then [Request(path, listing.resume)] else [])
  }

  /**
   * The rest of a page is requested exactly when the listing returned a resume
   * token, as the last request, for the same path.
   */
  lemma FollowUpsContinue(path: string, listing: Listing)
    ensures listing.resume.Some? <==> exists r :: r in FollowUps(path, listing) && r.resume.Some?
    ensures listing.resume.Some? ==> FollowUps(path, listing)[|FollowUps(path, listing)| - 1] == Request(path, listing.resume)
  {
    var requests := FollowUps(path, listing);
    if listing.resume.Some? {
      assert requests[|requests| - 1] in requests;
    } else {
      forall r | r in requests
        ensures r.resume.None?
      {
        ChildRequestsFromContainers(listing.children, r);
      }
    }
  }

  /** What became of one message. */
  datatype Outcome =
    | ListFailed      // list_dir raised: nothing published, nothing inserted, not acked
    | PublishFailed   // a publish future raised: nothing inserted, not acked
    | InsertFailed    // every publish resolved, insert_rows_json was called and raised: not acked
    | Acked           // every publish resolved, the rows were inserted and the message acked

  /** The loop over the page's children: one publish per directory. */
  method PublishChildren(children: seq<Dirent>) returns (published: seq<Request>)
    ensures published == ChildRequests(children)
  {
    published := [];
    for i := 0 to |children|
      invariant published == ChildRequests(children[..i])
    {
      assert children[..i + 1][..i] == children[..i];
      if IsContainer(children[i]) {
        published := published + [ChildRequest(children[i])];
      }
    }
    assert children[..|children|] == children;
  }

  /** Waiting on every future: the first one that raises stops the callback. */
  method AwaitAll(published: seq<Request>, resolves: Request -> bool) returns (ok: bool)
    ensures ok <==> forall r :: r in published ==> resolves(r)
  {
    for j := 0 to |published|
      invariant forall k :: 0 <= k < j ==> resolves(published[k])
    {
      if !resolves(published[j]) {
        return false;
      }
    }
    return true;
  }

  /**
   * pubsub_callback's callback for one message asking to list `data.path`
   * from `data.resume`. `resolves(r)` is whether the future of publishing r
   * resolves, `inserts(c)` whether the insert call c returns rather than
   * raises. Returns the requests published, in order, the insert call made,
   * if any, and the outcome.
   */
  method Callback(messageId: string, data: Request, client: Client, resolves: Request -> bool,
                  inserts: InsertCall -> bool, datetime: int -> string)
    returns (published: seq<Request>, insert: Option<InsertCall>, outcome: Outcome)
    ensures var response := ListDir(client, data.path, data.resume);
            && (outcome == ListFailed <==> response.None?)
            && (response.None? ==> published == [] && insert.None?)
            && (response.Some? ==> published == FollowUps(data.path, response.value))
            && (outcome == PublishFailed <==> response.Some? && exists r :: r in published && !resolves(r))
            && (outcome == InsertFailed <==>
                  response.Some? && (forall r :: r in published ==> resolves(r))
                  && insert.Some? && !inserts(insert.value))
            && (outcome == Acked <==>
                  response.Some? && (forall r :: r in published ==> resolves(r))
                  && (insert.Some? ==> inserts(insert.value)))
            && (outcome in {ListFailed, PublishFailed} ==> insert.None?)
            && (outcome in {InsertFailed, Acked} ==> InsertsPage(insert, messageId, response.value.children, datetime))
  {
    var response := ListDir(client, data.path, data.resume);
    if response.None? {
      return [], None, ListFailed;
    }
    published := PublishChildren(response.value.children);
    if response.value.resume.Some? {
      published := published + [Request(data.path, response.value.resume)];
    }
    var ok := AwaitAll(published, resolves);
    if !ok {
      return published, None, PublishFailed;
    }
    insert := InsertRows(messageId, response.value.children, datetime);
    if insert.Some? && !inserts(insert.value) {
      return published, insert, InsertFailed;
    }
    outcome := Acked;
  }
}
