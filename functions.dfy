/** The helpers of the browser's functions module: the pane-path table, the
    endpoint tables, the request the remote-operation client sends (URL,
    authorization choice, parameter record with the `_async` marker), the two
    comparators used to order listings and jobs, the search key filter and the
    MIME-type icon table. */
module Functions {
  import opened Text

  // ---------------------------------------------------------------------------
  // Panes and their paths

  /** The two file panes, "leftPanelFiles" and "rightPanelFiles". */
  datatype Pane = Left | Right

  function Other(p: Pane): (q: Pane)
    ensures q != p
  {
    if p == Left then Right else Left
  }

  /** `panelsPaths`: the path each pane shows, "" while no remote is chosen. */
  datatype PanelsPaths = PanelsPaths(left: string, right: string)
  {
    function Get(p: Pane): string
    {
      if p == Left then left else right
    }

    /** `panelsPaths[p] = path`: only the slot of p changes. */
    function Set(p: Pane, path: string): (r: PanelsPaths)
      ensures r.Get(p) == path
      ensures r.Get(Other(p)) == Get(Other(p))
    {
      if p == Left then this.(left := path) else this.(right := path)
    }
  }

  /** Both panes start with no remote chosen. */
  const InitialPanelsPaths := PanelsPaths("", "")

  /** `getDestinationPath`: an operation started in one pane targets the
      path of the other pane. */
  function DestinationPath(paths: PanelsPaths, from: Pane): (dst: string)
    ensures dst == paths.Get(Other(from))
    ensures from == Left ==> dst == paths.right
    ensures from == Right ==> dst == paths.left
  {
    if from == Left then paths.right else paths.left
  }

  /** `panelsPathsHaveValue`: both panes have a remote chosen. */
  predicate PanelsPathsHaveValue(paths: PanelsPaths)
  {
    !(paths.left == "" || paths.right == "")
  }

  lemma PanelsPathsHaveValueIff(paths: PanelsPaths)
    ensures PanelsPathsHaveValue(paths) <==> paths.Get(Left) != "" && paths.Get(Right) != ""
    ensures PanelsPathsHaveValue(paths) ==> DestinationPath(paths, Left) != "" && DestinationPath(paths, Right) != ""
  {
  }

  // ---------------------------------------------------------------------------
  // Operation kinds and endpoints

  const Copy := "copy"
  const Move := "move"
  const Delete := "delete"

  predicate IsKnownOperation(op: string)
  {
    op == Copy || op == Move || op == Delete
  }

  /** The endpoints the client marks for asynchronous (job-backed) execution. */
  const AsyncOperations: seq<string> := [
    "/sync/copy",
    "/sync/move",
    "/operations/purge",
    "/operations/copyfile",
    "/operations/movefile",
    "/operations/deletefile"
  ]

  /** `getFolderOperation`: the folder-scoped endpoint of an operation kind,
      "" for an unknown kind. */
  function FolderOperation(op: string): (endpoint: string)
    ensures endpoint == "" <==> !IsKnownOperation(op)
    ensures endpoint != "" ==> endpoint in AsyncOperations
  {
    if op == Copy then "/sync/copy"
    else if op == Move then "/sync/move"
    else if op == Delete then "/operations/purge"
    else ""
  }

  /** `getFileOperation`: the file-scoped endpoint of an operation kind,
      "" for an unknown kind. */
  function FileOperation(op: string): (endpoint: string)
    ensures endpoint == "" <==> !IsKnownOperation(op)
    ensures endpoint != "" ==> endpoint in AsyncOperations
  {
    if op == Copy then "/operations/copyfile"
    else if op == Move then "/operations/movefile"
    else if op == Delete then "/operations/deletefile"
    else ""
  }

  /** The two tables are one-to-one on the known kinds and never share an
      endpoint, so every transfer endpoint names exactly one (kind, scope). */
  lemma EndpointTablesInjective(a: string, b: string)
    ensures FolderOperation(a) != "" && FolderOperation(a) == FolderOperation(b) ==> a == b
    ensures FileOperation(a) != "" && FileOperation(a) == FileOperation(b) ==> a == b
    ensures FolderOperation(a) != FileOperation(b) || FolderOperation(a) == ""
  {
  }

  /** The six asynchronous endpoints are exactly the images of the two tables. */
  lemma AsyncOperationsAreTransferEndpoints(endpoint: string)
    ensures endpoint in AsyncOperations <==>
      exists op :: IsKnownOperation(op) && (endpoint == FolderOperation(op) || endpoint == FileOperation(op))
  {
    if endpoint in AsyncOperations {
      var i :| 0 <= i < |AsyncOperations| && AsyncOperations[i] == endpoint;
      var op := if i % 3 == 0 then Copy else if i % 3 == 1 then Move else Delete;
      assert endpoint == FolderOperation(op) || endpoint == FileOperation(op);
    }
  }

  // ---------------------------------------------------------------------------
  // The remote-operation client

  /** A parameter value of a request body. */
  datatype Value = Str(s: string) | Flag(b: bool)

  /** A request body: the JSON object sent to the backend. */
  type Params = map<string, Value>

  /** Which Authorization header a request carries; the base64 encoding of
      user and password is not modelled, only the choice of credentials. */
  datatype Authorization = NoAuthorization | Token(token: string) | UserPass(user: string, pass: string)

  /** `rcloneSettings`: backend address and credentials. */
  datatype RcloneSettings = RcloneSettings(host: string, user: Option<string>, pass: Option<string>, loginToken: Option<string>)

  /** The settings shipped with the browser (no login token until one is read
      from the page's query string). */
  const DefaultSettings := RcloneSettings("http://omv.local:5572", Some("rcloneadmin"), Some("typer"), None)

  /** Seconds between view refreshes. */
  const DefaultRefreshViewSeconds := 2

  /** One POST to the backend: URL, Authorization header and JSON body (None
      when the caller passes no parameters, so nothing is sent as body). */
  datatype Request = Request(url: string, authorization: Authorization, body: Option<Params>)

  /** The credentials precedence of `sendRequestToRclone`. */
  function AuthorizationFor(settings: RcloneSettings): (a: Authorization)
    ensures settings.loginToken.Some? ==> a == Token(settings.loginToken.value)
    ensures settings.loginToken.None? && settings.user.Some? && settings.pass.Some? ==>
              a == UserPass(settings.user.value, settings.pass.value)
    ensures a == NoAuthorization <==> settings.loginToken.None? && (settings.user.None? || settings.pass.None?)
  {
    if settings.loginToken.Some? then Token(settings.loginToken.value)
    else if settings.user.Some? && settings.pass.Some? then UserPass(settings.user.value, settings.pass.value)
    else NoAuthorization
  }

  /** `sendRequestToRclone(query, params, fn)`, up to the moment the request is
      sent: the URL is the host followed by the endpoint, the credentials follow
      AuthorizationFor, and a non-null parameter record is sent with `_async`
      set to true exactly when the endpoint is one of AsyncOperations; every
      other parameter is sent as given. */
  function SendRequest(settings: RcloneSettings, query: string, params: Option<Params>): (r: Request)
    ensures r.url == settings.host + query
    ensures r.authorization == AuthorizationFor(settings)
    ensures r.body.Some? <==> params.Some?
    ensures params.Some? && query in AsyncOperations ==>
              r.body.value.Keys == params.value.Keys + {"_async"} && r.body.value["_async"] == Flag(true)
    ensures params.Some? && query !in AsyncOperations ==> r.body.value == params.value
    ensures params.Some? ==> forall k :: k in params.value && k != "_async" ==> k in r.body.value && r.body.value[k] == params.value[k]
  {
    var body := if params.None? then None
                else if query in AsyncOperations then Some(params.value["_async" := Flag(true)])
                else Some(params.value);
    Request(settings.host + query, AuthorizationFor(settings), body)
  }

  /** What the completion callback of a request receives: the parsed response
      on HTTP status 200, null (None) on any other status. */
  function CallbackArgument<T>(status: int, parsed: T): (r: Option<T>)
    ensures r.None? <==> status != 200
    ensures r.Some? ==> r.value == parsed
  {
    if status != 200 then None else Some(parsed)
  }

  // ---------------------------------------------------------------------------
  // Listings and the folders-first order

  /** One entry of an `/operations/list` response. */
  datatype Entry = Entry(name: string, path: string, isDir: bool, mimeType: string)

  /** `sortFilesAndFolders`: folders before files, no other preference. */
  function SortFilesAndFolders(a: Entry, b: Entry): (r: int)
  {
    if a.isDir && !b.isDir then -1
    else if !a.isDir && b.isDir then 1
    else 0
  }

  lemma SortFilesAndFoldersAntisymmetric(a: Entry, b: Entry)
    ensures SortFilesAndFolders(a, b) == -SortFilesAndFolders(b, a)
    ensures SortFilesAndFolders(a, b) < 0 <==> a.isDir && !b.isDir
    ensures SortFilesAndFolders(a, b) == 0 <==> a.isDir == b.isDir
  {
  }

  /** A stable sort by a comparator (the order `Array.prototype.sort` gives for
      a consistent comparator): each element goes before the first element
      that does not sort strictly before it. */
  function Insert<T>(x: T, s: seq<T>, cmp: (T, T) -> int): (r: seq<T>)
    ensures multiset(r) == multiset(s) + multiset{x}
  {
    if s == [] || cmp(x, s[0]) <= 0 then [x] + s
    else
      assert s == [s[0]] + s[1..];
      [s[0]] + Insert(x, s[1..], cmp)
  }

  function SortBy<T>(s: seq<T>, cmp: (T, T) -> int): (r: seq<T>)
    ensures multiset(r) == multiset(s)
    ensures |r| == |s|
  {
    if s == [] then []
    else
      assert s == [s[0]] + s[1..];
      Insert(s[0], SortBy(s[1..], cmp), cmp)
  }

  function Folders(s: seq<Entry>): (r: seq<Entry>)
  {
    if s == [] then [] else (if s[0].isDir then [s[0]] else []) + Folders(s[1..])
  }

  function Files(s: seq<Entry>): (r: seq<Entry>)
  {
    if s == [] then [] else (if s[0].isDir then [] else [s[0]]) + Files(s[1..])
  }

  lemma {:induction false} InsertFile(x: Entry, folders: seq<Entry>, files: seq<Entry>)
    requires !x.isDir
    requires forall k :: 0 <= k < |folders| ==> folders[k].isDir
    requires forall k :: 0 <= k < |files| ==> !files[k].isDir
    ensures Insert(x, folders + files, SortFilesAndFolders) == folders + [x] + files
  {
    if folders != [] {
      assert (folders + files)[0] == folders[0];
      assert (folders + files)[1..] == folders[1..] + files;
      InsertFile(x, folders[1..], files);
    }
  }

  lemma ConcatAssociative<T>(a: seq<T>, b: seq<T>, c: seq<T>)
    ensures a + (b + c) == (a + b) + c
  {
  }

  lemma InsertFolder(x: Entry, s: seq<Entry>)
    requires x.isDir
    ensures Insert(x, s, SortFilesAndFolders) == [x] + s
  {
    assert s == [] || SortFilesAndFolders(x, s[0]) <= 0;
  }

  lemma {:induction false} FoldersAndFilesKinds(s: seq<Entry>)
    ensures forall k :: 0 <= k < |Folders(s)| ==> Folders(s)[k].isDir
    ensures forall k :: 0 <= k < |Files(s)| ==> !Files(s)[k].isDir
  {
    if s != [] {
      FoldersAndFilesKinds(s[1..]);
    }
  }

  /** Sorting a listing with sortFilesAndFolders puts every folder before
      every file and keeps the listing order within folders and within files. */
  lemma {:induction false} SortFoldersFirst(s: seq<Entry>)
    ensures SortBy(s, SortFilesAndFolders) == Folders(s) + Files(s)
  {
    if s != [] {
      var x, t := s[0], s[1..];
      SortFoldersFirst(t);
      var fo, fi := Folders(t), Files(t);
      assert SortBy(s, SortFilesAndFolders) == Insert(x, fo + fi, SortFilesAndFolders);
      if x.isDir {
        assert Folders(s) == [x] + fo && Files(s) == fi;
        InsertFolder(x, fo + fi);
        ConcatAssociative([x], fo, fi);
      } else {
        assert Folders(s) == fo && Files(s) == [x] + fi;
        FoldersAndFilesKinds(t);
        InsertFile(x, fo, fi);
        ConcatAssociative(fo, [x], fi);
      }
    }
  }

  // ---------------------------------------------------------------------------
  // Jobs and their order

  /** An active or completed backend job as the browser reads it: the group
      identifier `<prefix>/<number>` (absent on some jobs), the display name
      and the "integrity check only" flag of completed entries. */
  datatype Job = Job(group: Option<string>, name: string, checked: bool)

  /** `Number(group.substring(group.lastIndexOf("/") + 1))`: the numeric suffix
      of a group identifier; an empty suffix reads as 0 and a suffix that is
      not a run of digits as NaN (None). */
  function JobNumber(group: string): (n: Option<int>)
    ensures n.Some? ==> n.value >= 0
  {
    var suffix := group[AfterLastSlash(group)..];
    if suffix == "" then Some(0)
    else if forall k :: 0 <= k < |suffix| ==> IsDigit(suffix[k]) then Some(DigitsValue(suffix))
    else None
  }

  /** The number of a group `<prefix>/<n>` is n: the suffix after the last
      slash is read back as the decimal number it was written as. */
  lemma JobNumberOfDecimal(prefix: string, n: nat)
    ensures JobNumber(prefix + "/" + DecimalString(n)) == Some(n)
  {
    var d := DecimalString(n);
    var g := prefix + "/" + d;
    var last := LastIndexOf(g, '/');
    assert g[|prefix|] == '/';
    forall k | |prefix| < k < |g| ensures g[k] != '/' {
      assert g[k] == d[k - |prefix| - 1];
    }
    assert g[AfterLastSlash(g)..] == d;
    DigitsValueOfDecimal(n);
  }

  /** `jobA < jobB` on two numbers, false whenever either is NaN. */
  predicate NumberLess(a: Option<int>, b: Option<int>)
  {
    a.Some? && b.Some? && a.value < b.value
  }

  /** `sortJobs`: no preference when either job lacks a group; otherwise -1
      when a's number is smaller than b's and 1 in every other case, equal
      numbers and NaN included. */
  function SortJobs(a: Job, b: Job): (r: int)
    ensures r == 0 <==> a.group.None? || b.group.None?
    ensures r == -1 <==> a.group.Some? && b.group.Some? && NumberLess(JobNumber(a.group.value), JobNumber(b.group.value))
    ensures r == -1 || r == 0 || r == 1
  {
    if a.group.None? || b.group.None? then 0
    else
      var jobA := JobNumber(a.group.value);
      var jobB := JobNumber(b.group.value);
      if NumberLess(jobA, jobB) then -1 else 1
  }

  /** sortJobs is not a consistent comparator: two grouped jobs with the same
      number each sort after the other. */
  lemma SortJobsEqualNumbersInconsistent(a: Job, b: Job)
    requires a.group.Some? && b.group.Some?
    requires JobNumber(a.group.value) == JobNumber(b.group.value)
    ensures SortJobs(a, b) == 1 && SortJobs(b, a) == 1
  {
  }

  /** A job whose group carries a number. */
  predicate Numbered(j: Job)
  {
    j.group.Some? && JobNumber(j.group.value).Some?
  }

  function Num(j: Job): int
    requires Numbered(j)
  {
    JobNumber(j.group.value).value
  }

  predicate DistinctNumbers(s: seq<Job>)
  {
    (forall k :: 0 <= k < |s| ==> Numbered(s[k]))
    && forall i, j :: 0 <= i < j < |s| ==> Num(s[i]) != Num(s[j])
  }

  predicate Ascending(s: seq<Job>)
    requires forall k :: 0 <= k < |s| ==> Numbered(s[k])
  {
    forall i, j :: 0 <= i < j < |s| ==> Num(s[i]) < Num(s[j])
  }

  lemma {:induction false} InsertJobAscending(x: Job, s: seq<Job>)
    requires Numbered(x)
    requires forall k :: 0 <= k < |s| ==> Numbered(s[k]) && Num(s[k]) != Num(x)
    requires Ascending(s)
    ensures forall k :: 0 <= k < |Insert(x, s, SortJobs)| ==> Numbered(Insert(x, s, SortJobs)[k])
    ensures Ascending(Insert(x, s, SortJobs))
  {
    if s == [] || SortJobs(x, s[0]) <= 0 {
      AscendingCons(x, s);
    } else {
      var t := s[1..];
      InsertJobAscending(x, t);
      var rt := Insert(x, t, SortJobs);
      forall k | 0 <= k < |rt| ensures Num(s[0]) < Num(rt[k]) {
        InsertElement(x, t, SortJobs, k);
      }
      AscendingCons(s[0], rt);
    }
  }

  /** Every element of an insertion is the inserted one or an old one. */
  lemma InsertElement<T>(x: T, s: seq<T>, cmp: (T, T) -> int, k: nat)
    requires k < |Insert(x, s, cmp)|
    ensures Insert(x, s, cmp)[k] == x || Insert(x, s, cmp)[k] in s
  {
    var r := Insert(x, s, cmp);
    assert r[k] in multiset(r);
  }

  lemma AscendingCons(h: Job, s: seq<Job>)
    requires Numbered(h) && forall k :: 0 <= k < |s| ==> Numbered(s[k]) && Num(h) < Num(s[k])
    requires Ascending(s)
    ensures forall k :: 0 <= k < |[h] + s| ==> Numbered(([h] + s)[k])
    ensures Ascending([h] + s)
  {
    var r := [h] + s;
    forall i, j | 0 <= i < j < |r| ensures Num(r[i]) < Num(r[j]) {
      assert r[j] == s[j - 1];
      if i > 0 {
        assert r[i] == s[i - 1];
      }
    }
  }

  predicate NonDecreasing(s: seq<Job>)
    requires forall k :: 0 <= k < |s| ==> Numbered(s[k])
  {
    forall i, j :: 0 <= i < j < |s| ==> Num(s[i]) <= Num(s[j])
  }

  lemma {:induction false} InsertJobNonDecreasing(x: Job, s: seq<Job>)
    requires Numbered(x)
    requires forall k :: 0 <= k < |s| ==> Numbered(s[k])
    requires NonDecreasing(s)
    ensures forall k :: 0 <= k < |Insert(x, s, SortJobs)| ==> Numbered(Insert(x, s, SortJobs)[k])
    ensures NonDecreasing(Insert(x, s, SortJobs))
  {
    if s == [] || SortJobs(x, s[0]) <= 0 {
      NonDecreasingCons(x, s);
    } else {
      var t := s[1..];
      InsertJobNonDecreasing(x, t);
      var rt := Insert(x, t, SortJobs);
      forall k | 0 <= k < |rt| ensures Num(s[0]) <= Num(rt[k]) {
        InsertElement(x, t, SortJobs, k);
      }
      NonDecreasingCons(s[0], rt);
    }
  }

  lemma NonDecreasingCons(h: Job, s: seq<Job>)
    requires Numbered(h) && forall k :: 0 <= k < |s| ==> Numbered(s[k]) && Num(h) <= Num(s[k])
    requires NonDecreasing(s)
    ensures forall k :: 0 <= k < |[h] + s| ==> Numbered(([h] + s)[k])
    ensures NonDecreasing([h] + s)
  {
    var r := [h] + s;
    forall i, j | 0 <= i < j < |r| ensures Num(r[i]) <= Num(r[j]) {
      assert r[j] == s[j - 1];
      if i > 0 {
        assert r[i] == s[i - 1];
      }
    }
  }

  /** Sorting numbered jobs with sortJobs orders them by group number,
      non-decreasing: jobs sharing a group (the transfers of one folder job)
      end up next to each other, in an order the comparator does not fix. */
  lemma {:induction false} SortJobsNonDecreasing(s: seq<Job>)
    requires forall k :: 0 <= k < |s| ==> Numbered(s[k])
    ensures forall k :: 0 <= k < |SortBy(s, SortJobs)| ==> Numbered(SortBy(s, SortJobs)[k])
    ensures NonDecreasing(SortBy(s, SortJobs))
  {
    if s != [] {
      var t := s[1..];
      SortJobsNonDecreasing(t);
      var st := SortBy(t, SortJobs);
      forall k | 0 <= k < |st| ensures Numbered(st[k]) {
        assert st[k] in multiset(st);
        assert st[k] in t;
      }
      InsertJobNonDecreasing(s[0], st);
    }
  }

  /** Completed numbered jobs are shown sorted with sortJobs and reversed:
      by group number, non-increasing. */
  lemma CompletedJobsNonIncreasing(s: seq<Job>)
    requires forall k :: 0 <= k < |s| ==> Numbered(s[k])
    ensures var r := Reverse(SortBy(s, SortJobs));
            (forall k :: 0 <= k < |r| ==> Numbered(r[k])) &&
            forall i, j :: 0 <= i < j < |r| ==> Num(r[i]) >= Num(r[j])
  {
    SortJobsNonDecreasing(s);
  }

  /** With distinct numbered groups, sorting active jobs with sortJobs orders
      them by group number, ascending. */
  lemma {:induction false} SortJobsAscending(s: seq<Job>)
    requires DistinctNumbers(s)
    ensures forall k :: 0 <= k < |SortBy(s, SortJobs)| ==> Numbered(SortBy(s, SortJobs)[k])
    ensures Ascending(SortBy(s, SortJobs))
  {
    if s != [] {
      var t := s[1..];
      SortJobsAscending(t);
      var st := SortBy(t, SortJobs);
      forall k | 0 <= k < |st| ensures Numbered(st[k]) && Num(st[k]) != Num(s[0]) {
        assert st[k] in multiset(st);
        assert st[k] in t;
      }
      InsertJobAscending(s[0], st);
    }
  }

  function Reverse<T>(s: seq<T>): (r: seq<T>)
    ensures |r| == |s|
    ensures forall k :: 0 <= k < |s| ==> r[k] == s[|s| - 1 - k]
  {
    if s == [] then [] else Reverse(s[1..]) + [s[0]]
  }

  /** Completed jobs are shown sorted with sortJobs and then reversed: with
      distinct numbered groups, the most recent (highest) number comes first. */
  lemma CompletedJobsDescending(s: seq<Job>)
    requires DistinctNumbers(s)
    ensures var r := Reverse(SortBy(s, SortJobs));
            (forall k :: 0 <= k < |r| ==> Numbered(r[k])) &&
            forall i, j :: 0 <= i < j < |r| ==> Num(r[i]) > Num(r[j])
  {
    SortJobsAscending(s);
  }

  /** Three completed jobs whose group numbers (see JobNumberOfDecimal:
      `job/3`, `job/1` and `job/2`, say) are given in the order 3, 1, 2 are
      shown in the order 3, 2, 1. */
  lemma CompletedJobsNewestFirst(a: Job, b: Job, c: Job)
    requires Numbered(a) && Numbered(b) && Numbered(c)
    requires Num(b) < Num(c) < Num(a)
    ensures Reverse(SortBy([a, b, c], SortJobs)) == [a, c, b]
  {
    SortThree(a, b, c, SortJobs);
    ReverseThree(b, c, a);
  }

  lemma ReverseThree<T>(x: T, y: T, z: T)
    ensures Reverse([x, y, z]) == [z, y, x]
  {
  }

  /** The insertion sort of three items: [b, c, a] when b goes before c and
      a after both. */
  lemma SortThree<T>(a: T, b: T, c: T, cmp: (T, T) -> int)
    requires cmp(b, c) <= 0 && cmp(a, b) > 0 && cmp(a, c) > 0
    ensures SortBy([a, b, c], cmp) == [b, c, a]
  {
    SortByCons(c, [], cmp);
    SortByCons(b, [c], cmp);
    SortByCons(a, [b, c], cmp);
    InsertPast(a, b, [c], cmp);
    InsertPast(a, c, [], cmp);
  }

  lemma SortByCons<T>(x: T, s: seq<T>, cmp: (T, T) -> int)
    ensures SortBy([x] + s, cmp) == Insert(x, SortBy(s, cmp), cmp)
  {
    assert ([x] + s)[1..] == s;
  }

  lemma InsertPast<T>(x: T, h: T, s: seq<T>, cmp: (T, T) -> int)
    requires cmp(x, h) > 0
    ensures Insert(x, [h] + s, cmp) == [h] + Insert(x, s, cmp)
  {
    assert ([h] + s)[1..] == s;
  }

  // ---------------------------------------------------------------------------
  // Search key filter and icons

  /** `acceptableKeyEventForSearch`: letters (either case range), backspace and
      delete, with or without Ctrl. */
  function AcceptableKeyEventForSearch(keyCode: int, ctrlKey: bool): (r: bool)
    ensures r <==> (65 <= keyCode <= 90 || 97 <= keyCode <= 122 || keyCode == 8 || keyCode == 46)
  {
    (keyCode > 64 && keyCode < 91)
    || (keyCode > 96 && keyCode < 123)
    || (keyCode == 8 || (keyCode == 8 && ctrlKey))
    || (keyCode == 46 || (keyCode == 46 && ctrlKey))
  }

  /** The MIME types the icon table lists. */
  const KnownMimeTypes: set<string> := {
    "inode/directory",
    "video/x-matroska", "video/mp4", "video/webm",
    "audio/aac", "audio/mpeg", "audio/ac3", "audio/flac",
    "image/jpeg", "image/png", "image/svg+xml",
    "text/srt; charset=utf-8", "text/plain", "text/plain; charset=utf-8",
    "application/pdf",
    "application/json", "application/javascript", "text/css", "text/css; charset=utf-8",
    "text/html", "text/html; charset=utf-8",
    "application/zip", "application/x-7z-compressed", "application/gzip"
  }

  /** `getIconType`: the icon file of a MIME type. */
  function IconType(mimeType: string): (icon: string)
    ensures icon == "folder.svg" <==> mimeType == "inode/directory"
    ensures icon == "file-earmark.svg" <==> mimeType !in KnownMimeTypes
  {
    if mimeType == "inode/directory" then "folder.svg"
    else if mimeType in {"video/x-matroska", "video/mp4", "video/webm"} then "film.svg"
    else if mimeType in {"audio/aac", "audio/mpeg", "audio/ac3", "audio/flac"} then "music-note-beamed.svg"
    else if mimeType in {"image/jpeg", "image/png", "image/svg+xml"} then "image.svg"
    else if mimeType in {"text/srt; charset=utf-8", "text/plain", "text/plain; charset=utf-8"} then "file-text.svg"
    else if mimeType == "application/pdf" then "file-richtext.svg"
    else if mimeType in {"application/json", "application/javascript", "text/css", "text/css; charset=utf-8",
                         "text/html", "text/html; charset=utf-8"} then "file-code.svg"
    else if mimeType in {"application/zip", "application/x-7z-compressed", "application/gzip"} then "file-zip.svg"
    else "file-earmark.svg"
  }
}
