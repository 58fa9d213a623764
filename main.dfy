/** The browser's controller: the pane paths, the transfer queue and the
    scheduler tick that dispatches its head, navigation (openPath and its path
    arithmetic), the transfer counts the status poller writes, job
    cancellation and the refresh-interval setting. */
module App {
  import opened Text
  import opened Functions
  import opened Panel

  // ---------------------------------------------------------------------------
  // Queue records

  /** One pending operation on one item, as `addToQueue` records it: the
      kind of operation, the kind of item, its full path split into parent
      and leaf, the destination fixed when it was queued, and the pane it was
      queued from. */
  datatype QueuedOp = QueuedOp(
    operationType: string,
    dataType: string,
    dataPath: string,
    sourcePath: string,
    targetPath: string,
    dstFS: string,
    filesPanelID: Pane)

  /** The parent/leaf split every queued record satisfies. */
  predicate WellFormed(op: QueuedOp)
  {
    && op.sourcePath + op.targetPath == op.dataPath
    && '/' !in op.targetPath
    && (op.sourcePath == "" || op.sourcePath[|op.sourcePath| - 1] == '/')
  }

  /** The record queued for one checked row, `destination` being the other
      pane's path when the command was given: the row's path is split at its
      last slash, and the destination is that path followed by the leaf name
      for a folder, or by a bare slash for a file. */
  function MakeOp(operationType: string, line: FileLine, pane: Pane, destination: string): (op: QueuedOp)
    ensures WellFormed(op)
    ensures op.operationType == operationType && op.dataType == line.dataType
    ensures op.dataPath == line.dataPath && op.filesPanelID == pane
    ensures line.dataType == "folder" ==> op.dstFS == destination + "/" + op.targetPath
    ensures line.dataType != "folder" ==> op.dstFS == destination + "/"
  {
    var lastSlash := AfterLastSlash(line.dataPath);
    var sourcePath := line.dataPath[..lastSlash];
    var targetPath := line.dataPath[lastSlash..];
    assert sourcePath + targetPath == line.dataPath;
    QueuedOp(operationType, line.dataType, line.dataPath, sourcePath, targetPath,
             if line.dataType == "folder" then destination + "/" + targetPath else destination + "/",
             pane)
  }

  /** The records queued for the checked rows among `lines`, in row order. */
  function QueuedFrom(operationType: string, pane: Pane, destination: string,
                      lines: seq<FileLine>, flags: seq<bool>): (ops: seq<QueuedOp>)
    requires |lines| == |flags|
  {
    if lines == [] then []
    else
      var n := |lines| - 1;
      QueuedFrom(operationType, pane, destination, lines[..n], flags[..n])
      + (if flags[n] then [MakeOp(operationType, lines[n], pane, destination)] else [])
  }

  /** Taking one more row into account appends at most its record. */
  lemma QueuedFromStep(operationType: string, pane: Pane, destination: string,
                       lines: seq<FileLine>, flags: seq<bool>, i: nat)
    requires |lines| == |flags| && i < |lines|
    ensures QueuedFrom(operationType, pane, destination, lines[..i + 1], flags[..i + 1])
         == QueuedFrom(operationType, pane, destination, lines[..i], flags[..i])
            + (if flags[i] then [MakeOp(operationType, lines[i], pane, destination)] else [])
  {
    assert lines[..i + 1][..i] == lines[..i];
    assert flags[..i + 1][..i] == flags[..i];
  }

  function CountTrue(flags: seq<bool>): nat
  {
    if flags == [] then 0 else CountTrue(flags[..|flags| - 1]) + (if flags[|flags| - 1] then 1 else 0)
  }

  /** One record per checked row: as many records as checked boxes, each a
      well-formed record of the command's kind for a checked row of the pane,
      with that row's path and kind and the destination of that moment. */
  lemma {:induction false} QueuedFromRecords(operationType: string, pane: Pane, destination: string,
                                             lines: seq<FileLine>, flags: seq<bool>)
    requires |lines| == |flags|
    ensures var ops := QueuedFrom(operationType, pane, destination, lines, flags);
            |ops| == CountTrue(flags) &&
            forall k :: 0 <= k < |ops| ==>
              WellFormed(ops[k]) && ops[k].operationType == operationType && ops[k].filesPanelID == pane &&
              exists i :: 0 <= i < |lines| && flags[i] && ops[k] == MakeOp(operationType, lines[i], pane, destination)
  {
    if lines != [] {
      var n := |lines| - 1;
      QueuedFromRecords(operationType, pane, destination, lines[..n], flags[..n]);
      var ops := QueuedFrom(operationType, pane, destination, lines, flags);
      var front := QueuedFrom(operationType, pane, destination, lines[..n], flags[..n]);
      forall k | 0 <= k < |ops|
        ensures exists i :: 0 <= i < |lines| && flags[i] && ops[k] == MakeOp(operationType, lines[i], pane, destination)
      {
        if k < |front| {
          var i :| 0 <= i < n && flags[..n][i] && front[k] == MakeOp(operationType, lines[..n][i], pane, destination);
          assert flags[i] && lines[i] == lines[..n][i];
        } else {
          assert flags[n] && ops[k] == MakeOp(operationType, lines[n], pane, destination);
        }
      }
    }
  }

  // ---------------------------------------------------------------------------
  // Dispatch of a queued record

  /** A backend call: endpoint and parameter record. */
  datatype Call = Call(endpoint: string, params: Params)

  /** `copyOrMoveOperation`: a folder is copied or moved as a whole from its
      full path to the destination fixed at enqueue time (a move also asks the
      backend to delete the emptied source directories); a file is copied or
      moved from its parent with the same leaf name on both sides. */
  function CopyOrMoveCall(op: QueuedOp): (c: Call)
    ensures op.dataType == "folder" ==>
      && c.endpoint == FolderOperation(op.operationType)
      && c.params.Keys == {"srcFs", "dstFs"} + (if op.operationType == Move then {"deleteEmptySrcDirs"} else {})
      && c.params["srcFs"] == Str(op.dataPath) && c.params["dstFs"] == Str(op.dstFS)
      && (op.operationType == Move ==> c.params["deleteEmptySrcDirs"] == Flag(true))
    ensures op.dataType != "folder" ==>
      && c.endpoint == FileOperation(op.operationType)
      && c.params.Keys == {"srcFs", "srcRemote", "dstFs", "dstRemote"}
      && c.params["srcFs"] == Str(op.sourcePath) && c.params["dstFs"] == Str(op.dstFS)
      && c.params["srcRemote"] == c.params["dstRemote"] == Str(op.targetPath)
  {
    if op.dataType == "folder" then
      var params := map["srcFs" := Str(op.dataPath), "dstFs" := Str(op.dstFS)];
      Call(FolderOperation(op.operationType),
           if op.operationType == Move then params["deleteEmptySrcDirs" := Flag(true)] else params)
    else
      Call(FileOperation(op.operationType),
           map["srcFs" := Str(op.sourcePath), "srcRemote" := Str(op.targetPath),
               "dstFs" := Str(op.dstFS), "dstRemote" := Str(op.targetPath)])
  }

  /** `deleteOperation`: the item's parent and leaf, to the folder- or
      file-scoped delete endpoint according to the item kind. */
  function DeleteCall(op: QueuedOp): (c: Call)
    ensures c.endpoint == if op.dataType == "folder" then FolderOperation(op.operationType) else FileOperation(op.operationType)
    ensures c.params.Keys == {"fs", "remote"}
    ensures c.params["fs"] == Str(op.sourcePath) && c.params["remote"] == Str(op.targetPath)
  {
    Call(if op.dataType == "folder" then FolderOperation(op.operationType) else FileOperation(op.operationType),
         map["fs" := Str(op.sourcePath), "remote" := Str(op.targetPath)])
  }

  /** What one scheduler tick sends for the record it took off the queue:
      nothing for an operation kind it does not know. */
  function Dispatch(settings: RcloneSettings, op: QueuedOp): Option<Request>
  {
    if op.operationType == Copy || op.operationType == Move then
      var c := CopyOrMoveCall(op);
      Some(SendRequest(settings, c.endpoint, Some(c.params)))
    else if op.operationType == Delete then
      var c := DeleteCall(op);
      Some(SendRequest(settings, c.endpoint, Some(c.params)))
    else None
  }

  /** Every record of a known kind is sent, to the endpoint its kind and item
      kind select, as an asynchronous job; a record of another kind is not. */
  lemma DispatchIsAsyncTransfer(settings: RcloneSettings, op: QueuedOp)
    ensures Dispatch(settings, op).Some? <==> IsKnownOperation(op.operationType)
    ensures Dispatch(settings, op).Some? ==>
      var r := Dispatch(settings, op).value;
      var endpoint := if op.dataType == "folder" then FolderOperation(op.operationType) else FileOperation(op.operationType);
      && r.url == settings.host + endpoint
      && endpoint in AsyncOperations
      && r.authorization == AuthorizationFor(settings)
      && r.body.Some? && "_async" in r.body.value && r.body.value["_async"] == Flag(true)
  {
  }

  /** For a queued folder the copy/move source is the folder itself; for a
      queued file the parent and leaf sent rebuild the file's path; a delete
      names the parent and the leaf. */
  lemma DispatchNamesQueuedItem(settings: RcloneSettings, op: QueuedOp)
    requires WellFormed(op) && IsKnownOperation(op.operationType)
    ensures var body := Dispatch(settings, op).value.body.value;
      && (op.operationType != Delete && op.dataType == "folder" ==>
            body["srcFs"] == Str(op.dataPath) && body["dstFs"] == Str(op.dstFS)
            && ("deleteEmptySrcDirs" in body <==> op.operationType == Move))
      && (op.operationType != Delete && op.dataType != "folder" ==>
            body["srcFs"].s + body["srcRemote"].s == op.dataPath
            && body["dstRemote"] == body["srcRemote"] && body["dstFs"] == Str(op.dstFS))
      && (op.operationType == Delete ==> body["fs"].s + body["remote"].s == op.dataPath)
  {
  }

  // ---------------------------------------------------------------------------
  // Navigation path arithmetic

  /** `basePath` of openPath: the path up to and including its last slash, or
      the path followed by a slash when it has none. */
  function BasePath(path: string): string
  {
    var lastSlash := AfterLastSlash(path);
    if lastSlash != 0 then path[..lastSlash] else path + "/"
  }

  /** `nextPath` of openPath: the last segment, "" when the path has no slash. */
  function NextPath(path: string): string
  {
    var lastSlash := AfterLastSlash(path);
    if lastSlash != 0 then path[lastSlash..] else ""
  }

  /** `basePath.replace(/'/g, "\\'")`: a backslash before each single quote. */
  function EscapeQuotes(s: string): (r: string)
    ensures '\'' !in s ==> r == s
  {
    if s == [] then []
    else (if s[0] == '\'' then ['\\', '\''] else [s[0]]) + EscapeQuotes(s[1..])
  }

  /** The target of the "up" row as main.js computes it: the part of the
      path before its last slash with every quote backslash-escaped, "" when
      the path has no slash. */
  function UpPath(path: string): string
  {
    EscapeQuotes(UpTarget(path))
  }

  /** The folder one level up: the part of the path before its last slash, ""
      when the path has no slash. This is the target the "up" row opens in
      this model. */
  function UpTarget(path: string): string
  {
    var lastSlash := AfterLastSlash(path);
    BasePath(path)[..if lastSlash == 0 then 0 else lastSlash - 1]
  }

  /** The listing request of openPath is a split of the path: the last
      segment is slash-free and the base path ends in the slash before it; a
      path without slash is listed as its own root. The up target is the
      prefix before the last slash, so it, a slash and the last segment give
      the path back. */
  lemma OpenPathSplit(path: string)
    ensures '/' in path ==>
      && BasePath(path) + NextPath(path) == path
      && '/' !in NextPath(path)
      && BasePath(path)[|BasePath(path)| - 1] == '/'
      && UpTarget(path) + "/" + NextPath(path) == path
    ensures '/' !in path ==> BasePath(path) == path + "/" && NextPath(path) == "" && UpTarget(path) == ""
  {
    var lastSlash := AfterLastSlash(path);
    if '/' in path {
      assert path[..lastSlash] + path[lastSlash..] == path;
      assert path[..lastSlash] == path[..lastSlash - 1] + "/";
    }
  }

  /** main.js's up target agrees with the intended one on every path without
      a quote. */
  lemma UpPathWithoutQuotes(path: string)
    requires '\'' !in path
    ensures UpPath(path) == UpTarget(path)
  {
    var up := UpTarget(path);
    assert '\'' !in up by {
      var lastSlash := AfterLastSlash(path);
      if lastSlash != 0 {
        forall k | 0 <= k < |up| ensures up[k] != '\'' {
          assert up[k] == path[k];
        }
      }
    }
  }

  /** main.js's up target keeps a backslash before each quote (perhaps left
      over from an inline HTML handler; the only trace of one is a
      commented-out attribute), so above a folder whose path holds a quote it
      names another folder, one with a backslash in its name. */
  lemma UpPathKeepsQuoteEscape()
    ensures UpTarget("a'/b") == "a'"
    ensures UpPath("a'/b") == "a\\'"
    ensures UpPath("a'/b") != UpTarget("a'/b")
  {
    var path := "a'/b";
    assert LastIndexOf(path[..3], '/') == 2;
    assert AfterLastSlash(path) == 3;
    assert UpTarget(path) == "a'";
    assert EscapeQuotes("a'") == "a" + EscapeQuotes("'");
    assert EscapeQuotes("'") == "\\'" + EscapeQuotes("");
  }

  /** The result of openPath: the listing request issued and the data the
      listing response is rendered with. */
  datatype Opened = Opened(listRequest: Request, basePath: string, upPath: string)

  /** The `/operations/list` parameters for a path. */
  function ListParams(path: string): Params
  {
    map["fs" := Str(BasePath(path)), "remote" := Str(NextPath(path))]
  }

  /** A remote preset: the folder a pane opens when the remote is chosen, and
      whether (and where) its free space is queried. */
  datatype RemotePreset = RemotePreset(startingFolder: string, canQueryDisk: bool, pathToQueryDisk: string)

  /** The path remoteChanged opens: `<remote>:/` followed by the preset's
      starting folder, if the remote has a preset. */
  function RemoteStartPath(remote: string, presets: map<string, RemotePreset>): (path: string)
    ensures !IsBlank(path)
    ensures |path| >= |remote| + 2 && path[..|remote| + 2] == remote + ":/"
  {
    var path := remote + ":/" + (if remote in presets then presets[remote].startingFolder else "");
    assert path[|remote|] == ':';
    path
  }

  // ---------------------------------------------------------------------------
  // Transfer counts and cancellation

  /** `updateCurrentTransfers` writes "0" when the backend reports no
      transfer (or no list), and the number of transfers otherwise. */
  function ActiveCountText(transfers: Option<seq<Job>>): (text: string)
    ensures text == "0" <==> transfers.None? || transfers.value == []
  {
    if transfers.None? || transfers.value == [] then "0"
    else
      DecimalStringZeroIff(|transfers.value|);
      DecimalString(|transfers.value|)
  }

  /** The completed transfers that count: those not flagged as checks. */
  function CountUnchecked(jobs: seq<Job>): nat
  {
    if jobs == [] then 0 else (if jobs[0].checked then 0 else 1) + CountUnchecked(jobs[1..])
  }

  /** The completed transfers that are displayed: those not flagged as
      checks, in the order given. */
  function Unchecked(jobs: seq<Job>): seq<Job>
  {
    if jobs == [] then [] else (if jobs[0].checked then [] else [jobs[0]]) + Unchecked(jobs[1..])
  }

  /** The displayed transfers are the entries that are not checks, and
      there are as many of them as the counter counts. */
  lemma {:induction false} UncheckedRows(jobs: seq<Job>)
    ensures |Unchecked(jobs)| == CountUnchecked(jobs)
    ensures forall k :: 0 <= k < |Unchecked(jobs)| ==> !Unchecked(jobs)[k].checked
  {
    if jobs != [] {
      var t := jobs[1..];
      UncheckedRows(t);
      var head := if jobs[0].checked then [] else [jobs[0]];
      var rows := Unchecked(jobs);
      assert rows == head + Unchecked(t);
      forall k | |head| <= k < |rows| ensures !rows[k].checked {
        assert rows[k] == Unchecked(t)[k - |head|];
      }
    }
  }

  /** Every entry that is not a check is displayed as often as it is listed. */
  lemma {:induction false} UncheckedKeeps(jobs: seq<Job>, x: Job)
    requires !x.checked
    ensures multiset(Unchecked(jobs))[x] == multiset(jobs)[x]
  {
    if jobs != [] {
      var t := jobs[1..];
      UncheckedKeeps(t, x);
      var head := if jobs[0].checked then [] else [jobs[0]];
      assert jobs == [jobs[0]] + t;
      assert multiset(Unchecked(jobs)) == multiset(head) + multiset(Unchecked(t));
    }
  }

  lemma {:induction false} CountUncheckedAppend(a: seq<Job>, b: seq<Job>)
    ensures CountUnchecked(a + b) == CountUnchecked(a) + CountUnchecked(b)
  {
    if a != [] {
      assert (a + b)[0] == a[0] && (a + b)[1..] == a[1..] + b;
      CountUncheckedAppend(a[1..], b);
    } else {
      assert a + b == b;
    }
  }

  /** The count of counted transfers does not depend on the order they are
      listed in. */
  lemma {:induction false} CountUncheckedPermutation(a: seq<Job>, b: seq<Job>)
    requires multiset(a) == multiset(b)
    ensures CountUnchecked(a) == CountUnchecked(b)
    decreases |a|
  {
    if a != [] {
      assert a[0] in multiset(b);
      var i :| 0 <= i < |b| && b[i] == a[0];
      var rest := b[..i] + b[i + 1..];
      RemoveAt(b, i);
      assert a == [a[0]] + a[1..];
      var one := multiset{a[0]};
      assert multiset(a[1..]) + one == multiset(rest) + one;
      forall x ensures multiset(a[1..])[x] == multiset(rest)[x] {
        assert (multiset(a[1..]) + one)[x] == (multiset(rest) + one)[x];
      }
      assert multiset(a[1..]) == multiset(rest);
      CountUncheckedPermutation(a[1..], rest);
    }
  }

  /** Taking one job out of a list takes it out of the multiset and out of
      the count. */
  lemma RemoveAt(b: seq<Job>, i: nat)
    requires i < |b|
    ensures multiset(b) == multiset(b[..i] + b[i + 1..]) + multiset{b[i]}
    ensures CountUnchecked(b) == CountUnchecked(b[..i] + b[i + 1..]) + (if b[i].checked then 0 else 1)
  {
    MultisetRemoveAt(b, i);
    SplitAt(b, i);
    RemoveAtCount(b[..i], b[i], b[i + 1..]);
  }

  lemma SplitAt<T>(b: seq<T>, i: nat)
    requires i < |b|
    ensures b == b[..i] + ([b[i]] + b[i + 1..])
  {
  }

  lemma MultisetRemoveAt<T>(b: seq<T>, i: nat)
    requires i < |b|
    ensures multiset(b) == multiset(b[..i] + b[i + 1..]) + multiset{b[i]}
  {
    var front, back := b[..i], b[i + 1..];
    assert b == front + [b[i]] + back;
    assert multiset(front + back) == multiset(front) + multiset(back);
  }

  lemma RemoveAtCount(front: seq<Job>, x: Job, back: seq<Job>)
    ensures CountUnchecked(front + ([x] + back)) == CountUnchecked(front + back) + (if x.checked then 0 else 1)
  {
    CountUncheckedAppend(front, [x] + back);
    CountUncheckedAppend(front, back);
    assert ([x] + back)[1..] == back;
  }

  lemma {:induction false} CountUncheckedBounds(jobs: seq<Job>)
    ensures CountUnchecked(jobs) <= |jobs|
    ensures CountUnchecked(jobs) == |jobs| <==> forall k :: 0 <= k < |jobs| ==> !jobs[k].checked
  {
    if jobs != [] {
      CountUncheckedBounds(jobs[1..]);
      if CountUnchecked(jobs) == |jobs| {
        forall k | 0 <= k < |jobs| ensures !jobs[k].checked {
          if k > 0 {
            assert jobs[k] == jobs[1..][k - 1];
          }
        }
      }
    }
  }

  lemma {:induction false} ReverseIsPermutation<T>(s: seq<T>)
    ensures multiset(Reverse(s)) == multiset(s)
  {
    if s != [] {
      ReverseIsPermutation(s[1..]);
      assert s == [s[0]] + s[1..];
    }
  }

  /** The completed-transfers counter counts the transfers of the response
      that are not checks, in whatever order they are displayed. */
  lemma CompletedCountIndependentOfOrder(jobs: seq<Job>)
    ensures CountUnchecked(Reverse(SortBy(jobs, SortJobs))) == CountUnchecked(jobs) <= |jobs|
  {
    ReverseIsPermutation(SortBy(jobs, SortJobs));
    CountUncheckedPermutation(Reverse(SortBy(jobs, SortJobs)), jobs);
    CountUncheckedBounds(jobs);
  }

  /** The rows `updateCompletedTransfers` displays for a response: the
      entries sorted with sortJobs and reversed, checks left out. */
  function CompletedRows(jobs: seq<Job>): seq<Job>
  {
    Unchecked(Reverse(SortBy(jobs, SortJobs)))
  }

  /** The displayed completed transfers are the response's entries that are
      not checks (each as often as in the response), and the counter shows
      how many rows are displayed. */
  lemma CompletedRowsAreTransfers(jobs: seq<Job>)
    ensures var rows := CompletedRows(jobs);
      && |rows| == CountUnchecked(jobs)
      && (forall k :: 0 <= k < |rows| ==> !rows[k].checked)
      && forall x: Job :: !x.checked ==> multiset(rows)[x] == multiset(jobs)[x]
  {
    var sorted := Reverse(SortBy(jobs, SortJobs));
    ReverseIsPermutation(SortBy(jobs, SortJobs));
    UncheckedRows(sorted);
    CompletedCountIndependentOfOrder(jobs);
    forall x: Job | !x.checked ensures multiset(CompletedRows(jobs))[x] == multiset(jobs)[x] {
      UncheckedKeeps(sorted, x);
    }
  }

  /** One step of the display loop: the row at t is displayed unless it is a
      check. */
  lemma UncheckedStep(rows: seq<Job>, s: seq<Job>, t: nat)
    requires t < |s|
    ensures rows + Unchecked(s[t..])
         == (if s[t].checked then rows else rows + [s[t]]) + Unchecked(s[t + 1..])
  {
    assert s[t..][1..] == s[t + 1..];
    ConcatAssociative(rows, [s[t]], Unchecked(s[t + 1..]));
  }

  /** `updateCompletedTransfers`: the completed jobs are sorted with sortJobs
      and reversed; the checks among them are skipped, the others are
      displayed and counted ("0" when the backend reports none). */
  method UpdateCompletedTransfers(completed: Option<seq<Job>>) returns (countText: string, rows: seq<Job>)
    ensures completed.None? || completed.value == [] ==> countText == "0" && rows == []
    ensures completed.Some? && completed.value != [] ==>
      && rows == CompletedRows(completed.value)
      && countText == DecimalString(|rows|)
      && countText == DecimalString(CountUnchecked(completed.value))
  {
    if completed.None? || completed.value == [] {
      return "0", [];
    }
    var count;
    count, rows := DisplayCompleted(Reverse(SortBy(completed.value, SortJobs)));
    CompletedRowsAreTransfers(completed.value);
    countText := DecimalString(count);
  }

  /** The loop of `updateCompletedTransfers` over the sorted jobs: a check is
      skipped, any other job is displayed and counted. */
  method DisplayCompleted(sorted: seq<Job>) returns (count: nat, rows: seq<Job>)
    ensures rows == Unchecked(sorted) && count == |rows|
  {
    rows := [];
    count := 0;
    var t := 0;
    while t < |sorted|
      invariant 0 <= t <= |sorted|
      invariant rows + Unchecked(sorted[t..]) == Unchecked(sorted)
      invariant count == |rows|
    {
      UncheckedStep(rows, sorted, t);
      if !sorted[t].checked {
        count := count + 1;
        rows := rows + [sorted[t]];
      }
      t := t + 1;
    }
    assert sorted[t..] == [];
  }

  /** `cancelTransfer`: the job id is the part of the group id after its last
      slash. */
  function JobIdOf(groupID: string): (id: string)
    ensures '/' !in id
    ensures exists prefix :: groupID == prefix + id && (prefix == "" || prefix[|prefix| - 1] == '/')
  {
    var lastSlash := AfterLastSlash(groupID);
    assert groupID == groupID[..lastSlash] + groupID[lastSlash..];
    groupID[lastSlash..]
  }

  /** The request that cancels a job: `/job/stop` with the job id, a
      synchronous call. A transfer without a group has no job id to take:
      reading one fails, so no request is sent. */
  function CancelRequest(settings: RcloneSettings, group: Option<string>): (r: Option<Request>)
    ensures r.None? <==> group.None?
    ensures r.Some? ==> r.value.url == settings.host + "/job/stop"
    ensures r.Some? ==> r.value.body == Some(map["jobid" := Str(JobIdOf(group.value))])
  {
    if group.None? then None
    else Some(SendRequest(settings, "/job/stop", Some(map["jobid" := Str(JobIdOf(group.value))])))
  }

  /** The refresh interval accepted from the settings input: a base-10
      integer from 1 to 120, None (rejected) otherwise. */
  function RefreshInterval(input: string): (v: Option<int>)
    ensures v.Some? ==> 1 <= v.value <= 120 && ParseInt(input) == v
    ensures v.None? ==> ParseInt(input).None? || !(1 <= ParseInt(input).value <= 120)
  {
    var val := ParseInt(input);
    if val.None? then None
    else if val.value < 1 || val.value > 120 then None
    else val
  }

  /** Every interval from 1 to 120 seconds can be typed in, and is read back
      as written. */
  lemma RefreshIntervalAcceptsRange(n: nat)
    requires 1 <= n <= 120
    ensures RefreshInterval(DecimalString(n)) == Some(n)
  {
    ParseIntOfDecimal(n);
  }

  // ---------------------------------------------------------------------------
  // The session

  class Browser {
    /** The backend connection settings. */
    const settings: RcloneSettings
    /** `panelsPaths`. */
    var paths: PanelsPaths
    /** `transfersQueue`. */
    var queue: seq<QueuedOp>
    /** The active-transfer count shown on the page, which the scheduler reads. */
    var activeCount: string
    /** The view-refresh interval in seconds. */
    var refreshSeconds: int

    ghost predicate Valid()
      reads this
    {
      && (forall k :: 0 <= k < |queue| ==> WellFormed(queue[k]))
      && 1 <= refreshSeconds <= 120
    }

    /** A session with no remote chosen, an empty queue, the default refresh
      interval, and the active count the page starts with. */
    constructor (settings: RcloneSettings, initialCount: string)
      ensures Valid()
      ensures this.settings == settings && paths == InitialPanelsPaths && queue == []
      ensures activeCount == initialCount && refreshSeconds == DefaultRefreshViewSeconds
    {
      this.settings := settings;
      paths := InitialPanelsPaths;
      queue := [];
      activeCount := initialCount;
      refreshSeconds := DefaultRefreshViewSeconds;
    }

    // -------------------------------------------------------------------------
    // Navigation

    /** `openPath`: a blank path is ignored. Otherwise the pane's rows are
        removed, the pane's path becomes `path` at once (before any listing
        arrives), the other pane keeps its path, and the listing of the path's
        base and last segment is requested. */
    method OpenPath(path: string, pane: Pane, panel: FilePanel) returns (r: Option<Opened>)
      requires Valid()
      modifies this`paths, panel
      ensures Valid()
      ensures IsBlank(path) ==> r.None? && paths == old(paths) && unchanged(panel)
      ensures !IsBlank(path) ==>
        && paths == old(paths).Set(pane, path)
        && paths.Get(Other(pane)) == old(paths.Get(Other(pane)))
        && panel.Valid() && panel.lines == []
        && panel.searchOpen == old(panel.searchOpen) && panel.createFolderOpen == old(panel.createFolderOpen)
        && panel.createButtonShown == old(panel.createButtonShown) && panel.folderName == old(panel.folderName)
        && r == Some(Opened(SendRequest(settings, "/operations/list", Some(ListParams(path))), BasePath(path), UpTarget(path)))
    {
      TrimEmptyIffBlank(path);
      if Trim(path) == "" {
        return None;
      }
      panel.Clear();
      paths := paths.Set(pane, path);
      var basePath := BasePath(path);
      var nextPath := NextPath(path);
      var listRequest := SendRequest(settings, "/operations/list", Some(map["fs" := Str(basePath), "remote" := Str(nextPath)]));
      r := Some(Opened(listRequest, basePath, UpTarget(path)));
    }

    /** The completion of a listing request with HTTP status `status` and
        parsed body `entries`: the handler receives what the request client
        passes it (CallbackArgument), so on failure (null, any status but 200)
        the pane is left as it is; otherwise the listing's rows are appended
        after the rows the pane already shows (openPath emptied the pane when
        it sent the request, so two listings still in flight for the same pane
        both end up shown). File rows are built with the pane's path as it is
        when the response arrives, folder rows with the base path of the
        request. */
    method ListingArrived(pane: Pane, listing: Opened, status: int, entries: seq<Entry>, panel: FilePanel)
      requires panel.Valid()
      modifies panel
      ensures status != 200 ==> unchanged(panel)
      ensures status == 200 ==>
        && panel.Valid()
        && panel.lines == old(panel.lines) + ListingLines(paths.Get(pane), listing.basePath, entries)
        && (forall k :: 0 <= k < |old(panel.lines)| ==>
              panel.checked[k] == old(panel.checked[k]) && panel.visible[k] == old(panel.visible[k]))
        && (forall k :: |old(panel.lines)| <= k < |panel.lines| ==> panel.visible[k] && !panel.checked[k])
        && panel.searchOpen == old(panel.searchOpen) && panel.createFolderOpen == old(panel.createFolderOpen)
        && panel.createButtonShown == old(panel.createButtonShown) && panel.folderName == old(panel.folderName)
    {
      var response := CallbackArgument(status, entries);
      if response.None? {
        return;
      }
      panel.Append(ListingLines(paths.Get(pane), listing.basePath, response.value));
    }

    /** `remoteChanged`: choosing the empty option does nothing; choosing a
        remote opens its starting path in the pane. */
    method RemoteChanged(remote: string, pane: Pane, presets: map<string, RemotePreset>, panel: FilePanel)
      returns (r: Option<Opened>)
      requires Valid()
      modifies this`paths, panel
      ensures Valid()
      ensures remote == "" ==> r.None? && paths == old(paths) && unchanged(panel)
      ensures remote != "" ==>
        && r.Some? && r.value.listRequest.body == Some(ListParams(RemoteStartPath(remote, presets)))
        && paths == old(paths).Set(pane, RemoteStartPath(remote, presets))
        && panel.Valid() && panel.lines == []
        && panel.searchOpen == old(panel.searchOpen) && panel.createFolderOpen == old(panel.createFolderOpen)
        && panel.createButtonShown == old(panel.createButtonShown) && panel.folderName == old(panel.folderName)
    {
      if remote == "" {
        return None;
      }
      r := OpenPath(RemoteStartPath(remote, presets), pane, panel);
    }

    /** `refreshClicked`: re-opens the pane's path, which stays what it was;
        a pane with no remote is refused. */
    method RefreshClicked(pane: Pane, panel: FilePanel) returns (r: Option<Opened>)
      requires Valid()
      modifies this`paths, panel
      ensures Valid()
      ensures paths == old(paths)
      ensures r.None? ==> unchanged(panel)
      ensures r.Some? <==> !IsBlank(paths.Get(pane))
      ensures r.Some? ==> panel.Valid() && panel.lines == []
      ensures r.Some? ==> r.value.listRequest.body == Some(ListParams(paths.Get(pane)))
      ensures panel.searchOpen == old(panel.searchOpen) && panel.createFolderOpen == old(panel.createFolderOpen)
      ensures panel.createButtonShown == old(panel.createButtonShown) && panel.folderName == old(panel.folderName)
    {
      if paths.Get(pane) == "" {
        return None;
      }
      r := OpenPath(paths.Get(pane), pane, panel);
      assert old(paths).Set(pane, old(paths).Get(pane)) == old(paths);
    }

    // -------------------------------------------------------------------------
    // The transfer queue

    /** `addToQueue`: one record per checked row, in row order, appended after
        the records already queued; every checked box is cleared. */
    method AddToQueue(operationType: string, pane: Pane, panel: FilePanel)
      requires Valid() && panel.Valid()
      modifies this`queue, panel.checked
      ensures Valid()
      ensures queue == old(queue) + QueuedFrom(operationType, pane, DestinationPath(paths, pane), panel.lines, old(panel.checked[..]))
      ensures forall k :: 0 <= k < panel.checked.Length ==> !panel.checked[k]
    {
      var destination := DestinationPath(paths, pane);
      var boxes, lines := panel.checked, panel.lines;
      ghost var flags := boxes[..];
      ghost var added: seq<QueuedOp> := [];
      var i := 0;
      while i < boxes.Length
        invariant 0 <= i <= boxes.Length
        invariant refreshSeconds == old(refreshSeconds)
        invariant forall k :: 0 <= k < |queue| ==> WellFormed(queue[k])
        invariant added == QueuedFrom(operationType, pane, destination, lines[..i], flags[..i])
        invariant queue == old(queue) + added
        invariant forall k :: 0 <= k < boxes.Length ==> boxes[k] == (i <= k && flags[k])
      {
        QueuedFromStep(operationType, pane, destination, lines, flags, i);
        if boxes[i] {
          var op := MakeOp(operationType, lines[i], pane, destination);
          ConcatAssociative(old(queue), added, [op]);
          added := added + [op];
          queue := queue + [op];
          boxes[i] := false;
        }
        i := i + 1;
      }
      assert lines[..i] == lines;
      assert flags[..i] == flags;
    }

    /** `operationClicked`: a copy or move while either pane has no remote is
        refused and changes nothing; otherwise (and always for a delete) the
        checked rows are queued. */
    method OperationClicked(operationType: string, pane: Pane, panel: FilePanel) returns (accepted: bool)
      requires Valid() && panel.Valid()
      modifies this`queue, panel.checked
      ensures Valid()
      ensures accepted <==> !((operationType == Copy || operationType == Move) && !PanelsPathsHaveValue(paths))
      ensures !accepted ==> queue == old(queue) && panel.checked[..] == old(panel.checked[..])
      ensures accepted ==>
        && queue == old(queue) + QueuedFrom(operationType, pane, DestinationPath(paths, pane), panel.lines, old(panel.checked[..]))
        && forall k :: 0 <= k < panel.checked.Length ==> !panel.checked[k]
    {
      if operationType == Copy || operationType == Move {
        if !PanelsPathsHaveValue(paths) {
          return false;
        }
      }
      AddToQueue(operationType, pane, panel);
      return true;
    }

    /** `processQueue`, one scheduler tick: while the page shows a non-zero
        active count, or the queue is empty, nothing happens. Otherwise the head
        record, and only it, leaves the queue, the rest keeping its order, and
        the call for it is sent (none for an unknown kind). */
    method ProcessQueue() returns (sent: Option<Request>)
      requires Valid()
      modifies this`queue
      ensures Valid()
      ensures old(activeCount) != "0" || old(queue) == [] ==> queue == old(queue) && sent.None?
      ensures activeCount == "0" && old(queue) != [] ==>
        queue == old(queue)[1..] && sent == Dispatch(settings, old(queue)[0])
    {
      if activeCount != "0" || queue == [] {
        return None;
      }
      var first := queue[0];
      queue := queue[1..];
      sent := Dispatch(settings, first);
    }

    /** `removeFromQueue(q)`: removes the record at index q, keeping the others
        in order; an index past the end (the queue having moved on) removes
        nothing. */
    method RemoveFromQueue(q: nat)
      requires Valid()
      modifies this`queue
      ensures Valid()
      ensures q < |old(queue)| ==> queue == old(queue)[..q] + old(queue)[q + 1..]
      ensures q >= |old(queue)| ==> queue == old(queue)
    {
      if q < |queue| {
        queue := queue[..q] + queue[q + 1..];
      }
    }

    // -------------------------------------------------------------------------
    // Status poller and settings

    /** `updateCurrentTransfers`: the active count becomes the number of
        transfers the backend reports ("0" for none); the transfers are shown
        sorted with sortJobs, and the block is shown unless there is neither a
        transfer nor a queued record. */
    method UpdateCurrentTransfers(transfers: Option<seq<Job>>) returns (blockShown: bool, rows: seq<Job>)
      modifies this`activeCount
      ensures activeCount == ActiveCountText(transfers)
      ensures activeCount == "0" <==> transfers.None? || transfers.value == []
      ensures blockShown <==> activeCount != "0" || queue != []
      ensures rows == if activeCount == "0" then [] else SortBy(transfers.value, SortJobs)
    {
      activeCount := ActiveCountText(transfers);
      if transfers.None? || transfers.value == [] {
        return queue != [], [];
      }
      return true, SortBy(transfers.value, SortJobs);
    }

    /** The refresh-interval input: a value that is not a number, or not from
        1 to 120, is refused and the input shows the current interval again;
        otherwise it becomes the interval. */
    method RefreshIntervalChanged(input: string) returns (inputShows: string)
      requires Valid()
      modifies this`refreshSeconds
      ensures Valid()
      ensures RefreshInterval(input).Some? ==> refreshSeconds == RefreshInterval(input).value && inputShows == input
      ensures RefreshInterval(input).None? ==> refreshSeconds == old(refreshSeconds) && inputShows == DecimalString(refreshSeconds)
    {
      var val := ParseInt(input);
      if val.None? {
        return DecimalString(refreshSeconds);
      }
      if val.value < 1 || val.value > 120 {
        return DecimalString(refreshSeconds);
      }
      refreshSeconds := val.value;
      return input;
    }
  }

  /** A tick never takes a record off the queue while the page shows active
      transfers, and after a status update showing none, the next tick
      dispatches exactly the oldest record. */
  method SchedulerFollowsStatus(b: Browser, transfers: Option<seq<Job>>) returns (sent: Option<Request>)
    requires b.Valid()
    modifies b`activeCount, b`queue
    ensures b.Valid()
    ensures transfers.Some? && transfers.value != [] ==> b.queue == old(b.queue) && sent.None?
    ensures (transfers.None? || transfers.value == []) && old(b.queue) != [] ==>
      b.queue == old(b.queue)[1..] && sent == Dispatch(b.settings, old(b.queue)[0])
  {
    var shown, rows := b.UpdateCurrentTransfers(transfers);
    sent := b.ProcessQueue();
  }
}
