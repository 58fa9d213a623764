# omv-rclone web browser — a Dafny model

This project models the client-side core of the omv-rclone web interface. That interface is a two-pane file browser that drives an rclone remote-control backend. The model covers:

- **Pane paths.** Each pane shows a path, "" while no remote is chosen.
- **Navigation.** `openPath` splits a path into a base path and a last segment. It requests that listing and derives the folder one level up. `remoteChanged` and `refreshClicked` go through `openPath`.
- **Listings.** A listing response is appended to the pane's rows, sorted folders first. Each row keeps its kind and its full path.
- **The transfer queue and its scheduler.**
  - `addToQueue` turns every checked row into a queue record. The record holds the row's path split into parent and leaf, and a destination taken from the other pane at that moment.
  - `processQueue` takes the head off the queue only while the page shows no active transfer. It turns the record into a backend request.
  - `removeFromQueue` drops one record.
- **The remote-operation client** (`sendRequestToRclone`). It builds the URL and chooses the credentials by precedence. It adds `_async: true` to the parameters of the six transfer endpoints.
- **Transfer status.** The active count shown on the page is what the scheduler reads. The completed count skips integrity-check entries. Jobs are ordered by their group number, and cancelling a job sends the job id.
- **Settings.** The refresh-interval input accepts 1 to 120 seconds.
- **Search.** A case-insensitive substring filter over the row names that applies from three characters up. The search block cannot be opened on a pane without a remote.
- **Create folder.** The guards, and the `/operations/mkdir` request with the trimmed name. When that request completes, the pane is refreshed.

The JavaScript modules become Dafny modules:

| Dafny module | JavaScript source | What it holds |
|---|---|---|
| `Text` | none | The JavaScript string operations the code uses: `lastIndexOf`, `trim`, `toLowerCase`, `includes`, `toString` and `parseInt` |
| `Functions` | `functions.js` | |
| `Panel` | none | The state of one pane's page fragment, as class `FilePanel` |
| `Search` | `search.js` | |
| `Folder` | `folder.js` | |
| `App` | `main.js` | Class `Browser`, which holds the pane paths, the queue, the active count and the refresh interval |

Backend calls are values, not I/O:

- A request is the `Request` that `sendRequestToRclone` would send.
- A completion callback is a separate method that receives the response.
- A scheduler tick is one call of `ProcessQueue`.

The model follows the code as written:

- `openPath` records the pane's new path when the listing request is issued (main.js:251). It does not wait for a listing response, so a later response cannot reset it.
  - `openPath` empties the pane when it sends the request (main.js:231-233). A response only appends rows (main.js:343). So when two listings of one pane are in flight, the rows of both are shown, one after the other, and `addToQueue` can queue checked rows from either. `App.Browser.ListingArrived` models this. There is no "last response wins" rule.
  - File rows are built with the pane's path at the moment the response arrives (main.js:294). Folder rows are built with the base path of the request (main.js:295).
- The "up" target of a path without a slash is "" (main.js:242). That path is blank, so `openPath` ignores it. It does not name the root of the same remote.

## Model

| member | source | states |
|---|---|---|
| Text.AfterLastSlash | config/web/js/main.js:238 | `lastIndexOf("/") + 1`: everything after it has no slash; what precedes it is empty or ends in a slash; it is 0 exactly when there is no slash |
| Text.TrimEmptyIffBlank | config/web/js/main.js:228 | `path.trim() === ""` holds exactly when the path is whitespace only; otherwise the trimmed text is a piece of the input that neither starts nor ends with whitespace |
| Text.ContainsIff | config/web/js/search.js:39-40 | `includes` holds exactly when the query occurs at some position of the name |
| Text.DecimalStringZeroIff | config/web/js/main.js:354-365 | the count written by `length.toString()` is the text "0" exactly when the number is 0 |
| Text.ParseIntOfDecimal | config/web/js/main.js:102 | `parseInt` reads back every number written in decimal |
| Functions.PanelsPaths.Set | config/web/js/main.js:251 | assigning a pane's path sets that pane's slot and leaves the other pane's slot as it was |
| Functions.DestinationPath | config/web/js/functions.js:150-157 | an operation started in one pane targets the other pane's path |
| Functions.PanelsPathsHaveValueIff | config/web/js/functions.js:158-165 | `panelsPathsHaveValue` holds exactly when both panes have a non-empty path |
| Functions.FolderOperation | config/web/js/functions.js:166-177 | the folder endpoint is "" exactly for an unknown kind; every endpoint it returns is an asynchronous one |
| Functions.FileOperation | config/web/js/functions.js:178-189 | the file endpoint is "" exactly for an unknown kind; every endpoint it returns is an asynchronous one |
| Functions.EndpointTablesInjective | config/web/js/functions.js:166-189 | each table maps distinct known kinds to distinct endpoints, and the two tables share no endpoint |
| Functions.AsyncOperationsAreTransferEndpoints | config/web/js/functions.js:2-9 | the six asynchronous endpoints are exactly the endpoints the two tables return for copy, move and delete |
| Functions.AuthorizationFor | config/web/js/functions.js:18-23 | a login token takes precedence; otherwise user and password are used when both are set; otherwise no Authorization header is sent |
| Functions.SendRequest | config/web/js/functions.js:14-36 | URL = host + endpoint; credentials per AuthorizationFor; a body exactly when parameters are given; `_async = true` added exactly for the asynchronous endpoints; every other parameter is sent unchanged |
| Functions.CallbackArgument | config/web/js/functions.js:38-54 | the callback receives null exactly when the HTTP status is not 200, and the parsed response otherwise |
| Functions.SortFilesAndFoldersAntisymmetric | config/web/js/functions.js:141-149 | the listing comparator is antisymmetric, negative exactly for a folder before a file, and 0 exactly for two items of the same kind |
| Functions.SortBy | config/web/js/main.js:288 | sorting returns a permutation of its input |
| Functions.SortFoldersFirst | config/web/js/main.js:288 | sorting a listing with `sortFilesAndFolders` gives all folders in response order, then all files in response order |
| Functions.SortJobs | config/web/js/functions.js:128-140 | returns 0 exactly when a job lacks a group, -1 exactly when a's group number is smaller than b's, and 1 in every other case |
| Functions.SortJobsEqualNumbersInconsistent | config/web/js/functions.js:134-139 | two grouped jobs with equal numbers each sort after the other, so the comparator is not consistent |
| Functions.JobNumber | config/web/js/functions.js:132-133 | the number after the last slash of a group is never negative (NaN is None) |
| Functions.JobNumberOfDecimal | config/web/js/functions.js:132-133 | the number of a group `<prefix>/<n>`, with n written in decimal, is n |
| Functions.SortJobsNonDecreasing | config/web/js/main.js:366 | when every job has a numbered group, the active transfers are listed by group number, non-decreasing; jobs sharing a group are allowed |
| Functions.CompletedJobsNonIncreasing | config/web/js/main.js:427 | when every job has a numbered group, the completed transfers are listed by group number, non-increasing |
| Functions.SortJobsAscending | config/web/js/main.js:366 | the strict case: with distinct numbered groups, the active transfers are listed by strictly ascending group number |
| Functions.CompletedJobsDescending | config/web/js/main.js:427 | the strict case: with distinct numbered groups, the completed transfers are listed by strictly descending group number |
| Functions.CompletedJobsNewestFirst | config/web/js/main.js:427 | three completed jobs numbered 3, 1 and 2, in that order, are shown as 3, 2, 1 |
| Functions.AcceptableKeyEventForSearch | config/web/js/functions.js:190-204 | accepts a key exactly when its code is in 65..90 or 97..122, or is 8 or 46, whatever the Ctrl state |
| Functions.IconType | config/web/js/functions.js:75-112 | "folder.svg" exactly for "inode/directory"; "file-earmark.svg" exactly for a MIME type the table does not list |
| Panel.LineFor | config/web/js/main.js:292-336 | a row keeps the entry's name and icon; a folder row's path is the listing's base path followed by the entry's path; a file row's path is the pane's path, a slash and the file name |
| Panel.ListingFoldersFirst | config/web/js/main.js:288-336 | a listing renders one row per entry, with every folder row above every file row |
| Panel.FilePanel.Clear | config/web/js/main.js:231-233 | the pane's rows are removed and its blocks are left as they were |
| Panel.FilePanel.Append | config/web/js/main.js:290-343 | the rows of a listing are appended after the rows already shown; the old rows keep their checkbox and display flag; the new rows are visible and unchecked |
| Search.ShownIff | config/web/js/search.js:29-43 | the filter ignores letter case on both sides; with a query of 3 or more characters, a row is shown exactly when the lower-cased query occurs in the lower-cased name |
| Search.SearchExample | config/web/js/search.js:29-43 | "rep" keeps "Report.pdf" and hides "image.png"; a two-character query hides nothing |
| Search.ShowSearch | config/web/js/search.js:2-12 | the block opens exactly when the pane's path is non-empty |
| Search.ClearSearch | config/web/js/search.js:19-25 | every row becomes visible |
| Search.HideSearch | config/web/js/search.js:13-18 | closes the block, and every row becomes visible |
| Search.SearchQueryChanged | config/web/js/search.js:26-44 | every row is visible exactly when Shown(name, query) holds; rows, their order and their checkboxes are untouched |
| Folder.MkdirParams | config/web/js/folder.js:33-36 | the mkdir parameters are exactly `fs` = the pane's path and `remote` = the trimmed name |
| Folder.MkdirIsSynchronous | config/web/js/folder.js:23-37 | mkdir is sent without `_async`; the name sent is non-blank and trimmed at both ends |
| Folder.ShowCreateFolder | config/web/js/folder.js:3-13 | the block opens exactly when the pane's path is non-empty |
| Folder.HideCreateFolder | config/web/js/folder.js:14-18 | closes the block |
| Folder.CreateFolderClicked | config/web/js/folder.js:19-57 | no request, and no change, when the pane has no path or the name is blank; otherwise the button is hidden and the mkdir request is sent |
| Folder.CreateFolderCompleted | config/web/js/folder.js:37-50 | whatever the response, the button is shown, the name is cleared, the block is closed, the search block is left as it was, and the pane's paths are unchanged; the listing requested is the one for the pane's own path |
| App.MakeOp | config/web/js/main.js:521-536 | a queued record splits the row's path into parent and leaf (the leaf has no slash, and the parent is empty or ends in a slash); its destination is the other pane's path followed by "/" and the leaf for a folder, or by "/" alone for a file |
| App.QueuedFromRecords | config/web/js/main.js:514-539 | one record per checked row and no other; each record is well formed and comes from a checked row of the pane |
| App.CopyOrMoveCall | config/web/js/main.js:565-613 | folder: `srcFs` = dataPath, `dstFs` = dstFS, and `deleteEmptySrcDirs` exactly for a move; file: `srcFs` = sourcePath, `dstFs` = dstFS, and `srcRemote` = `dstRemote` = targetPath |
| App.DeleteCall | config/web/js/main.js:614-630 | delete: `fs` = sourcePath and `remote` = targetPath, to the folder or file endpoint chosen by item kind |
| App.DispatchIsAsyncTransfer | config/web/js/main.js:551-563 | a record is dispatched exactly when its kind is known, to host + the endpoint of its kind and scope, with `_async = true` |
| App.DispatchNamesQueuedItem | config/web/js/main.js:565-630 | for a well-formed record, the parameters sent name the queued item: its own path for a folder copy or move, and a parent and leaf that rebuild its path otherwise |
| App.OpenPathSplit | config/web/js/main.js:238-242 | with a slash: base path + next path = path, the next path has no slash, the base path ends in a slash, and up target + "/" + next path = path; without a slash: the base path is path + "/", and the next path and up target are "" |
| App.UpPathWithoutQuotes | config/web/js/main.js:242 | on a path without a quote, main.js's up path is the intended up target |
| App.UpPathKeepsQuoteEscape | config/web/js/main.js:242 | above `a'/b`, main.js's up path is `a\'` (with a backslash), not the folder `a'` |
| App.EscapeQuotes | config/web/js/main.js:242 | a text without a quote is left unchanged |
| App.RemoteStartPath | config/web/js/main.js:218-225 | the path opened for a remote starts with `<remote>:/` and is never blank |
| App.ActiveCountText | config/web/js/main.js:353-365 | the active count is "0" exactly when the backend reports no current transfer |
| App.CountUncheckedPermutation | config/web/js/main.js:426-435 | the completed count does not depend on the order the transfers are listed in |
| App.CountUncheckedBounds | config/web/js/main.js:430-435 | the completed count is at most the number of entries, and equal to it exactly when no entry is a check |
| App.CompletedCountIndependentOfOrder | config/web/js/main.js:426-446 | counting the sorted and reversed list counts the entries of the response that are not checks |
| App.UncheckedRows | config/web/js/main.js:428-448 | the rows displayed contain no check, and there are as many of them as the counter counts |
| App.UncheckedKeeps | config/web/js/main.js:428-448 | every entry that is not a check is displayed as often as it is listed |
| App.CompletedRowsAreTransfers | config/web/js/main.js:427-448 | the rows displayed for a response are its entries that are not checks, each as often as in the response, and their number is the completed count |
| App.DisplayCompleted | config/web/js/main.js:428-448 | the loop skips the checks and displays and counts every other entry, in order |
| App.UpdateCompletedTransfers | config/web/js/main.js:415-451 | "0" and no rows when nothing is reported; otherwise the rows are the sorted and reversed entries without the checks, and the count shown is the number of rows, which is the number of entries that are not checks |
| App.JobIdOf | config/web/js/main.js:474 | the job id is the slash-free tail of the group id after its last slash |
| App.CancelRequest | config/web/js/main.js:472-480 | for a transfer with a group, the cancel request is `/job/stop` with exactly the job id as its parameter; for a transfer without a group (main.js:388 passes it as it is), reading the id fails at main.js:474 and no request is sent |
| App.RefreshInterval | config/web/js/main.js:101-111 | the interval is accepted exactly when `parseInt` gives a number from 1 to 120, and then it is that number |
| App.RefreshIntervalAcceptsRange | config/web/js/main.js:101-113 | each of 1..120 typed in decimal is accepted as itself |
| App.Browser.constructor | config/web/js/functions.js:10-13 | both panes start with no path, the queue starts empty, and the interval is the default 2 seconds |
| App.Browser.OpenPath | config/web/js/main.js:226-282 | a blank path changes nothing; otherwise the pane's rows are cleared, the pane's path becomes exactly `path`, the other pane is untouched, and the listing of (base path, next path) is requested |
| App.Browser.ListingArrived | config/web/js/main.js:280-345 | a response whose status is not 200 (null to the handler) leaves the pane as it is; otherwise the sorted rows are appended after the rows already shown, which keep their flags; file rows use the pane's path at arrival and folder rows the request's base path |
| App.Browser.RemoteChanged | config/web/js/main.js:218-225 | the empty option does nothing; a remote sets the pane's path to its starting path and requests the listing of that path; the pane is emptied and its blocks and name input stay as they were |
| App.Browser.RefreshClicked | config/web/js/main.js:494-501 | re-lists the pane's path without changing any path; a pane with no path, or a blank one, is refused and left untouched |
| App.Browser.AddToQueue | config/web/js/main.js:513-540 | queue = old queue + one record per checked row, in row order; every checkbox ends unchecked |
| App.Browser.OperationClicked | config/web/js/main.js:502-512 | a copy or move while a pane has no path changes nothing; otherwise, and always for a delete, the checked rows are queued |
| App.Browser.ProcessQueue | config/web/js/main.js:541-564 | nothing changes while the active count is not "0" or the queue is empty; otherwise exactly the head leaves, the tail keeps its order, and the head's request is dispatched (none for an unknown kind) |
| App.Browser.RemoveFromQueue | config/web/js/main.js:481-484 | removes only the record at q and keeps the order of the rest; an index past the end changes nothing |
| App.Browser.UpdateCurrentTransfers | config/web/js/main.js:347-414 | the active count becomes "0" exactly when nothing is transferring; the rows are the transfers sorted by sortJobs; the block is shown exactly when there is a transfer or a queued record |
| App.Browser.RefreshIntervalChanged | config/web/js/main.js:101-116 | a rejected value restores the input to the current interval; an accepted value becomes the interval |
| App.SchedulerFollowsStatus | config/web/js/main.js:541-548 | after a status update reporting transfers, a tick takes nothing off the queue; after one reporting none, a tick dispatches exactly the oldest record |

## Findings

| source | as written | input that shows it | evidently intended | confidence | as-written member | corrected member |
|---|---|---|---|---|---|---|
| config/web/js/main.js:242 | The "up" row's target escapes every `'` as `\'`, but the value goes straight to `openPath` (main.js:255-256), where no escaping is undone. The escape may be left over from an inline HTML handler; the only trace of one is the commented-out attribute at main.js:272. | From `a'/b`, going up opens `a\'`, a different folder | Open the parent folder `a'` | medium, not executed | App.UpPathKeepsQuoteEscape | App.OpenPathSplit |

`App.UpPath` is the up target as written. `App.UpTarget` is the corrected one: for every path with a slash, `App.OpenPathSplit` proves that the corrected target, a slash and the last segment rebuild the path. `App.Browser.OpenPath` records the corrected target.

## Left out

- XHR transport, `JSON.parse`/`stringify`, status-500 error logging and `btoa`: requests and responses are values.
- Functions.CallbackArgument: "null exactly when the status is not 200" holds for a body that parses. When `JSON.parse` throws, on a non-JSON body at status 500 (functions.js:43) or at status 200 (functions.js:54), the callback is never called. The model does not cover that case. For user/password credentials, only the choice of credentials is modelled, not their base64 encoding (section 2 of RFC 7617).
- Functions.SendRequest: the `_async` key is written into the caller's own parameter object in place. The model returns a new record, so aliasing is not modelled.
- DOM construction and styling: icons' `src`, tables, queue rows in the transfers table, `filesCount` text, the path hint, the loading animation, the settings panel, and the 5-second re-enable of operation buttons.
- Timers, `setInterval` and `debounce`: a scheduler tick is one `ProcessQueue` call, and a debounced query is one `SearchQueryChanged` call. The order in which responses interleave is left to the caller.
- `getHumanReadableValue` (floating point), `toLocaleString` dates and `dtAdded`.
- `updateRemotesSelects`: option order depends on response arrival.
- settings.js is static configuration. Its values are `Functions.DefaultSettings` and `Functions.DefaultRefreshViewSeconds`. The 5-second queue interval only sets a timer, which is left out above. The remote presets are a parameter of `App.Browser.RemoteChanged`.
- The initial active-count text comes from the page's HTML, so it is a constructor parameter.
- Text.ParseInt: models base-10 `parseInt` only. The `0x` prefix and signs of zero are not modelled.
- Functions.JobNumber: `Number()` of a suffix with whitespace, a sign, a decimal point, an exponent or a hex prefix is treated as NaN. The group suffixes rclone produces are plain digits.
- Text.ToLower: `toLowerCase` is modelled for the Latin letters A to Z only. Text.Trim removes the common whitespace characters listed in `Text.IsWhitespace`, not every Unicode space separator.
- Search.SearchQueryChanged: length is counted in characters, not UTF-16 code units.
- Functions.SortBy: `Array.prototype.sort` is modelled as a stable insertion sort. For a consistent comparator this is the order the standard requires. `sortJobs` is not consistent in three ways. Two jobs with equal numbers each sort after the other (`Functions.SortJobsEqualNumbersInconsistent`). A job without a group compares as 0 with every job, while grouped jobs compare as -1 or 1 (functions.js:129-139). A suffix that reads as NaN compares as 1 both ways. For such lists a browser's sort may order jobs differently, so the rows of `App.Browser.UpdateCurrentTransfers` and `App.UpdateCompletedTransfers` are the model's order. The order lemmas assume every job has a numbered group.
- App.Browser.OpenPath: its result records the corrected up target `App.UpTarget`, not the escaped `oneLevelUpPath` main.js:242 computes (`App.UpPath`). The two differ only for paths that hold a quote (`App.UpPathWithoutQuotes`); see "## Findings".
- A folder row's click target (main.js:322) also escapes quotes. Folder rows are not clickable in the model.
