/** The state of one file pane as the browser keeps it in the page: the rows
    of the current listing, each row's checkbox and display flag, and the
    search and create-folder blocks of the pane. */
module Panel {
  import opened Text
  import opened Functions

  /** One rendered row: the name shown, the kind stored on it ("folder" or
      "file"), the full path stored on it, and its icon. */
  datatype FileLine = FileLine(name: string, dataType: string, dataPath: string, icon: string)

  /** The row rendered for one listing entry. A folder row keeps the listing's
      base path followed by the entry's own path; a file row keeps the pane's
      path, a slash and the file name. */
  function LineFor(panePath: string, basePath: string, e: Entry): (line: FileLine)
    ensures line.name == e.name
    ensures line.dataType == "folder" <==> e.isDir
    ensures e.isDir ==> line.dataPath == basePath + e.path
    ensures !e.isDir ==> line.dataPath == panePath + "/" + e.name
    ensures line.icon == IconType(e.mimeType)
  {
    if e.isDir then FileLine(e.name, "folder", basePath + e.path, IconType(e.mimeType))
    else FileLine(e.name, "file", panePath + "/" + e.name, IconType(e.mimeType))
  }

  function LinesFor(panePath: string, basePath: string, entries: seq<Entry>): (lines: seq<FileLine>)
    ensures |lines| == |entries|
    ensures forall k :: 0 <= k < |entries| ==> lines[k] == LineFor(panePath, basePath, entries[k])
  {
    if entries == [] then [] else [LineFor(panePath, basePath, entries[0])] + LinesFor(panePath, basePath, entries[1..])
  }

  /** The rows shown for an `/operations/list` response: the entries sorted
      with sortFilesAndFolders, one row each. */
  function ListingLines(panePath: string, basePath: string, entries: seq<Entry>): seq<FileLine>
  {
    LinesFor(panePath, basePath, SortBy(entries, SortFilesAndFolders))
  }

  /** A listing shows one row per entry, every folder row above every file
      row, folders in response order and then files in response order. */
  lemma ListingFoldersFirst(panePath: string, basePath: string, entries: seq<Entry>)
    ensures ListingLines(panePath, basePath, entries)
         == LinesFor(panePath, basePath, Folders(entries)) + LinesFor(panePath, basePath, Files(entries))
    ensures var lines := ListingLines(panePath, basePath, entries);
            |lines| == |entries| &&
            forall i, j :: 0 <= i < j < |lines| && lines[j].dataType == "folder" ==> lines[i].dataType == "folder"
  {
    SortFoldersFirst(entries);
    FoldersAndFilesKinds(entries);
    var fo, fi := Folders(entries), Files(entries);
    var lines := ListingLines(panePath, basePath, entries);
    assert lines == LinesFor(panePath, basePath, fo + fi);
    LinesForAppend(panePath, basePath, fo, fi);
    forall i, j | 0 <= i < j < |lines| && lines[j].dataType == "folder" ensures lines[i].dataType == "folder" {
      assert j < |fo|;
    }
  }

  lemma LinesForAppend(panePath: string, basePath: string, a: seq<Entry>, b: seq<Entry>)
    ensures LinesFor(panePath, basePath, a + b) == LinesFor(panePath, basePath, a) + LinesFor(panePath, basePath, b)
  {
    var l, r := LinesFor(panePath, basePath, a + b), LinesFor(panePath, basePath, a) + LinesFor(panePath, basePath, b);
    forall k | 0 <= k < |l| ensures l[k] == r[k] {
      if k < |a| {
        assert (a + b)[k] == a[k];
      } else {
        assert (a + b)[k] == b[k - |a|];
      }
    }
  }

  class FilePanel {
    /** The rows of the current listing, in display order. */
    var lines: seq<FileLine>
    /** Each row's checkbox. */
    var checked: array<bool>
    /** Each row's display flag (false: hidden by the search filter). */
    var visible: array<bool>
    /** Whether the search block is open. */
    var searchOpen: bool
    /** Whether the create-folder block is open, whether its button is shown,
        and the folder name typed into it. */
    var createFolderOpen: bool
    var createButtonShown: bool
    var folderName: string

    ghost predicate Valid()
      reads this
    {
      checked.Length == |lines| && visible.Length == |lines| && checked != visible
    }

    /** An empty pane with both blocks closed. */
    constructor ()
      ensures Valid() && lines == []
      ensures !searchOpen && !createFolderOpen && createButtonShown && folderName == ""
    {
      lines := [];
      checked := new bool[0];
      visible := new bool[0];
      searchOpen, createFolderOpen, createButtonShown, folderName := false, false, true, "";
    }

    /** Removes every row (what a new navigation does before the listing arrives). */
    method Clear()
      modifies this
      ensures Valid() && lines == [] && fresh(checked) && fresh(visible)
      ensures searchOpen == old(searchOpen) && createFolderOpen == old(createFolderOpen)
      ensures createButtonShown == old(createButtonShown) && folderName == old(folderName)
    {
      lines := [];
      checked := new bool[0];
      visible := new bool[0];
    }

    /** Appends the rows of a listing after the rows already shown: the old
        rows keep their checkbox and display flag, the new ones are shown and
        unchecked. */
    method Append(newLines: seq<FileLine>)
      requires Valid()
      modifies this
      ensures Valid() && lines == old(lines) + newLines && fresh(checked) && fresh(visible)
      ensures forall k :: 0 <= k < |old(lines)| ==> checked[k] == old(checked[k]) && visible[k] == old(visible[k])
      ensures forall k :: |old(lines)| <= k < |lines| ==> visible[k] && !checked[k]
      ensures searchOpen == old(searchOpen) && createFolderOpen == old(createFolderOpen)
      ensures createButtonShown == old(createButtonShown) && folderName == old(folderName)
    {
      var n := |lines|;
      var oldChecked, oldVisible := checked, visible;
      var c := new bool[n + |newLines|];
      var v := new bool[n + |newLines|];
      var k := 0;
      while k < c.Length
        modifies c, v
        invariant 0 <= k <= c.Length
        invariant forall j :: 0 <= j < k ==> c[j] == (j < n && oldChecked[j]) && v[j] == (n <= j || oldVisible[j])
      {
        if k < n {
          c[k], v[k] := oldChecked[k], oldVisible[k];
        } else {
          c[k], v[k] := false, true;
        }
        k := k + 1;
      }
      lines, checked, visible := lines + newLines, c, v;
    }
  }
}
