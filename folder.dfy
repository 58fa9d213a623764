/** The create-folder block of a pane: opening and closing it, and the
    `/operations/mkdir` request it sends. */
module Folder {
  import opened Text
  import opened Functions
  import opened Panel
  import opened App

  /** The mkdir parameters: the pane's path as the file system and the
      trimmed name as the remote. */
  function MkdirParams(currentPath: string, folderName: string): (params: Params)
    ensures params.Keys == {"fs", "remote"}
    ensures params["fs"] == Str(currentPath) && params["remote"] == Str(Trim(folderName))
  {
    map["fs" := Str(currentPath), "remote" := Str(Trim(folderName))]
  }

  /** mkdir is a synchronous call: its body is exactly the two parameters,
      and the folder name sent is never blank and never starts or ends with
      whitespace when the name typed is not blank. */
  lemma MkdirIsSynchronous(settings: RcloneSettings, currentPath: string, folderName: string)
    requires !IsBlank(folderName)
    ensures var r := SendRequest(settings, "/operations/mkdir", Some(MkdirParams(currentPath, folderName)));
      && r.url == settings.host + "/operations/mkdir"
      && r.body == Some(MkdirParams(currentPath, folderName))
      && "_async" !in r.body.value
      && var name := Trim(folderName);
         name != "" && !IsWhitespace(name[0]) && !IsWhitespace(name[|name| - 1])
  {
    TrimEmptyIffBlank(folderName);
  }

  /** `showCreateFolder`: opens the block, unless the pane has no remote. */
  method ShowCreateFolder(panel: FilePanel, browser: Browser, pane: Pane) returns (accepted: bool)
    modifies panel`createFolderOpen
    ensures accepted <==> browser.paths.Get(pane) != ""
    ensures panel.createFolderOpen == (accepted || old(panel.createFolderOpen))
  {
    if browser.paths.Get(pane) == "" {
      return false;
    }
    panel.createFolderOpen := true;
    return true;
  }

  /** `hideCreateFolder`: closes the block. */
  method HideCreateFolder(panel: FilePanel)
    modifies panel`createFolderOpen
    ensures !panel.createFolderOpen
  {
    panel.createFolderOpen := false;
  }

  /** `createFolderClicked`: refused while the pane has no remote or while the
      typed name is blank, changing nothing; otherwise the create button is
      hidden and the mkdir request for the trimmed name in the pane's path is
      sent. */
  method CreateFolderClicked(panel: FilePanel, browser: Browser, pane: Pane)
    returns (sent: Option<Request>)
    modifies panel`createButtonShown
    ensures sent.None? <==> browser.paths.Get(pane) == "" || IsBlank(panel.folderName)
    ensures sent.None? ==> panel.createButtonShown == old(panel.createButtonShown)
    ensures sent.Some? ==>
      && !panel.createButtonShown
      && sent.value == SendRequest(browser.settings, "/operations/mkdir", Some(MkdirParams(browser.paths.Get(pane), panel.folderName)))
  {
    var currentPath := browser.paths.Get(pane);
    if currentPath == "" {
      return None;
    }
    var folderName := Trim(panel.folderName);
    TrimEmptyIffBlank(panel.folderName);
    if folderName == "" {
      return None;
    }
    panel.createButtonShown := false;
    sent := Some(SendRequest(browser.settings, "/operations/mkdir", Some(map["fs" := Str(currentPath), "remote" := Str(folderName)])));
  }

  /** The completion of the mkdir request, whatever its status: the button
      is shown again, the name input is emptied, the block is closed and the
      pane is refreshed (re-listing its path). */
  method CreateFolderCompleted(panel: FilePanel, browser: Browser, pane: Pane) returns (r: Option<Opened>)
    requires browser.Valid()
    modifies panel, browser`paths
    ensures browser.Valid() && browser.paths == old(browser.paths)
    ensures panel.createButtonShown && panel.folderName == "" && !panel.createFolderOpen
    ensures panel.searchOpen == old(panel.searchOpen)
    ensures r.Some? <==> !IsBlank(browser.paths.Get(pane))
    ensures r.Some? ==> panel.Valid() && panel.lines == []
    ensures r.Some? ==> r.value.listRequest.body == Some(ListParams(browser.paths.Get(pane)))
  {
    panel.createButtonShown := true;
    panel.folderName := "";
    HideCreateFolder(panel);
    r := browser.RefreshClicked(pane, panel);
  }
}
