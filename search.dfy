/** The pane search: opening and closing the search block, and the filter
    that hides the rows whose name does not contain the query. */
module Search {
  import opened Text
  import opened Functions
  import opened Panel
  import opened App

  /** The search filters nothing until the query has this many characters. */
  const MinQueryLength := 3

  /** The match test of the filter: the lower-cased name contains the
      lower-cased query. */
  predicate NameMatches(name: string, query: string)
  {
    Contains(ToLower(name), ToLower(query))
  }

  /** Whether a row stays shown for a query. */
  predicate Shown(name: string, query: string)
  {
    |query| < MinQueryLength || NameMatches(name, query)
  }

  /** The filter ignores letter case on both sides, and a row is shown for a
      long enough query exactly when the query occurs somewhere in its name,
      letter case aside. */
  lemma ShownIff(name: string, query: string)
    ensures Shown(name, query) == Shown(ToLower(name), query) == Shown(name, ToLower(query))
    ensures |query| >= MinQueryLength ==>
              (Shown(name, query) <==> exists i :: OccursAt(ToLower(name), ToLower(query), i))
  {
    ToLowerIdempotent(name);
    ToLowerIdempotent(query);
    ContainsIff(ToLower(name), ToLower(query));
  }

  lemma ToLowerIdempotent(s: string)
    ensures ToLower(ToLower(s)) == ToLower(s)
  {
  }

  /** The example the filter is meant for: "rep" keeps "Report.pdf" and hides
      "image.png", while a two-character query keeps both. */
  lemma SearchExample()
    ensures Shown("Report.pdf", "rep") && !Shown("image.png", "rep")
    ensures Shown("image.png", "re") && Shown("Report.pdf", "re")
  {
    ReportMatchesRep();
    ImageDoesNotMatchRep();
  }

  lemma ReportMatchesRep()
    ensures NameMatches("Report.pdf", "rep")
  {
    var n, q := ToLower("Report.pdf"), ToLower("rep");
    assert n[0] == 'r' && n[1] == 'e' && n[2] == 'p';
    assert q[0] == 'r' && q[1] == 'e' && q[2] == 'p';
    assert n[..|q|] == q;
  }

  lemma ImageDoesNotMatchRep()
    ensures !NameMatches("image.png", "rep")
  {
    var name := "image.png";
    var n, q := ToLower(name), ToLower("rep");
    assert q[0] == 'r';
    forall k | 0 <= k < |n| ensures n[k] != 'r' {
      assert name[k] != 'r' && name[k] != 'R';
    }
    FirstCharMissing(n, q);
  }

  /** A query whose first character does not occur in a name is not contained in it. */
  lemma {:induction false} FirstCharMissing(s: string, sub: string)
    requires sub != [] && sub[0] !in s
    ensures !Contains(s, sub)
  {
    if |sub| <= |s| {
      assert s[..|sub|][0] == s[0];
      FirstCharMissing(s[1..], sub);
    }
  }

  /** `showSearch`: opens the search block, unless the pane has no remote. */
  method ShowSearch(panel: FilePanel, browser: Browser, pane: Pane) returns (accepted: bool)
    modifies panel`searchOpen
    ensures accepted <==> browser.paths.Get(pane) != ""
    ensures panel.searchOpen == (accepted || old(panel.searchOpen))
  {
    if browser.paths.Get(pane) == "" {
      return false;
    }
    panel.searchOpen := true;
    return true;
  }

  /** `clearSearch`: shows every row again. */
  method ClearSearch(panel: FilePanel)
    requires panel.Valid()
    modifies panel.visible
    ensures forall k :: 0 <= k < panel.visible.Length ==> panel.visible[k]
  {
    var i := 0;
    while i < panel.visible.Length
      invariant 0 <= i <= panel.visible.Length
      invariant forall k :: 0 <= k < i ==> panel.visible[k]
    {
      panel.visible[i] := true;
      i := i + 1;
    }
  }

  /** `hideSearch`: closes the search block and shows every row again. */
  method HideSearch(panel: FilePanel)
    requires panel.Valid()
    modifies panel`searchOpen, panel.visible
    ensures !panel.searchOpen
    ensures forall k :: 0 <= k < panel.visible.Length ==> panel.visible[k]
  {
    panel.searchOpen := false;
    ClearSearch(panel);
  }

  /** `searchQueryChanged`: first shows every row, then, for a query of at
      least MinQueryLength characters, hides each row whose name does not
      match. Rows, their order and their checkboxes are left as they are. */
  method SearchQueryChanged(panel: FilePanel, query: string)
    requires panel.Valid()
    modifies panel.visible
    ensures forall k :: 0 <= k < |panel.lines| ==> panel.visible[k] == Shown(panel.lines[k].name, query)
  {
    ClearSearch(panel);
    if |query| < MinQueryLength {
      return;
    }
    var i := 0;
    while i < panel.visible.Length
      invariant 0 <= i <= panel.visible.Length
      invariant forall k :: 0 <= k < i ==> panel.visible[k] == NameMatches(panel.lines[k].name, query)
      invariant forall k :: i <= k < panel.visible.Length ==> panel.visible[k]
    {
      if !NameMatches(panel.lines[i].name, query) {
        panel.visible[i] := false;
      }
      i := i + 1;
    }
  }
}
