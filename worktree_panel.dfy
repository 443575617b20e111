/** The worktree panel's filtering and its count label: the filter model
    keeps its three criteria lower-cased and accepts a row when every
    criterion passes; the label reports how many worktrees were loaded. */
module WorktreePanelModel {
  import opened PyStr
  import opened WorktreeModel

  /** `_passes_branch_filter`: an empty filter passes everything, any other
      must occur in the lower-cased branch. */
  predicate BranchPasses(filter: string, w: Worktree)
  {
    filter == [] || Contains(Lower(w.branch), filter)
  }

  /** `_passes_status_filter`, against the lower-cased status display. */
  predicate StatusPasses(filter: string, w: Worktree)
  {
    filter == [] || Contains(Lower(StatusDisplay(w)), filter)
  }

  /** The text `_passes_text_filter` searches: path, branch, status display
      and directory name, separated by spaces and lower-cased. */
  function SearchableText(w: Worktree): string
  {
    Lower(w.path + " " + w.branch + " " + StatusDisplay(w) + " " + PathName(w.path))
  }

  /** `_passes_text_filter`. */
  predicate TextPasses(filter: string, w: Worktree)
  {
    filter == [] || Contains(SearchableText(w), filter)
  }

  /** `filterAcceptsRow`; `row` is the worktree an item carries, None for
      an item without one, which is always shown. */
  predicate Accepts(branchFilter: string, statusFilter: string, textFilter: string, row: Option<Worktree>)
  {
    row.None? || (BranchPasses(branchFilter, row.value) && StatusPasses(statusFilter, row.value)
                  && TextPasses(textFilter, row.value))
  }

  /** With every filter empty, every row is shown; an item without a
      worktree is shown whatever the filters. */
  lemma AcceptsCases(branchFilter: string, statusFilter: string, textFilter: string, row: Option<Worktree>)
    ensures Accepts("", "", "", row)
    ensures row.None? ==> Accepts(branchFilter, statusFilter, textFilter, row)
    ensures row.Some? ==>
      (Accepts(branchFilter, statusFilter, textFilter, row)
       <==> (branchFilter == [] || Contains(Lower(row.value.branch), branchFilter))
            && (statusFilter == [] || Contains(Lower(StatusDisplay(row.value)), statusFilter))
            && (textFilter == [] || Contains(SearchableText(row.value), textFilter)))
  {
  }

  /** A lower-cased text around a lower-cased piece contains what the piece
      contains. */
  lemma ContainsInLowered(before: string, piece: string, after: string, filter: string)
    requires Contains(Lower(piece), filter)
    ensures Contains(Lower(before + piece + after), filter)
  {
    LowerConcat(before + piece, after);
    LowerConcat(before, piece);
    ContainsAppend(Lower(piece), Lower(after), filter);
    ContainsPrepend(Lower(before), Lower(piece) + Lower(after), filter);
    assert Lower(before + piece + after) == Lower(before) + (Lower(piece) + Lower(after));
  }

  /** The lower-cased line "path branch status dir" contains whatever
      the lower-cased branch or the lower-cased status contains. */
  lemma LineHoldsFields(path: string, branch: string, status: string, dir: string, filter: string)
    ensures Contains(Lower(branch), filter) ==> Contains(Lower(path + " " + branch + " " + status + " " + dir), filter)
    ensures Contains(Lower(status), filter) ==> Contains(Lower(path + " " + branch + " " + status + " " + dir), filter)
  {
    var line := path + " " + branch + " " + status + " " + dir;
    if Contains(Lower(branch), filter) {
      ContainsInLowered(path + " ", branch, " " + status + " " + dir, filter);
      assert line == (path + " ") + branch + (" " + status + " " + dir);
    }
    if Contains(Lower(status), filter) {
      ContainsInLowered(path + " " + branch + " ", status, " " + dir, filter);
      assert line == (path + " " + branch + " ") + status + (" " + dir);
    }
  }

  /** Whatever the branch filter or the status filter finds, the text
      filter finds as well: the searchable text holds the branch and the
      status display. */
  lemma TextCoversBranchAndStatus(filter: string, w: Worktree)
    ensures BranchPasses(filter, w) ==> TextPasses(filter, w)
    ensures StatusPasses(filter, w) ==> TextPasses(filter, w)
  {
    var status := StatusDisplay(w);
    LineHoldsFields(w.path, w.branch, status, PathName(w.path), filter);
    assert SearchableText(w) == Lower(w.path + " " + w.branch + " " + status + " " + PathName(w.path));
  }

  /** Typing more into a filter never brings a hidden row back. */
  lemma FiltersNarrow(filter: string, more: string, w: Worktree)
    ensures BranchPasses(filter + more, w) ==> BranchPasses(filter, w)
    ensures StatusPasses(filter + more, w) ==> StatusPasses(filter, w)
    ensures TextPasses(filter + more, w) ==> TextPasses(filter, w)
  {
    if filter != [] {
      assert filter + more != [];
      if BranchPasses(filter + more, w) {
        ContainsShorter(Lower(w.branch), filter, more);
      }
      if StatusPasses(filter + more, w) {
        ContainsShorter(Lower(StatusDisplay(w)), filter, more);
      }
      if TextPasses(filter + more, w) {
        ContainsShorter(SearchableText(w), filter, more);
      }
    }
  }

  /** A lower-case filter matches without regard to the case of the
      branch. */
  lemma BranchFilterIgnoresCase(filter: string, w: Worktree)
    ensures BranchPasses(Lower(filter), w) == BranchPasses(Lower(filter), w.(branch := Lower(w.branch)))
  {
    LowerIdempotent(w.branch);
  }

  /** `WorktreeFilterModel`: the three criteria, stored lower-cased. */
  class WorktreeFilterModel {
    var branchFilter: string
    var statusFilter: string
    var textFilter: string

    /** Every stored criterion is already lower-case. */
    predicate Valid()
      reads this
    {
      Lower(branchFilter) == branchFilter && Lower(statusFilter) == statusFilter
      && Lower(textFilter) == textFilter
    }

    predicate FilterAcceptsRow(row: Option<Worktree>)
      reads this
    {
      Accepts(branchFilter, statusFilter, textFilter, row)
    }

    /** A new filter model starts with empty criteria and shows every
        row. */
    constructor ()
      ensures Valid()
      ensures branchFilter == [] && statusFilter == [] && textFilter == []
      ensures forall row :: FilterAcceptsRow(row)
    {
      branchFilter := "";
      statusFilter := "";
      textFilter := "";
    }

    /** `set_branch_filter`: stores the filter lower-cased. */
    method SetBranchFilter(branch: string)
      requires Valid()
      modifies this`branchFilter
      ensures Valid() && branchFilter == Lower(branch)
    {
      LowerIdempotent(branch);
      branchFilter := Lower(branch);
    }

    /** `set_status_filter`: stores the filter lower-cased. */
    method SetStatusFilter(status: string)
      requires Valid()
      modifies this`statusFilter
      ensures Valid() && statusFilter == Lower(status)
    {
      LowerIdempotent(status);
      statusFilter := Lower(status);
    }

    /** `set_text_filter`: stores the filter lower-cased. */
    method SetTextFilter(text: string)
      requires Valid()
      modifies this`textFilter
      ensures Valid() && textFilter == Lower(text)
    {
      LowerIdempotent(text);
      textFilter := Lower(text);
    }
  }

  /** `_update_status_label`: the label for `count` loaded worktrees, or
      for no selected project. */
  function StatusLabel(hasProject: bool, count: nat): string
  {
    if !hasProject then "No project selected"
    else if count == 0 then "No worktrees found"
    else if count == 1 then "1 worktree"
    else NatToString(count) + " worktrees"
  }

  /** The plural form is used exactly for two or more worktrees of a
      selected project, and then starts with the count. */
  lemma StatusLabelPlural(hasProject: bool, count: nat)
    ensures EndsWith(StatusLabel(hasProject, count), " worktrees") <==> hasProject && count >= 2
    ensures hasProject && count >= 2 ==> StartsWith(StatusLabel(hasProject, count), NatToString(count))
  {
    var plural := " worktrees";
    var shown := StatusLabel(hasProject, count);
    if !hasProject {
      assert shown[|shown| - |plural|] != plural[0];
    } else if count == 0 {
      assert shown[|shown| - |plural|] != plural[0];
    } else if count == 1 {
      assert shown[|shown| - |plural|] != plural[0];
    } else {
      assert shown == NatToString(count) + plural;
      assert shown[|shown| - |plural|..] == plural;
      assert shown[..|NatToString(count)|] == NatToString(count);
    }
  }
}
