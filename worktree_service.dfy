/** The decisions of the worktree service: the order of the creation checks,
    the guards before a removal reaches git, filling in a missing commit
    hash, and finding a worktree of a project by its path. What git and the
    file system report is passed in. */
module WorktreeServiceModel {
  import opened PyStr
  import opened Errors
  import opened ServiceBase
  import opened WorktreeModel
  import ValidationServiceModel
  import ProjectModel

  /** `validate_worktree_creation`: the path check, the branch-name check
      and the branch-in-use check, returning the first that fails. The path
      and in-use verdicts come from the file system and git. */
  function ValidateWorktreeCreation(pathResult: ValidationResult, branch: string, inUseResult: ValidationResult)
    : (r: ValidationResult)
    ensures !pathResult.isValid ==> r == pathResult
    ensures pathResult.isValid && !ValidationServiceModel.ValidateBranchName(branch).isValid ==>
      r == ValidationServiceModel.ValidateBranchName(branch)
    ensures pathResult.isValid && ValidationServiceModel.ValidateBranchName(branch).isValid && !inUseResult.isValid ==>
      r == inUseResult
    ensures r.isValid <==>
      pathResult.isValid && ValidationServiceModel.BranchNameOk(Strip(branch)) && inUseResult.isValid
  {
    if !pathResult.isValid then pathResult
    else
      var branchResult := ValidationServiceModel.ValidateBranchName(branch);
      if !branchResult.isValid then branchResult
      else if !inUseResult.isValid then inUseResult
      else Passed("Worktree creation parameters are valid")
  }

  /** What `check_uncommitted_changes` reports: whether the check itself
      succeeded, and whether it found changes. */
  datatype ChangeCheck = ChangeCheck(isValid: bool, hasUncommittedChanges: bool)

  /** The outcome of `remove_worktree`, and whether git was asked to remove
      the worktree. */
  datatype Removal = Removal(result: Result<bool>, gitCalled: bool)

  /** The guards of `remove_worktree` that can refuse before git runs:
      no worktree or an empty path, uncommitted changes found by a
      successful check when not forcing, and the current directory. */
  function RemovalRefusal(worktree: Option<Worktree>, force: bool, changes: ChangeCheck, isCurrentDirectory: bool)
    : Option<Error>
  {
    if worktree.None? || worktree.value.path == [] then Some(ServiceError("Invalid worktree provided"))
    else if !force && changes.isValid && changes.hasUncommittedChanges then
      Some(ServiceError("Worktree has uncommitted changes: " + worktree.value.path
                        + ". Use force=True to remove anyway."))
    else if isCurrentDirectory then
      Some(ServiceError("Cannot remove worktree that is the current working directory: " + worktree.value.path))
    else None
  }

  /** `remove_worktree`; `gitSucceeded` and `gitError` are what git would
      report if asked. */
  function RemoveWorktree(worktree: Option<Worktree>, force: bool, changes: ChangeCheck, isCurrentDirectory: bool,
                          gitSucceeded: bool, gitError: string): Removal
  {
    var refusal := RemovalRefusal(worktree, force, changes, isCurrentDirectory);
    if refusal.Some? then Removal(Err(refusal.value), false)
    else if !gitSucceeded then Removal(Err(ServiceError("Failed to remove worktree: " + gitError)), true)
    else Removal(Ok(true), true)
  }

  /** Git runs only when every guard passes, and true is returned only
      after git reports success: a missing worktree or an empty path is
      refused first, found changes block an unforced removal, a failed
      change check does not, and the current directory is refused even
      with force. */
  lemma RemovalGuards(worktree: Option<Worktree>, force: bool, changes: ChangeCheck, isCurrentDirectory: bool,
                      gitSucceeded: bool, gitError: string)
    ensures var r := RemoveWorktree(worktree, force, changes, isCurrentDirectory, gitSucceeded, gitError);
      (r.gitCalled <==> worktree.Some? && worktree.value.path != [] && !isCurrentDirectory
                        && (force || !changes.isValid || !changes.hasUncommittedChanges))
      && (r.result.Ok? <==> r.gitCalled && gitSucceeded)
      && (r.result.Ok? ==> r.result.value)
      && (r.result.Err? ==> r.result.error.ServiceError?)
      && (worktree.None? || worktree.value.path == [] ==>
            r.result == Err(ServiceError("Invalid worktree provided")))
      && (isCurrentDirectory ==> !r.gitCalled)
  {
  }

  /** What `execute_command(["rev-parse", "HEAD"])` reports. */
  datatype CommandOutput = CommandOutput(success: bool, output: string)

  /** `_update_commit_hash`: a worktree with a hash keeps it; otherwise a
      current branch written "(x)" makes the worktree detached at x, and any
      other branch takes the stripped output of `rev-parse HEAD` when that
      succeeds. A GitError (an `Err`) from either git call leaves the
      worktree as it was. */
  function UpdateCommitHash(w: Worktree, currentBranch: Result<string>, revParse: Result<CommandOutput>): Worktree
  {
    if w.commitHash != [] then w
    else if currentBranch.Err? then w
    else
      var b := currentBranch.value;
      if StartsWith(b, "(") && EndsWith(b, ")") then
        ParenthesisedLength(b);
        w.(commitHash := b[1..|b| - 1], isDetached := true)
      else if revParse.Err? || !revParse.value.success then w
      else w.(commitHash := Strip(revParse.value.output))
  }

  /** A string that starts with "(" and ends with ")" has both. */
  lemma ParenthesisedLength(b: string)
    requires StartsWith(b, "(") && EndsWith(b, ")")
    ensures |b| >= 2 && b[0] == '(' && b[|b| - 1] == ')'
  {
    assert b[..1][0] == b[0] && b[|b| - 1..][0] == b[|b| - 1];
    assert b[0] != b[|b| - 1];
  }

  /** Only the hash and the detached flag ever change, and only when the
      hash was empty; a parenthesised branch yields its inside as the hash. */
  lemma UpdateCommitHashEffect(w: Worktree, currentBranch: Result<string>, revParse: Result<CommandOutput>)
    ensures var r := UpdateCommitHash(w, currentBranch, revParse);
      r == w.(commitHash := r.commitHash, isDetached := r.isDetached)
      && (w.commitHash != [] ==> r == w)
      && (w.isDetached ==> r.isDetached)
      && (w.commitHash == [] && currentBranch.Ok? && |currentBranch.value| >= 2
          && currentBranch.value[0] == '(' && currentBranch.value[|currentBranch.value| - 1] == ')' ==>
            "(" + r.commitHash + ")" == currentBranch.value && r.isDetached)
  {
    var r := UpdateCommitHash(w, currentBranch, revParse);
    if w.commitHash == [] && currentBranch.Ok? {
      var b := currentBranch.value;
      if |b| >= 2 && b[0] == '(' && b[|b| - 1] == ')' {
        assert StartsWith(b, "(") && EndsWith(b, ")");
        assert b == "(" + b[1..|b| - 1] + ")";
      }
    }
  }

  /** `_find_worktree_by_path`: the loop over the project's worktrees,
      returning the first whose path matches. */
  method FindWorktreeByPath(project: ProjectModel.Project, path: string) returns (r: Option<Worktree>)
    ensures r == project.WorktreeByPath(path)
  {
    var ws := project.worktrees;
    for i := 0 to |ws|
      invariant forall j :: 0 <= j < i ==> ws[j].path != path
    {
      if ws[i].path == path {
        return Some(ws[i]);
      }
    }
    return None;
  }
}
