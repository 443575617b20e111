/** The parts of the git service that do not run git: the parser for the
    output of `git worktree list --porcelain` (the "Porcelain Format" of
    git-worktree(1): one attribute per line, records separated by blank
    lines), the order-preserving de-duplication of branch names, and the
    argument checks and error mapping around `git worktree add` and
    `git worktree remove`.  What git prints and whether a path exists are
    parameters. */
module GitServiceModel {
  import opened PyStr
  import opened PyList
  import opened Errors

  /** A record while it is being parsed: a dictionary whose keys appear as
      lines are read, one field per possible key. */
  datatype Entry = Entry(
    path: Option<string>,
    commitHash: Option<string>,
    branch: Option<string>,
    isDetached: Option<bool>,
    isBare: Option<bool>)

  /** The empty dictionary, the only falsy one. */
  const EMPTY := Entry(None, None, None, None, None)

  /** A finished record: every key except `path` has been given a default. */
  datatype WorktreeInfo = WorktreeInfo(
    path: Option<string>,
    commitHash: string,
    branch: string,
    isDetached: bool,
    isBare: bool)

  /** `s[n:]` for `n >= 0`. */
  function Drop(s: string, n: nat): (r: string)
    ensures n <= |s| ==> r == s[n..]
    ensures n > |s| ==> r == []
  {
    if n <= |s| then s[n..] else []
  }

  /** The branch named by a ref: `refs/heads/X` names X, any other ref is
      kept whole. */
  function BranchFromRef(ref: string): (r: string)
    ensures StartsWith(ref, "refs/heads/") ==> ref == "refs/heads/" + r
    ensures !StartsWith(ref, "refs/heads/") ==> r == ref
  {
    if StartsWith(ref, "refs/heads/") then
      assert ref == ref[..11] + ref[11..];
      ref[11..]
    else ref
  }

  /** `_parse_branch_line`: the branch is set from the ref after "branch "
      and the record is marked attached. */
  function ParseBranchLine(line: string, e: Entry): (r: Entry)
    ensures r.branch == Some(BranchFromRef(Drop(line, 7))) && r.isDetached == Some(false)
    ensures r.path == e.path && r.commitHash == e.commitHash && r.isBare == e.isBare
  {
    e.(branch := Some(BranchFromRef(Drop(line, 7))), isDetached := Some(false))
  }

  /** `_parse_worktree_line` on a stripped, non-blank line.  The effect of
      each kind of line is stated by the lemmas below; a line of no known
      kind leaves the record as it was. */
  function ParseLine(line: string, e: Entry): (r: Entry)
    ensures (!StartsWith(line, "worktree ") && !StartsWith(line, "HEAD ") && !StartsWith(line, "branch ")
             && line != "detached" && line != "bare") ==> r == e
    ensures r != EMPTY ==> e != EMPTY || line != []
  {
    if StartsWith(line, "worktree ") then e.(path := Some(Drop(line, 9)))
    else if StartsWith(line, "HEAD ") then e.(commitHash := Some(Drop(line, 5)))
    else if StartsWith(line, "branch ") then ParseBranchLine(line, e)
    else if line == "detached" then e.(isDetached := Some(true), branch := Some("HEAD"))
    else if line == "bare" then e.(isBare := Some(true))
    else e
  }

  lemma WorktreeLineSetsPath(p: string, e: Entry)
    ensures ParseLine("worktree " + p, e) == e.(path := Some(p))
  {
    var line := "worktree " + p;
    assert line[..9] == "worktree ";
    assert line[9..] == p;
  }

  lemma HeadLineSetsCommit(h: string, e: Entry)
    ensures ParseLine("HEAD " + h, e) == e.(commitHash := Some(h))
  {
    var line := "HEAD " + h;
    assert line[0] == 'H';
    assert line[..5] == "HEAD ";
    assert line[5..] == h;
  }

  lemma BranchLineSetsBranch(ref: string, e: Entry)
    ensures var r := ParseLine("branch " + ref, e);
      && r.isDetached == Some(false)
      && (StartsWith(ref, "refs/heads/") ==> r.branch == Some(ref[11..]))
      && (!StartsWith(ref, "refs/heads/") ==> r.branch == Some(ref))
      && r.path == e.path && r.commitHash == e.commitHash && r.isBare == e.isBare
  {
    var line := "branch " + ref;
    assert line[0] == 'b';
    assert line[..7] == "branch ";
    assert line[7..] == ref;
  }

  lemma DetachedAndBareLines(e: Entry)
    ensures ParseLine("detached", e) == e.(isDetached := Some(true), branch := Some("HEAD"))
    ensures ParseLine("bare", e) == e.(isBare := Some(true))
  {
    assert "detached"[0] == 'd';
    assert "bare"[0] == 'b' && "bare"[1] == 'a';
  }

  /** The defaults applied to every finished record. */
  function WithDefaults(e: Entry): (w: WorktreeInfo)
    ensures w.path == e.path
    ensures e.isBare.Some? ==> w.isBare == e.isBare.value
    ensures e.isBare.None? ==> !w.isBare
    ensures e.isDetached.Some? ==> w.isDetached == e.isDetached.value
    ensures e.isDetached.None? ==> !w.isDetached
    ensures e.branch.Some? ==> w.branch == e.branch.value
    ensures e.branch.None? ==> w.branch == "HEAD"
    ensures e.commitHash.Some? ==> w.commitHash == e.commitHash.value
    ensures e.commitHash.None? ==> w.commitHash == ""
  {
    WorktreeInfo(
      e.path,
      if e.commitHash.Some? then e.commitHash.value else "",
      if e.branch.Some? then e.branch.value else "HEAD",
      e.isDetached.Some? && e.isDetached.value,
      e.isBare.Some? && e.isBare.value)
  }

  predicate IsBlank(line: string)
  {
    Strip(line) == []
  }

  /** The record under construction, if it is non-empty. */
  function Flush(cur: Entry): (r: seq<Entry>)
    ensures |r| <= 1
    ensures r == [] <==> cur == EMPTY
  {
    if cur == EMPTY then [] else [cur]
  }

  /** The records the parse loop appends, reading `lines` with `cur` as the
      record under construction. */
  function Blocks(lines: seq<string>, cur: Entry): (r: seq<Entry>)
    ensures forall k :: 0 <= k < |r| ==> r[k] != EMPTY
    decreases |lines|
  {
    if |lines| == 0 then Flush(cur)
    else if IsBlank(lines[0]) then Flush(cur) + Blocks(lines[1..], EMPTY)
    else Blocks(lines[1..], ParseLine(Strip(lines[0]), cur))
  }

  /** The record that a run of non-blank lines builds. */
  function Fold(lines: seq<string>, cur: Entry): Entry
    decreases |lines|
  {
    if |lines| == 0 then cur else Fold(lines[1..], ParseLine(Strip(lines[0]), cur))
  }

  /** A blank line closes the record: what comes before and what comes
      after it are parsed independently. */
  lemma {:induction false} BlankSeparates(a: seq<string>, blank: string, b: seq<string>, cur: Entry)
    requires IsBlank(blank)
    ensures Blocks(a + [blank] + b, cur) == Blocks(a, cur) + Blocks(b, EMPTY)
    decreases |a|
  {
    var all := a + [blank] + b;
    if |a| == 0 {
      assert all[1..] == b;
    } else {
      assert all[1..] == a[1..] + [blank] + b;
      if IsBlank(a[0]) {
        BlankSeparates(a[1..], blank, b, EMPTY);
      } else {
        BlankSeparates(a[1..], blank, b, ParseLine(Strip(a[0]), cur));
      }
    }
  }

  /** A run of non-blank lines gives exactly one record, or none when none
      of its lines is of a known kind. */
  lemma {:induction false} OneRecordPerBlock(a: seq<string>, cur: Entry)
    requires forall k :: 0 <= k < |a| ==> !IsBlank(a[k])
    ensures Blocks(a, cur) == Flush(Fold(a, cur))
    decreases |a|
  {
    if |a| > 0 {
      assert !IsBlank(a[0]);
      OneRecordPerBlock(a[1..], ParseLine(Strip(a[0]), cur));
    }
  }

  /** Blank lines in a row give no empty record. */
  lemma {:induction false} BlankLinesAddNothing(blanks: seq<string>, b: seq<string>)
    requires forall k :: 0 <= k < |blanks| ==> IsBlank(blanks[k])
    ensures Blocks(blanks + b, EMPTY) == Blocks(b, EMPTY)
    decreases |blanks|
  {
    if |blanks| > 0 {
      assert (blanks + b)[1..] == blanks[1..] + b;
      assert IsBlank(blanks[0]);
      BlankLinesAddNothing(blanks[1..], b);
      assert Blocks(blanks + b, EMPTY) == Flush(EMPTY) + Blocks(blanks[1..] + b, EMPTY);
      assert Flush(EMPTY) + Blocks(b, EMPTY) == Blocks(b, EMPTY);
    } else {
      assert blanks + b == b;
    }
  }

  function Finalize(es: seq<Entry>): (r: seq<WorktreeInfo>)
    ensures |r| == |es| && forall k :: 0 <= k < |es| ==> r[k] == WithDefaults(es[k])
  {
    seq(|es|, k requires 0 <= k < |es| => WithDefaults(es[k]))
  }

  /** What `_parse_worktree_list` returns for `output`. */
  function ParsedWorktrees(output: string): seq<WorktreeInfo>
  {
    Finalize(Blocks(Split(output, '\n'), EMPTY))
  }

  lemma EmptyOutputGivesNothing()
    ensures ParsedWorktrees("") == []
  {
    assert Split("", '\n') == [""];
    assert Strip("") == [];
  }

  /** `_parse_worktree_list`: the loop over the lines, then the loop that
      fills in the defaults. */
  method ParseWorktreeList(output: string) returns (worktrees: seq<WorktreeInfo>)
    ensures worktrees == ParsedWorktrees(output)
  {
    var records := CollectRecords(Split(output, '\n'));
    worktrees := ApplyDefaults(records);
  }

  /** The second loop of `_parse_worktree_list`: every record gets its
      missing fields filled in, in order. */
  method ApplyDefaults(records: seq<Entry>) returns (worktrees: seq<WorktreeInfo>)
    ensures worktrees == Finalize(records)
  {
    worktrees := [];
    var j := 0;
    while j < |records|
      invariant 0 <= j <= |records| && |worktrees| == j
      invariant forall k :: 0 <= k < j ==> worktrees[k] == WithDefaults(records[k])
    {
      worktrees := worktrees + [WithDefaults(records[j])];
      j := j + 1;
    }
  }

  /** The first loop of `_parse_worktree_list`: a blank line appends the
      record under construction if it is non-empty and starts a new one;
      any other line is parsed into the current record. */
  method CollectRecords(lines: seq<string>) returns (records: seq<Entry>)
    ensures records == Blocks(lines, EMPTY)
  {
    records := [];
    var current := EMPTY;
    var i := 0;
    while i < |lines|
      invariant 0 <= i <= |lines|
      invariant Blocks(lines, EMPTY) == records + Blocks(lines[i..], current)
    {
      var rest := lines[i..];
      BlocksStep(rest, current);
      assert rest[0] == lines[i] && rest[1..] == lines[i + 1..];
      if IsBlank(lines[i]) {
        AppendAssoc(records, Flush(current), Blocks(lines[i + 1..], EMPTY));
        records := records + Flush(current);
        current := EMPTY;
      } else {
        current := ParseLine(Strip(lines[i]), current);
      }
      i := i + 1;
    }
    assert lines[i..] == [];
    records := records + Flush(current);
  }

  lemma AppendAssoc<T>(a: seq<T>, b: seq<T>, c: seq<T>)
    ensures a + (b + c) == (a + b) + c
  {
  }

  /** One step of `Blocks`. */
  lemma BlocksStep(lines: seq<string>, cur: Entry)
    requires |lines| > 0
    ensures IsBlank(lines[0]) ==> Blocks(lines, cur) == Flush(cur) + Blocks(lines[1..], EMPTY)
    ensures !IsBlank(lines[0]) ==> Blocks(lines, cur) == Blocks(lines[1..], ParseLine(Strip(lines[0]), cur))
  {
  }

  /** `_remove_duplicate_branches`: the `seen`-set loop. */
  method RemoveDuplicateBranches(branches: seq<string>) returns (unique: seq<string>)
    ensures unique == Dedup(branches)
    ensures NoDuplicates(unique) && IsSubsequence(unique, branches)
    ensures forall k :: 0 <= k < |branches| ==> branches[k] in unique
  {
    var seen: set<string> := {};
    unique := [];
    var i := 0;
    while i < |branches|
      invariant 0 <= i <= |branches|
      invariant unique == Dedup(branches[..i])
      invariant forall b :: b in seen <==> b in unique
    {
      assert branches[..i + 1][..i] == branches[..i];
      var b := branches[i];
      if b !in seen {
        seen := seen + {b};
        unique := unique + [b];
      }
      i := i + 1;
    }
    assert branches[..i] == branches;
    DedupSubsequence(branches);
  }

  /** A git invocation: its arguments and working directory. */
  datatype GitCall = GitCall(args: seq<string>, cwd: string)

  /** The checks of `create_worktree` before git runs; `pathExists` says
      whether the worktree path is already taken. */
  function CreateWorktreeCall(repoPath: string, worktreePath: string, branch: string, pathExists: bool)
    : (r: Result<GitCall>)
    ensures repoPath == [] || worktreePath == [] || branch == [] ==> r.Err? && r.error.ValidationError?
    ensures repoPath != [] && worktreePath != [] && branch != [] && pathExists ==>
      r == Err(GitError("Worktree path already exists: " + worktreePath))
    ensures r.Ok? <==> repoPath != [] && worktreePath != [] && branch != [] && !pathExists
    ensures r.Ok? ==>
      (r.value.cwd == repoPath && |r.value.args| == 4
       && r.value.args[..2] == ["worktree", "add"] && r.value.args[2] == worktreePath && r.value.args[3] == branch)
  {
    if repoPath == [] || worktreePath == [] || branch == [] then
      Err(ValidationError("Repository path, worktree path, and branch are required"))
    else if pathExists then Err(GitError("Worktree path already exists: " + worktreePath))
    else Ok(GitCall(["worktree", "add", worktreePath, branch], repoPath))
  }

  /** The error `create_worktree` raises when git fails with `gitError`. */
  function CreateWorktreeFailure(worktreePath: string, branch: string, gitError: string): (r: Error)
    ensures r.GitError?
    ensures Contains(Lower(gitError), "already exists") ==>
      r.message == "Worktree path already exists: " + worktreePath
    ensures !Contains(Lower(gitError), "already exists") && Contains(Lower(gitError), "not a valid branch") ==>
      r.message == "Branch '" + branch + "' does not exist"
    ensures !Contains(Lower(gitError), "already exists") && !Contains(Lower(gitError), "not a valid branch") ==>
      r.message == "Failed to create worktree: " + gitError
  {
    var lowered := Lower(gitError);
    if Contains(lowered, "already exists") then GitError("Worktree path already exists: " + worktreePath)
    else if Contains(lowered, "not a valid branch") then GitError("Branch '" + branch + "' does not exist")
    else GitError("Failed to create worktree: " + gitError)
  }

  /** The arguments `remove_worktree` passes to git, or the error for an
      empty path. */
  function RemoveWorktreeArgs(worktreePath: string, force: bool): (r: Result<seq<string>>)
    ensures r.Err? <==> worktreePath == []
    ensures r.Err? ==> r.error.ValidationError?
    ensures r.Ok? ==>
      (|r.value| == (if force then 4 else 3) && r.value[..2] == ["worktree", "remove"]
       && r.value[|r.value| - 1] == worktreePath
       && ("--force" in r.value[..|r.value| - 1] <==> force))
  {
    if worktreePath == [] then Err(ValidationError("Worktree path is required"))
    else
      var options := if force then ["--force"] else [];
      var args := ["worktree", "remove"] + options + [worktreePath];
      assert args[..|args| - 1] == ["worktree", "remove"] + options;
      Ok(args)
  }

  /** The error `remove_worktree` raises when git fails with `gitError`. */
  function RemoveWorktreeFailure(worktreePath: string, gitError: string): (r: Error)
    ensures r.GitError?
    ensures Contains(Lower(gitError), "not a working tree") ==>
      r.message == "Path is not a Git worktree: " + worktreePath
    ensures !Contains(Lower(gitError), "not a working tree") && Contains(Lower(gitError), "uncommitted changes") ==>
      r.message == "Worktree has uncommitted changes. Use force=True to override: " + worktreePath
    ensures !Contains(Lower(gitError), "not a working tree") && !Contains(Lower(gitError), "uncommitted changes") ==>
      r.message == "Failed to remove worktree: " + gitError
  {
    var lowered := Lower(gitError);
    if Contains(lowered, "not a working tree") then GitError("Path is not a Git worktree: " + worktreePath)
    else if Contains(lowered, "uncommitted changes") then
      GitError("Worktree has uncommitted changes. Use force=True to override: " + worktreePath)
    else GitError("Failed to remove worktree: " + gitError)
  }
}
