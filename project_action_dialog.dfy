/** The naming of a new worktree's directory in the project action dialog:
    the branch name made safe for a directory name, appended to the
    project's display name. */
module ProjectActionDialogModel {
  import opened PyStr

  /** Replacing "--" by "-" never lengthens a text, and shortens one that
      contains "--". */
  lemma {:induction false} CollapseShrinks(s: string)
    ensures |Replace(s, "--", "-")| <= |s|
    ensures Contains(s, "--") ==> |Replace(s, "--", "-")| < |s|
    decreases |s|
  {
    if |s| < 2 {
      ContainsLength(s, "--");
    } else if s[..2] == "--" {
      CollapseShrinks(s[2..]);
      assert Replace(s, "--", "-") == "-" + Replace(s[2..], "--", "-");
    } else {
      CollapseShrinks(s[1..]);
      assert Replace(s, "--", "-") == [s[0]] + Replace(s[1..], "--", "-");
      assert Contains(s, "--") ==> Contains(s[1..], "--");
    }
  }

  /** Only a text at least as long as `sub` contains it. */
  lemma {:induction false} ContainsLength(s: string, sub: string)
    ensures Contains(s, sub) ==> |sub| <= |s|
    decreases |s|
  {
    if |s| > 0 {
      ContainsLength(s[1..], sub);
    }
  }

  /** The `while "--" in s` loop of `_sanitize_branch_name`. */
  function CollapseDashes(s: string): string
    decreases |s|
  {
    if Contains(s, "--") then
      CollapseShrinks(s);
      CollapseDashes(Replace(s, "--", "-"))
    else s
  }

  /** Collapsing leaves no "--" and brings in no new character. */
  lemma {:induction false} CollapseDashesShape(s: string)
    ensures !Contains(CollapseDashes(s), "--")
    ensures forall c :: c in CollapseDashes(s) ==> c in s || c == '-'
    decreases |s|
  {
    if Contains(s, "--") {
      CollapseShrinks(s);
      var t := Replace(s, "--", "-");
      CollapseDashesShape(t);
      ReplaceChars(s, "--", "-");
    }
  }

  /** The three character replacements: '/', '\' and ':' become '-'. */
  function DashSeparators(branchName: string): string
  {
    Replace(Replace(Replace(branchName, "/", "-"), "\\", "-"), ":", "-")
  }

  /** No separator is left after the replacements, and no other character
      is brought in. */
  lemma DashSeparatorsShape(branchName: string)
    ensures var r := DashSeparators(branchName);
      '/' !in r && '\\' !in r && ':' !in r
      && forall c :: c in r ==> c in branchName || c == '-'
  {
    var a := Replace(branchName, "/", "-");
    var b := Replace(a, "\\", "-");
    ReplaceCharGone(branchName, '/', "-");
    ReplaceCharGone(a, '\\', "-");
    ReplaceCharGone(b, ':', "-");
  }

  /** `_sanitize_branch_name`. */
  function SanitizeBranch(branchName: string): string
  {
    if branchName == [] then ""
    else StripSet(CollapseDashes(DashSeparators(branchName)), {'-'})
  }

  /** A piece of a text without "--" has none either. */
  lemma NoPairInSlice(s: string, k: int, n: int)
    requires 0 <= k <= k + n <= |s| && !Contains(s, "--")
    ensures !Contains(s[k..k + n], "--")
  {
    var t := s[k..k + n];
    assert "--" == ['-', '-'];
    ContainsPair(s, '-', '-');
    ContainsPair(t, '-', '-');
    assert forall i :: 0 <= i < |t| ==> t[i] == s[k + i];
  }

  /** Stripping the dashes off a text without "--" leaves a text without
      "--" that neither starts nor ends with '-', made of the text's own
      characters. */
  lemma StripDashesShape(c: string)
    requires !Contains(c, "--")
    ensures var r := StripSet(c, {'-'});
      !Contains(r, "--") && (r == [] || (r[0] != '-' && r[|r| - 1] != '-'))
      && forall ch :: ch in r ==> ch in c
  {
    StripSetShape(c, {'-'});
    var k := |c| - |LStripSet(c, {'-'})|;
    var r := StripSet(c, {'-'});
    NoPairInSlice(c, k, |r|);
    forall ch | ch in r
      ensures ch in c
    {
      var i :| 0 <= i < |r| && r[i] == ch;
      assert c[k + i] == ch;
    }
  }

  /** The sanitised name holds no '/', '\', ':' or "--", neither starts nor
      ends with '-', and brings in no character but '-'. */
  lemma SanitizeBranchShape(branchName: string)
    ensures var r := SanitizeBranch(branchName);
      '/' !in r && '\\' !in r && ':' !in r && !Contains(r, "--")
      && (r == [] || (r[0] != '-' && r[|r| - 1] != '-'))
      && forall c :: c in r ==> c in branchName || c == '-'
  {
    if branchName != [] {
      var d := DashSeparators(branchName);
      DashSeparatorsShape(branchName);
      CollapseDashesShape(d);
      StripDashesShape(CollapseDashes(d));
    }
  }

  /** A name that is already clean comes back unchanged. */
  lemma SanitizeClean(s: string)
    requires '/' !in s && '\\' !in s && ':' !in s && !Contains(s, "--")
    requires s == [] || (s[0] != '-' && s[|s| - 1] != '-')
    ensures SanitizeBranch(s) == s
  {
    if s != [] {
      ReplaceAbsent(s, "/", "-");
      ReplaceAbsent(s, "\\", "-");
      ReplaceAbsent(s, ":", "-");
      assert DashSeparators(s) == s;
      assert CollapseDashes(s) == s;
      assert LStripSet(s, {'-'}) == s;
    }
  }

  /** Sanitising twice is sanitising once. */
  lemma SanitizeIdempotent(branchName: string)
    ensures SanitizeBranch(SanitizeBranch(branchName)) == SanitizeBranch(branchName)
  {
    SanitizeBranchShape(branchName);
    SanitizeClean(SanitizeBranch(branchName));
  }

  /** `_sanitize_branch_name` as the source writes it, with its loop. */
  method SanitizeBranchName(branchName: string) returns (r: string)
    ensures r == SanitizeBranch(branchName)
  {
    if branchName == [] {
      return "";
    }
    var sanitized := DashSeparators(branchName);
    ghost var start := sanitized;
    while Contains(sanitized, "--")
      invariant CollapseDashes(sanitized) == CollapseDashes(start)
      decreases |sanitized|
    {
      CollapseShrinks(sanitized);
      sanitized := Replace(sanitized, "--", "-");
    }
    return StripSet(sanitized, {'-'});
  }

  /** The directory name `_generate_worktree_path` builds: the display name,
      a '-', and the sanitised branch, "main" standing in for no branch. */
  function WorktreeDirName(displayName: string, branch: string): string
  {
    displayName + "-" + SanitizeBranch(if branch == [] then "main" else branch)
  }

  /** "main" is already clean. */
  lemma MainIsClean()
    ensures SanitizeBranch("main") == "main"
  {
    var main := "main";
    assert "--" == ['-', '-'];
    ContainsPair(main, '-', '-');
    assert forall c :: c in main ==> c != '/' && c != '\\' && c != ':';
    SanitizeClean(main);
  }

  /** With no branch selected the directory is named after "main". */
  lemma DirNameDefault(displayName: string, branch: string)
    requires branch == []
    ensures WorktreeDirName(displayName, branch) == displayName + "-" + "main"
  {
    MainIsClean();
  }

  /** A clean branch name is used as it is, after the display name and a
      '-'. */
  lemma DirNameClean(displayName: string, branch: string)
    requires branch != [] && '/' !in branch && '\\' !in branch && ':' !in branch && !Contains(branch, "--")
    requires branch[0] != '-' && branch[|branch| - 1] != '-'
    ensures WorktreeDirName(displayName, branch) == displayName + "-" + branch
  {
    SanitizeClean(branch);
  }

  /** The base directory: the given one, else the configured one when it
      exists, else the project's parent directory. */
  function BaseDir(basePath: string, configuredBase: string, configuredBaseExists: bool, projectParent: string)
    : (r: string)
    ensures basePath != [] ==> r == basePath
    ensures basePath == [] && configuredBase != [] && configuredBaseExists ==> r == configuredBase
    ensures basePath == [] && (configuredBase == [] || !configuredBaseExists) ==> r == projectParent
  {
    if basePath != [] then basePath
    else if configuredBase != [] && configuredBaseExists then configuredBase
    else projectParent
  }
}
