/** Input checks of the validation service: branch names (a simplified
    subset of the rules of git-check-ref-format(1)) and the safety screen
    applied to user commands before they are run.  The checks that consult
    the file system or git are not part of this model. */
module ValidationServiceModel {
  import opened PyStr
  import opened ServiceBase

  const MAX_BRANCH_LENGTH := 250
  const MAX_COMMAND_LENGTH := 1000
  const MAX_ARGUMENT_LENGTH := 500
  const RESERVED_NAMES: set<string> := {"HEAD", "ORIG_HEAD", "FETCH_HEAD", "MERGE_HEAD"}

  /** `[\x00-\x1f\x7f]`. */
  predicate IsControl(c: char)
  {
    c as int <= 0x1f || c as int == 0x7f
  }

  /** `[a-zA-Z0-9._/-]`. */
  predicate AllowedBranchChar(c: char)
  {
    ('a' <= c <= 'z') || ('A' <= c <= 'Z') || ('0' <= c <= '9') || c == '.' || c == '_' || c == '/' || c == '-'
  }

  /** The entries of the invalid-branch pattern list, in list order. */
  datatype BranchPattern =
    LeadingDash | DoubleDot | TrailingSlash | DoubleSlash | AtBrace | Backslash | Whitespace | ControlChar

  const INVALID_BRANCH_PATTERNS: seq<BranchPattern> :=
    [LeadingDash, DoubleDot, TrailingSlash, DoubleSlash, AtBrace, Backslash, Whitespace, ControlChar]

  /** `pattern.search(b)` for one entry of the list. */
  predicate PatternFound(p: BranchPattern, b: string)
  {
    match p
    case LeadingDash => StartsWith(b, "-")
    case DoubleDot => Contains(b, "..")
    case TrailingSlash => EndsWith(b, "/")
    case DoubleSlash => Contains(b, "//")
    case AtBrace => Contains(b, "@{")
    case Backslash => '\\' in b
    case Whitespace => exists i :: 0 <= i < |b| && IsSpace(b[i])
    case ControlChar => exists i :: 0 <= i < |b| && IsControl(b[i])
  }

  /** The scan over the pattern list, stopping at the first pattern found. */
  function AnyPatternFound(ps: seq<BranchPattern>, b: string): (r: bool)
    ensures r <==> exists k :: 0 <= k < |ps| && PatternFound(ps[k], b)
    decreases |ps|
  {
    if |ps| == 0 then false
    else if PatternFound(ps[0], b) then true
    else
      assert forall k :: 1 <= k < |ps| ==> ps[k] == ps[1..][k - 1];
      AnyPatternFound(ps[1..], b)
  }

  /** A reference statement of what a branch name must look like to pass,
      written with character positions rather than the pattern list. */
  predicate BranchNameOk(s: string)
  {
    BranchShapeOk(s) && Upper(s) !in RESERVED_NAMES
  }

  /** Non-empty, at most 250 characters from `[A-Za-z0-9._/-]`, no leading
      '-', no trailing '/', and no ".." or "//". */
  predicate BranchShapeOk(s: string)
  {
    0 < |s| <= MAX_BRANCH_LENGTH
    && AllAllowed(s)
    && s[0] != '-'
    && s[|s| - 1] != '/'
    && NoAdjacentPair(s, '.')
    && NoAdjacentPair(s, '/')
  }

  /** No two consecutive characters of `s` are both `c`. */
  predicate NoAdjacentPair(s: string, c: char)
  {
    forall i :: 0 <= i < |s| - 1 ==> !(s[i] == c && s[i + 1] == c)
  }

  /** Every character of `s` is in `[A-Za-z0-9._/-]`. */
  predicate AllAllowed(s: string)
  {
    forall i :: 0 <= i < |s| ==> AllowedBranchChar(s[i])
  }

  /** The guard chain of `validate_branch_name`; the name is checked after
      `strip()`. */
  function ValidateBranchName(branch: string): (r: ValidationResult)
    ensures var b := Strip(branch);
      && (ErrorType(r) == "empty_branch" <==> b == [])
      && (ErrorType(r) == "branch_too_long" <==> |b| > MAX_BRANCH_LENGTH)
      && (ErrorType(r) == "invalid_pattern" <==>
            0 < |b| <= MAX_BRANCH_LENGTH && AnyPatternFound(INVALID_BRANCH_PATTERNS, b))
      && (ErrorType(r) == "invalid_characters" <==>
            0 < |b| <= MAX_BRANCH_LENGTH && !AnyPatternFound(INVALID_BRANCH_PATTERNS, b) && !AllAllowed(b))
      && (ErrorType(r) == "reserved_name" <==> BranchShapeOk(b) && Upper(b) in RESERVED_NAMES)
      && (r.isValid <==> BranchNameOk(b))
      && (!r.isValid <==> r.errorType.Some?)
  {
    var b := Strip(branch);
    if b == [] then Rejected("Branch name cannot be empty", "empty_branch")
    else CheckStrippedBranch(b)
  }

  /** The checks after the empty-name check, on the stripped name. */
  function CheckStrippedBranch(b: string): (r: ValidationResult)
    requires b != []
    ensures ErrorType(r) != "empty_branch"
    ensures ErrorType(r) == "branch_too_long" <==> |b| > MAX_BRANCH_LENGTH
    ensures ErrorType(r) == "invalid_pattern" <==>
      |b| <= MAX_BRANCH_LENGTH && AnyPatternFound(INVALID_BRANCH_PATTERNS, b)
    ensures ErrorType(r) == "invalid_characters" <==>
      |b| <= MAX_BRANCH_LENGTH && !AnyPatternFound(INVALID_BRANCH_PATTERNS, b) && !AllAllowed(b)
    ensures ErrorType(r) == "reserved_name" <==> BranchShapeOk(b) && Upper(b) in RESERVED_NAMES
    ensures r.isValid <==> BranchNameOk(b)
    ensures !r.isValid <==> r.errorType.Some?
  {
    if |b| > MAX_BRANCH_LENGTH then
      Rejected("Branch name is too long (max 250 characters)", "branch_too_long")
    else
      BranchChecksAgree(b);
      if AnyPatternFound(INVALID_BRANCH_PATTERNS, b) then
        Rejected("Branch name contains invalid pattern: " + b, "invalid_pattern")
      else if !AllAllowed(b) then
        Rejected("Branch name contains invalid characters: " + b, "invalid_characters")
      else if Upper(b) in RESERVED_NAMES then
        Rejected("Branch name is reserved: " + b, "reserved_name")
      else
        Passed("Valid branch name: " + b)
  }

  /** The pattern list scanned in order is the disjunction of its entries. */
  lemma PatternListUnfold(b: string)
    ensures AnyPatternFound(INVALID_BRANCH_PATTERNS, b) <==>
      PatternFound(LeadingDash, b) || PatternFound(DoubleDot, b) || PatternFound(TrailingSlash, b)
      || PatternFound(DoubleSlash, b) || PatternFound(AtBrace, b) || PatternFound(Backslash, b)
      || PatternFound(Whitespace, b) || PatternFound(ControlChar, b)
  {
    var ps := INVALID_BRANCH_PATTERNS;
    assert ps[0] == LeadingDash && ps[1] == DoubleDot && ps[2] == TrailingSlash && ps[3] == DoubleSlash;
    assert ps[4] == AtBrace && ps[5] == Backslash && ps[6] == Whitespace && ps[7] == ControlChar;
  }

  /** A name made of allowed characters cannot contain "@{", a backslash,
      whitespace or a control character. */
  lemma AllowedCharsExclude(b: string)
    requires AllAllowed(b)
    ensures !PatternFound(AtBrace, b) && !PatternFound(Backslash, b)
    ensures !PatternFound(Whitespace, b) && !PatternFound(ControlChar, b)
  {
    forall i | 0 <= i < |b|
      ensures b[i] != '@' && b[i] != '\\' && !IsSpace(b[i]) && !IsControl(b[i])
    {
      assert AllowedBranchChar(b[i]);
    }
    if Contains(b, "@{") {
      ContainsChars(b, "@{", '@');
    }
  }

  /** The remaining four patterns say, by position, what `BranchShapeOk`
      forbids. */
  lemma PositionalPatterns(b: string)
    requires b != []
    ensures PatternFound(LeadingDash, b) <==> b[0] == '-'
    ensures PatternFound(TrailingSlash, b) <==> b[|b| - 1] == '/'
    ensures PatternFound(DoubleDot, b) <==> !NoAdjacentPair(b, '.')
    ensures PatternFound(DoubleSlash, b) <==> !NoAdjacentPair(b, '/')
  {
    ContainsPair(b, '.', '.');
    ContainsPair(b, '/', '/');
    if b[0] == '-' { assert b[..1] == "-"; }
    if b[|b| - 1] == '/' { assert b[|b| - 1..] == "/"; }
  }

  /** For a name that passes the length check, "no pattern found and only
      allowed characters" is the positional shape definition. */
  lemma BranchChecksAgree(b: string)
    requires 0 < |b| <= MAX_BRANCH_LENGTH
    ensures (!AnyPatternFound(INVALID_BRANCH_PATTERNS, b) && AllAllowed(b)) <==> BranchShapeOk(b)
  {
    PatternListUnfold(b);
    PositionalPatterns(b);
    if AllAllowed(b) {
      AllowedCharsExclude(b);
    }
  }

  /** "head" is upper-cased before the reserved-name lookup, so it is
      refused like "HEAD". */
  lemma LowerCaseHeadIsReserved()
    ensures ErrorType(ValidateBranchName("head")) == "reserved_name"
  {
    HeadFacts();
    ReservedNameRejected("head");
  }

  /** A well-shaped name whose upper-cased form is reserved is refused with
      the reserved-name error, whatever its case. */
  lemma ReservedNameRejected(branch: string)
    requires BranchShapeOk(Strip(branch)) && Upper(Strip(branch)) in RESERVED_NAMES
    ensures ErrorType(ValidateBranchName(branch)) == "reserved_name"
  {
    var b := Strip(branch);
    BranchChecksAgree(b);
    assert ValidateBranchName(branch) == CheckStrippedBranch(b);
  }

  lemma HeadFacts()
    ensures Strip("head") == "head"
    ensures Upper("head") == "HEAD"
    ensures BranchShapeOk("head")
  {
    var h := "head";
    assert !IsSpace(h[0]) && !IsSpace(h[3]);
    assert LStrip(h) == h;
    assert RStrip(h) == h;
    var u := Upper(h);
    assert u[0] == 'H' && u[1] == 'E' && u[2] == 'A' && u[3] == 'D';
    forall i | 0 <= i < |h| ensures AllowedBranchChar(h[i]) {
    }
  }

  // ---------------------------------------------------------------------
  // Command safety

  /** The shell metacharacter class `[;&|`$(){}]`. */
  predicate IsShellMetachar(c: char)
  {
    c == ';' || c == '&' || c == '|' || c == '`' || c == '$' || c == '(' || c == ')' || c == '{' || c == '}'
  }

  /** The number of word-boundary rules in the dangerous-command set (the
      `rm`, `sudo`, `su`, `chmod 777`, `chown`, `mkfs`, `fdisk`, `dd`,
      `format`, `curl | sh`, `wget | sh`, `ssh`, `scp`, `rsync --delete`,
      `kill -9`, `killall`, `pkill`, `mv` and `cp` rules). */
  const WORD_RULE_COUNT := 19

  /** One entry of the dangerous-command set.  The word-boundary rules are
      regular expressions that this model does not interpret: whether rule
      `k` matches a command is given by a predicate `wordRule(k, command)`
      that the caller supplies. */
  datatype DangerPattern =
    | WordRule(index: nat)
    | ShellMetacharacters
    | CommandSubstitution
    | BacktickSubstitution

  /** The dangerous-command set, which is a Python set: its iteration order
      is unspecified. */
  predicate IsDangerPattern(p: DangerPattern)
  {
    match p
    case WordRule(k) => k < WORD_RULE_COUNT
    case _ => true
  }

  predicate DangerMatches(p: DangerPattern, command: string, wordRule: (nat, string) -> bool)
  {
    match p
    case WordRule(k) => wordRule(k, command)
    case ShellMetacharacters => exists i :: 0 <= i < |command| && IsShellMetachar(command[i])
    case CommandSubstitution => Contains(command, "$(")
    case BacktickSubstitution => exists i, j :: 0 <= i < j < |command| && command[i] == '`' && command[j] == '`'
  }

  /** The loop over the compiled patterns in one iteration order, stopping
      at the first match. */
  function AnyDangerMatches(order: seq<DangerPattern>, command: string, wordRule: (nat, string) -> bool): (r: bool)
    ensures r <==> exists k :: 0 <= k < |order| && DangerMatches(order[k], command, wordRule)
    decreases |order|
  {
    if |order| == 0 then false
    else if DangerMatches(order[0], command, wordRule) then true
    else
      assert forall k :: 1 <= k < |order| ==> order[k] == order[1..][k - 1];
      AnyDangerMatches(order[1..], command, wordRule)
  }

  /** An iteration order of the dangerous-command set lists each of its
      entries. */
  predicate IsIterationOrder(order: seq<DangerPattern>)
  {
    (forall k :: 0 <= k < |order| ==> IsDangerPattern(order[k]))
    && (forall k: nat :: k < WORD_RULE_COUNT ==> WordRule(k) in order)
    && ShellMetacharacters in order && CommandSubstitution in order && BacktickSubstitution in order
  }

  /** Every pattern that matches yields the same verdict, so the outcome of
      the scan does not depend on the order in which the set is iterated. */
  lemma ScanOrderIrrelevant(o1: seq<DangerPattern>, o2: seq<DangerPattern>, command: string,
                            wordRule: (nat, string) -> bool)
    requires IsIterationOrder(o1) && IsIterationOrder(o2)
    ensures AnyDangerMatches(o1, command, wordRule) == AnyDangerMatches(o2, command, wordRule)
  {
    if AnyDangerMatches(o1, command, wordRule) {
      var k :| 0 <= k < |o1| && DangerMatches(o1[k], command, wordRule);
      assert IsDangerPattern(o1[k]);
      assert o1[k] in o2;
    }
    if AnyDangerMatches(o2, command, wordRule) {
      var k :| 0 <= k < |o2| && DangerMatches(o2[k], command, wordRule);
      assert IsDangerPattern(o2[k]);
      assert o2[k] in o1;
    }
  }

  /** The guard chain of `validate_command_safety`; the command is checked
      after `strip()`, and `order` is the iteration order of the set. */
  function ValidateCommandSafety(command: string, order: seq<DangerPattern>, wordRule: (nat, string) -> bool)
    : ValidationResult
    requires IsIterationOrder(order)
  {
    var c := Strip(command);
    if c == [] then Rejected("Command cannot be empty", "empty_command")
    else CheckStrippedCommand(c, order, wordRule)
  }

  /** The verdicts of `validate_command_safety`, checked in order on the
      stripped command: empty, too long, a dangerous pattern, a NUL byte; a
      command that passes satisfies every limit. */
  lemma CommandSafetyVerdicts(command: string, order: seq<DangerPattern>, wordRule: (nat, string) -> bool)
    requires IsIterationOrder(order)
    ensures var r := ValidateCommandSafety(command, order, wordRule);
      var c := Strip(command);
      && (ErrorType(r) == "empty_command" <==> c == [])
      && (ErrorType(r) == "command_too_long" <==> |c| > MAX_COMMAND_LENGTH)
      && (ErrorType(r) == "dangerous_command" <==>
            0 < |c| <= MAX_COMMAND_LENGTH && AnyDangerMatches(order, c, wordRule))
      && (0 < |c| <= MAX_COMMAND_LENGTH && (exists i :: 0 <= i < |c| && IsShellMetachar(c[i]))
          ==> ErrorType(r) == "dangerous_command")
      && (ErrorType(r) == "null_bytes" <==>
            0 < |c| <= MAX_COMMAND_LENGTH && !AnyDangerMatches(order, c, wordRule) && '\0' in c)
      && (ErrorType(r) == "long_argument" <==>
            0 < |c| <= MAX_COMMAND_LENGTH && !AnyDangerMatches(order, c, wordRule) && '\0' !in c
            && exists w :: w in SplitWords(c) && |w| > MAX_ARGUMENT_LENGTH)
      && (r.isValid <==> SafeCommand(c, wordRule))
      && (!r.isValid <==> r.errorType.Some?)
  {
    var c := Strip(command);
    if c != [] {
      CheckStrippedVerdicts(c, order, wordRule);
    }
  }

  /** What a command that passes the screen is known to satisfy. */
  predicate SafeCommand(c: string, wordRule: (nat, string) -> bool)
  {
    0 < |c| <= MAX_COMMAND_LENGTH
    && (forall i :: 0 <= i < |c| ==> !IsShellMetachar(c[i]) && c[i] != '\0')
    && (forall k: nat :: k < WORD_RULE_COUNT ==> !wordRule(k, c))
    && (forall w :: w in SplitWords(c) ==> |w| <= MAX_ARGUMENT_LENGTH)
  }

  /** The checks after the empty-command check, on the stripped command. */
  function CheckStrippedCommand(c: string, order: seq<DangerPattern>, wordRule: (nat, string) -> bool)
    : ValidationResult
    requires c != [] && IsIterationOrder(order)
  {
    if |c| > MAX_COMMAND_LENGTH then
      Rejected("Command is too long (max 1000 characters)", "command_too_long")
    else if AnyDangerMatches(order, c, wordRule) then
      Rejected("Command contains potentially dangerous pattern: " + c, "dangerous_command")
    else if '\0' in c then
      Rejected("Command contains null bytes", "null_bytes")
    else if exists w :: w in SplitWords(c) && |w| > MAX_ARGUMENT_LENGTH then
      Rejected("Command contains extremely long argument", "long_argument")
    else
      Passed("Command appears safe to execute: " + c)
  }

  lemma CheckStrippedVerdicts(c: string, order: seq<DangerPattern>, wordRule: (nat, string) -> bool)
    requires c != [] && IsIterationOrder(order)
    ensures var r := CheckStrippedCommand(c, order, wordRule);
      && (ErrorType(r) == "command_too_long" <==> |c| > MAX_COMMAND_LENGTH)
      && ErrorType(r) != "empty_command"
      && (ErrorType(r) == "dangerous_command" <==>
            |c| <= MAX_COMMAND_LENGTH && AnyDangerMatches(order, c, wordRule))
      && (|c| <= MAX_COMMAND_LENGTH && (exists i :: 0 <= i < |c| && IsShellMetachar(c[i]))
          ==> ErrorType(r) == "dangerous_command")
      && (ErrorType(r) == "null_bytes" <==>
            |c| <= MAX_COMMAND_LENGTH && !AnyDangerMatches(order, c, wordRule) && '\0' in c)
      && (ErrorType(r) == "long_argument" <==>
            |c| <= MAX_COMMAND_LENGTH && !AnyDangerMatches(order, c, wordRule) && '\0' !in c
            && exists w :: w in SplitWords(c) && |w| > MAX_ARGUMENT_LENGTH)
      && (r.isValid <==> SafeCommand(c, wordRule))
      && (!r.isValid <==> r.errorType.Some?)
  {
    NoMatchMeansClean(c, order, wordRule);
  }

  /** A command that no pattern of the set matches has no metacharacter and
      matches no word rule. */
  lemma NoMatchMeansClean(c: string, order: seq<DangerPattern>, wordRule: (nat, string) -> bool)
    requires IsIterationOrder(order)
    ensures !AnyDangerMatches(order, c, wordRule) <==>
      (forall i :: 0 <= i < |c| ==> !IsShellMetachar(c[i]))
      && (forall k: nat :: k < WORD_RULE_COUNT ==> !wordRule(k, c))
  {
    if !AnyDangerMatches(order, c, wordRule) {
      forall k: nat | k < WORD_RULE_COUNT ensures !wordRule(k, c) {
        var j :| 0 <= j < |order| && order[j] == WordRule(k);
      }
      var m :| 0 <= m < |order| && order[m] == ShellMetacharacters;
    } else {
      var j :| 0 <= j < |order| && DangerMatches(order[j], c, wordRule);
      match order[j]
      case CommandSubstitution =>
        ContainsChars(c, "$(", '$');
        var i :| 0 <= i < |c| && c[i] == '$';
        assert IsShellMetachar(c[i]);
      case BacktickSubstitution =>
        var i, i' :| 0 <= i < i' < |c| && c[i] == '`' && c[i'] == '`';
        assert IsShellMetachar(c[i]);
      case _ =>
    }
  }
}
