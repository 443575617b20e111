/** The command input dialog's logic: its de-duplicated command history,
    moving a command to the front of it, the check that asks for
    confirmation before a risky command, the timeout option, and the
    request the dialog emits. The widgets themselves are not modelled. */
module CommandDialogModel {
  import opened PyStr
  import opened PyList

  /** The most commands the history keeps. */
  const MAX_HISTORY := 50

  /** `add_to_history` on a list: an empty command changes nothing;
      otherwise its first copy is removed, it is put in front, and the list
      is cut to 50. */
  function WithCommand(history: seq<string>, command: string): seq<string>
  {
    if command == [] then history
    else SliceTo([command] + RemoveFirst(history, command), MAX_HISTORY)
  }

  /** The list with its `k`-th element deleted keeps the others' order and
      has no repeats when the list had none. */
  lemma DropOneNoDuplicates(xs: seq<string>, k: int)
    requires 0 <= k < |xs| && NoDuplicates(xs)
    ensures NoDuplicates(xs[..k] + xs[k + 1..]) && xs[k] !in xs[..k] + xs[k + 1..]
  {
    var r := xs[..k] + xs[k + 1..];
    assert forall j :: 0 <= j < |r| ==> r[j] == (if j < k then xs[j] else xs[j + 1]);
  }

  /** A non-empty command ends up at the front, at most 50 commands are
      kept, the others keep their relative order, and a history without
      repeats stays so, holding the command exactly once. */
  lemma WithCommandShape(history: seq<string>, command: string)
    requires command != []
    ensures var r := WithCommand(history, command);
      |r| > 0 && r[0] == command && |r| <= MAX_HISTORY
      && |r| == Min(MAX_HISTORY, |history| + (if command in history then 0 else 1))
      && IsSubsequence(r[1..], history)
      && (NoDuplicates(history) ==> NoDuplicates(r) && command !in r[1..])
  {
    var rest := RemoveFirst(history, command);
    var r := WithCommand(history, command);
    var k := IndexOf(history, command);
    if k == -1 {
      SubsequenceRefl(history);
    } else {
      SubsequenceDropOne(history, k);
    }
    assert IsSubsequence(rest, history);
    assert r[1..] == rest[..|r| - 1];
    SubsequencePrefix(rest, history, |r| - 1);
    if NoDuplicates(history) {
      if k != -1 {
        DropOneNoDuplicates(history, k);
      }
      assert command !in rest && NoDuplicates(rest);
      var full := [command] + rest;
      assert NoDuplicates(full) by {
        forall i, j | 0 <= i < j < |full|
          ensures full[i] != full[j]
        {
          assert full[j] == rest[j - 1];
          if i > 0 {
            assert full[i] == rest[i - 1];
          }
        }
      }
      assert r == full[..|r|];
    }
  }

  /** An empty command leaves the history alone. */
  lemma WithEmptyCommand(history: seq<string>)
    ensures WithCommand(history, "") == history
  {
  }

  /** The substrings that make `_is_potentially_dangerous_command` ask for
      confirmation. */
  const DANGEROUS_PATTERNS: seq<string> := [
    "rm ", "del ", "rmdir", "format", "fdisk", "git reset --hard", "git clean -f",
    "git push --force", "sudo ", "su ", "chmod 777", "chown ", "npm uninstall",
    "pip uninstall", "yarn remove", "make clean", "make distclean"]

  /** `_is_potentially_dangerous_command`: the lower-cased command contains
      one of the patterns. */
  predicate IsPotentiallyDangerous(command: string)
  {
    ContainsAny(Lower(command), DANGEROUS_PATTERNS)
  }

  /** `any(p in s for p in patterns)`. */
  predicate ContainsAny(s: string, patterns: seq<string>)
  {
    exists p :: p in patterns && Contains(s, p)
  }

  /** Text around a string keeps every pattern it contains. */
  lemma ContainsAnyContext(s: string, patterns: seq<string>, before: string, after: string)
    requires ContainsAny(s, patterns)
    ensures ContainsAny(before + (s + after), patterns)
  {
    var p :| p in patterns && Contains(s, p);
    ContainsAppend(s, after, p);
    ContainsPrepend(before, s + after, p);
  }

  /** The check ignores case. */
  lemma DangerIgnoresCase(command: string)
    ensures IsPotentiallyDangerous(Lower(command)) == IsPotentiallyDangerous(command)
  {
    LowerIdempotent(command);
  }

  /** Text around a risky command never makes it safe. */
  lemma DangerSurvivesContext(command: string, before: string, after: string)
    requires IsPotentiallyDangerous(command)
    ensures IsPotentiallyDangerous(before + command + after)
  {
    ContainsAnyContext(Lower(command), DANGEROUS_PATTERNS, Lower(before), Lower(after));
    LowerConcat(before + command, after);
    LowerConcat(before, command);
    assert Lower(before + command + after) == Lower(before) + (Lower(command) + Lower(after));
  }

  /** What the dialog asks to run: the command, the worktree path and the
      timeout in seconds (0 for none). */
  datatype ExecutionRequest = ExecutionRequest(command: string, worktreePath: string, timeout: int)

  class CommandInputDialog {
    const worktreePath: string
    var commandHistory: seq<string>
    /** The timeout spin box, which accepts 10 to 3600 seconds. */
    var timeoutValue: int
    /** The "No timeout" check box. */
    var noTimeout: bool

    predicate Valid()
      reads this
    {
      NoDuplicates(commandHistory) && 10 <= timeoutValue <= 3600
    }

    /** The constructor: the history loses repeated commands, keeping each
        first occurrence in order, and the timeout starts at 300 seconds. */
    constructor (worktreePath: string, history: seq<string>)
      ensures Valid()
      ensures this.worktreePath == worktreePath
      ensures commandHistory == Dedup(history) && IsSubsequence(commandHistory, history)
      ensures forall i :: 0 <= i < |history| ==> history[i] in commandHistory
      ensures timeoutValue == 300 && !noTimeout
    {
      var seen: set<string> := {};
      var unique: seq<string> := [];
      for i := 0 to |history|
        invariant unique == Dedup(history[..i])
        invariant forall c :: c in seen <==> c in unique
      {
        assert history[..i + 1][..i] == history[..i];
        if history[i] !in seen {
          unique := unique + [history[i]];
          seen := seen + {history[i]};
        }
      }
      assert history[..|history|] == history;
      DedupSubsequence(history);
      this.worktreePath := worktreePath;
      commandHistory := unique;
      timeoutValue := 300;
      noTimeout := false;
    }

    /** `add_to_history`. */
    method AddToHistory(command: string)
      requires Valid()
      modifies this`commandHistory
      ensures Valid()
      ensures commandHistory == WithCommand(old(commandHistory), command)
    {
      if command == [] {
        return;
      }
      if command in commandHistory {
        commandHistory := RemoveFirst(commandHistory, command);
      }
      commandHistory := [command] + commandHistory;
      commandHistory := SliceTo(commandHistory, MAX_HISTORY);
      WithCommandShape(old(commandHistory), command);
    }

    /** The user setting the timeout options; the spin box keeps its
        value within its range. */
    method SetTimeoutOptions(noTimeout: bool, value: int)
      requires Valid() && 10 <= value <= 3600
      modifies this`noTimeout, this`timeoutValue
      ensures Valid() && this.noTimeout == noTimeout && timeoutValue == value
    {
      this.noTimeout := noTimeout;
      timeoutValue := value;
    }

    /** `get_timeout`: 0 means no timeout, any other value is the spin
        box's, within 10 to 3600 seconds. */
    function GetTimeout(): (r: int)
      requires Valid()
      reads this
      ensures r == 0 <==> noTimeout
      ensures r != 0 ==> r == timeoutValue && 10 <= r <= 3600
    {
      if noTimeout then 0 else timeoutValue
    }

    /** `_execute_command` for the text in the input field; `confirmed` is
        the answer to the confirmation asked for a risky command. Nothing is
        requested for an empty or blank command, nor for a risky one the
        user did not confirm. */
    method ExecuteCommand(text: string, confirmed: bool) returns (r: Option<ExecutionRequest>)
      requires Valid()
      ensures r.Some? <==> Strip(text) != [] && (confirmed || !IsPotentiallyDangerous(Strip(text)))
      ensures r.Some? ==> r.value == ExecutionRequest(Strip(text), worktreePath, GetTimeout())
    {
      var command := Strip(text);
      if command == [] {
        return None;
      }
      var timeout := if noTimeout then 0 else timeoutValue;
      if IsPotentiallyDangerous(command) && !confirmed {
        return None;
      }
      return Some(ExecutionRequest(command, worktreePath, timeout));
    }
  }
}
