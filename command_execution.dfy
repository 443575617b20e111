/** One run of a user command inside a worktree (`CommandExecution`) and the
    most-recent-first, size-bounded list of such runs (`CommandHistory`).
    Timestamps are whole seconds; the current time is passed in as `now`. */
module CommandExecutionModel {
  import opened PyStr
  import opened PyList

  datatype CommandStatus = Pending | Running | Completed | Failed | Cancelled | Timeout

  /** `CommandStatus.value`. */
  function StatusValue(s: CommandStatus): string
  {
    match s
    case Pending => "pending"
    case Running => "running"
    case Completed => "completed"
    case Failed => "failed"
    case Cancelled => "cancelled"
    case Timeout => "timeout"
  }

  /** The label `get_status_display` maps each status to. */
  function StatusLabel(s: CommandStatus): string
  {
    match s
    case Pending => "Pending"
    case Running => "Running"
    case Completed => "Completed"
    case Failed => "Failed"
    case Cancelled => "Cancelled"
    case Timeout => "Timeout"
  }

  predicate IsFinishedStatus(s: CommandStatus)
  {
    s == Completed || s == Failed || s == Cancelled || s == Timeout
  }

  /** The display text of a status together with the exit code, when one is
      recorded for a finished command. */
  function StatusDisplay(status: CommandStatus, exitCode: Option<int>): (r: string)
    ensures StartsWith(r, StatusLabel(status))
    ensures r == StatusLabel(status) <==> !(IsFinishedStatus(status) && exitCode.Some?)
  {
    if IsFinishedStatus(status) && exitCode.Some? then
      StatusLabel(status) + " (exit code: " + IntToString(exitCode.value) + ")"
    else StatusLabel(status)
  }

  /** The command cut to `maxLength` characters for display, ending in "..."
      when it had to be cut. */
  function CommandDisplay(command: string, maxLength: int): (r: string)
    ensures |command| <= maxLength ==> r == command
    ensures |command| > maxLength && maxLength >= 3 ==>
      |r| == maxLength && EndsWith(r, "...") && StartsWith(command, r[..maxLength - 3])
  {
    if |command| <= maxLength then command
    else SliceTo(command, maxLength - 3) + "..."
  }

  /** Both output streams combined for display: each non-blank stream under
      its own header, separated by a blank line, or "(no output)". */
  function FormattedOutput(stdout: string, stderr: string): string
  {
    var parts := OutputParts(stdout, stderr);
    if parts == [] then "(no output)" else Join("\n", parts)
  }

  /** The lines joined by `get_formatted_output`. */
  function OutputParts(stdout: string, stderr: string): (parts: seq<string>)
    ensures parts == [] <==> Strip(stdout) == [] && Strip(stderr) == []
    ensures Strip(stdout) != [] ==> parts[0] == "=== STDOUT ==="
    ensures Strip(stdout) == [] && Strip(stderr) != [] ==> parts[0] == "=== STDERR ==="
  {
    var outPart := if Strip(stdout) != [] then ["=== STDOUT ===", RStrip(stdout)] else [];
    var errPart :=
      if Strip(stderr) != [] then
        (if outPart != [] then [""] else []) + ["=== STDERR ===", RStrip(stderr)]
      else [];
    outPart + errPart
  }

  /** The combined output is "(no output)" exactly when both streams are
      blank, and otherwise starts with the header of the first non-blank
      stream. */
  lemma FormattedOutputShape(stdout: string, stderr: string)
    ensures var r := FormattedOutput(stdout, stderr);
      && (r == "(no output)" <==> Strip(stdout) == [] && Strip(stderr) == [])
      && (Strip(stdout) != [] ==> StartsWith(r, "=== STDOUT ==="))
      && (Strip(stdout) == [] && Strip(stderr) != [] ==> StartsWith(r, "=== STDERR ==="))
  {
    var parts := OutputParts(stdout, stderr);
    if parts != [] {
      var r := Join("\n", parts);
      JoinPrefix("\n", parts);
      assert parts[0][0] == '=';
      assert r[0] == '=';
      assert "(no output)"[0] == '(';
    }
  }

  class CommandExecution {
    const id: string
    const command: string
    const worktreePath: string
    var startTime: int
    var endTime: Option<int>
    var exitCode: Option<int>
    var stdout: string
    var stderr: string
    var status: CommandStatus
    var timeoutSeconds: Option<int>
    var processId: Option<int>

    /** A new execution with the dataclass defaults; an empty id is replaced
        by `generatedId`, which stands for a fresh `uuid4` string. */
    constructor (id: string, command: string, worktreePath: string, startTime: int,
                 timeoutSeconds: Option<int>, generatedId: string)
      requires generatedId != ""
      ensures this.id == (if id == "" then generatedId else id) && this.id != ""
      ensures this.command == command && this.worktreePath == worktreePath
      ensures this.startTime == startTime && this.timeoutSeconds == timeoutSeconds
      ensures status == Pending && endTime == None && exitCode == None && processId == None
      ensures stdout == "" && stderr == ""
      ensures !IsRunning() && !IsFinished() && !IsSuccessful()
    {
      this.id := if id == "" then generatedId else id;
      this.command := command;
      this.worktreePath := worktreePath;
      this.startTime := startTime;
      this.timeoutSeconds := timeoutSeconds;
      endTime := None;
      exitCode := None;
      stdout := "";
      stderr := "";
      status := Pending;
      processId := None;
    }

    predicate IsRunning()
      reads this
    {
      status == Running
    }

    predicate IsFinished()
      reads this
    {
      IsFinishedStatus(status)
    }

    predicate IsSuccessful()
      reads this
    {
      status == Completed && exitCode == Some(0)
    }

    /** Seconds from the start to the end, or to `now` while running; None
        for a command that neither ended nor runs. */
    function Duration(now: int): (d: Option<int>)
      reads this
      ensures d.None? <==> endTime.None? && status != Running
    {
      if endTime.Some? then Some(endTime.value - startTime)
      else if status == Running then Some(now - startTime)
      else None
    }

    /** A timeout of None or 0 never fires; a zero duration never exceeds it. */
    function IsTimedOut(now: int): (r: bool)
      reads this
      ensures r ==> status == Running && timeoutSeconds.Some? && timeoutSeconds.value != 0
      ensures timeoutSeconds.Some? && timeoutSeconds.value > 0 ==>
        (r <==> status == Running && Duration(now).value > timeoutSeconds.value)
    {
      if timeoutSeconds.None? || timeoutSeconds.value == 0 || status != Running then false
      else
        var d := Duration(now).value;
        if d == 0 then false else d > timeoutSeconds.value
    }

    function GetCommandDisplay(maxLength: int): string
    {
      CommandDisplay(command, maxLength)
    }

    function GetStatusDisplay(): string
      reads this
    {
      StatusDisplay(status, exitCode)
    }

    function GetFormattedOutput(): string
      reads this
    {
      FormattedOutput(stdout, stderr)
    }

    /** The worktree's directory name. */
    function GetWorktreeName(): (r: string)
      ensures EndsWith(worktreePath, r) && '/' !in r
      ensures |r| == |worktreePath| || worktreePath[|worktreePath| - |r| - 1] == '/'
      ensures worktreePath != [] && worktreePath[|worktreePath| - 1] != '/' ==> r != []
    {
      PathName(worktreePath)
    }

    method AppendStdout(data: string)
      modifies this`stdout
      ensures stdout == old(stdout) + data
    {
      stdout := stdout + data;
    }

    method AppendStderr(data: string)
      modifies this`stderr
      ensures stderr == old(stderr) + data
    {
      stderr := stderr + data;
    }

    /** Whatever the current status, the execution becomes RUNNING. */
    method MarkStarted(pid: Option<int>)
      modifies this`status, this`processId
      ensures status == Running && processId == pid
      ensures IsRunning() && !IsFinished() && !IsSuccessful()
    {
      status := Running;
      processId := pid;
    }

    /** Exit code 0 completes the execution, any other code fails it; the
        previous status is not consulted. */
    method MarkCompleted(code: int, now: int)
      modifies this`endTime, this`exitCode, this`processId, this`status
      ensures status == (if code == 0 then Completed else Failed)
      ensures exitCode == Some(code) && endTime == Some(now) && processId == None
      ensures IsFinished() && !IsRunning()
      ensures IsSuccessful() <==> code == 0
    {
      endTime := Some(now);
      exitCode := Some(code);
      processId := None;
      status := if code == 0 then Completed else Failed;
    }

    method MarkCancelled(now: int)
      modifies this`endTime, this`processId, this`status
      ensures status == Cancelled && endTime == Some(now) && processId == None
      ensures IsFinished() && !IsRunning() && !IsSuccessful()
    {
      endTime := Some(now);
      status := Cancelled;
      processId := None;
    }

    method MarkTimeout(now: int)
      modifies this`endTime, this`processId, this`status
      ensures status == Timeout && endTime == Some(now) && processId == None
      ensures IsFinished() && !IsRunning() && !IsSuccessful()
    {
      endTime := Some(now);
      status := Timeout;
      processId := None;
    }
  }

  /** Which executions a list filter keeps. */
  datatype Selector =
    | WithStatus(status: CommandStatus)
    | SuccessfulOnes
    | WithCommand(command: string)
    /** Case-insensitive substring match of the command, as the manager's
        `get_executions_by_command` does it. */
    | CommandMatches(pattern: string)
    /** What the manager's clean-up keeps: started after the cut-off, or running. */
    | StartedAfterOrRunning(cutoff: int)

  predicate Selects(sel: Selector, e: CommandExecution)
    reads e
  {
    match sel
    case WithStatus(s) => e.status == s
    case SuccessfulOnes => e.status == Completed && e.exitCode == Some(0)
    case WithCommand(c) => e.command == c
    case CommandMatches(p) => Contains(Lower(e.command), Lower(p))
    case StartedAfterOrRunning(cutoff) => e.startTime > cutoff || e.status == Running
  }

  /** The list comprehension `[e for e in es if ...]`. */
  function Select(es: seq<CommandExecution>, sel: Selector): (r: seq<CommandExecution>)
    reads es
    ensures IsSubsequence(r, es) && |r| <= |es|
    ensures forall i :: 0 <= i < |r| ==> r[i] in es && Selects(sel, r[i])
    ensures forall i :: 0 <= i < |es| && Selects(sel, es[i]) ==> es[i] in r
    decreases |es|
  {
    if |es| == 0 then []
    else if Selects(sel, es[0]) then [es[0]] + Select(es[1..], sel)
    else Select(es[1..], sel)
  }

  /** The filter keeps each selected execution as many times as it occurs,
      and drops every other one. */
  lemma {:induction false} SelectCounts(es: seq<CommandExecution>, sel: Selector, x: CommandExecution)
    ensures multiset(Select(es, sel))[x] == if Selects(sel, x) then multiset(es)[x] else 0
    decreases |es|
  {
    if |es| > 0 {
      SelectCounts(es[1..], sel, x);
      assert es == [es[0]] + es[1..];
      var rest := Select(es[1..], sel);
      if Selects(sel, es[0]) {
        assert multiset(Select(es, sel)) == multiset{es[0]} + multiset(rest);
      } else {
        assert Select(es, sel) == rest;
      }
    }
  }

  /** Index of the first execution with the given id, or -1. */
  function FirstIndexOfId(es: seq<CommandExecution>, id: string): (k: int)
    ensures -1 <= k < |es|
    ensures k == -1 <==> forall j :: 0 <= j < |es| ==> es[j].id != id
    ensures 0 <= k ==> es[k].id == id && forall j :: 0 <= j < k ==> es[j].id != id
    decreases |es|
  {
    if |es| == 0 then -1
    else if es[0].id == id then 0
    else
      var k := FirstIndexOfId(es[1..], id);
      if k == -1 then -1 else k + 1
  }

  /** The list after `insert(0, e)` and the cut to `maxSize` entries. */
  function HistoryAdd(es: seq<CommandExecution>, e: CommandExecution, maxSize: int): seq<CommandExecution>
  {
    var l := [e] + es;
    if |l| > maxSize then SliceTo(l, maxSize) else l
  }

  /** The new entry comes first, the earlier ones follow in order, and only
      the oldest entries beyond the bound are dropped. */
  lemma HistoryAddShape(es: seq<CommandExecution>, e: CommandExecution, maxSize: int)
    requires maxSize >= 1
    ensures var r := HistoryAdd(es, e, maxSize);
      |r| == Min(|es| + 1, maxSize) && r[0] == e && r[1..] == es[..|r| - 1]
  {
    var r := HistoryAdd(es, e, maxSize);
    assert r == ([e] + es)[..|r|];
  }

  /** A non-negative bound is never exceeded after an insert. */
  lemma HistoryAddBounded(es: seq<CommandExecution>, e: CommandExecution, maxSize: int)
    requires maxSize >= 0
    ensures |HistoryAdd(es, e, maxSize)| <= maxSize
    ensures |es| < maxSize ==> HistoryAdd(es, e, maxSize) == [e] + es
  {
  }

  /** How many executions have the given status. */
  function CountStatus(es: seq<CommandExecution>, s: CommandStatus): (n: nat)
    reads es
    ensures n <= |es|
    ensures n == 0 <==> forall j :: 0 <= j < |es| ==> es[j].status != s
    decreases |es|
  {
    if |es| == 0 then 0
    else (if es[0].status == s then 1 else 0) + CountStatus(es[1..], s)
  }

  /** Every execution has exactly one status, so the six counts add up to
      the length of the history. */
  lemma {:induction false} CountsCoverAll(es: seq<CommandExecution>)
    ensures CountStatus(es, Pending) + CountStatus(es, Running) + CountStatus(es, Completed)
      + CountStatus(es, Failed) + CountStatus(es, Cancelled) + CountStatus(es, Timeout) == |es|
    decreases |es|
  {
    if |es| > 0 {
      CountsCoverAll(es[1..]);
    }
  }

  /** Counting the executions with a status is measuring the list of them. */
  lemma {:induction false} CountIsSelected(es: seq<CommandExecution>, s: CommandStatus)
    ensures CountStatus(es, s) == |Select(es, WithStatus(s))|
    decreases |es|
  {
    if |es| > 0 {
      CountIsSelected(es[1..], s);
    }
  }

  /** The counts of `CommandHistory.get_statistics` (the average duration is
      a float and is not part of the model).  The dictionary of an empty
      history has no "timeout" key, hence `timeout` is None there. */
  datatype HistoryStatistics = HistoryStatistics(
    totalExecutions: nat, successful: nat, failed: nat, cancelled: nat, running: nat, timeout: Option<nat>)

  class CommandHistory {
    const worktreePath: Option<string>
    const maxHistorySize: int
    var executions: seq<CommandExecution>

    constructor (worktreePath: Option<string>, maxHistorySize: int)
      ensures this.worktreePath == worktreePath && this.maxHistorySize == maxHistorySize
      ensures executions == []
    {
      this.worktreePath := worktreePath;
      this.maxHistorySize := maxHistorySize;
      executions := [];
    }

    method AddExecution(e: CommandExecution)
      modifies this`executions
      ensures executions == HistoryAdd(old(executions), e, maxHistorySize)
      ensures maxHistorySize >= 1 ==> executions[0] == e
      ensures maxHistorySize >= 0 ==> |executions| <= maxHistorySize
    {
      executions := [e] + executions;
      if |executions| > maxHistorySize {
        executions := SliceTo(executions, maxHistorySize);
      }
      if maxHistorySize >= 1 {
        HistoryAddShape(old(executions), e, maxHistorySize);
      }
    }

    function GetRecentExecutions(limit: int): (r: seq<CommandExecution>)
      reads this
      ensures IsPrefix(r, executions)
      ensures 0 <= limit ==> |r| == Min(limit, |executions|)
    {
      SliceTo(executions, limit)
    }

    function GetRunningExecutions(): (r: seq<CommandExecution>)
      reads this, executions
      ensures IsSubsequence(r, executions)
      ensures forall i :: 0 <= i < |r| ==> r[i] in executions && (r[i].status == Running)
      ensures forall i :: 0 <= i < |executions| && (executions[i].status == Running) ==> executions[i] in r
    {
      Select(executions, WithStatus(Running))
    }

    function GetExecutionsByCommand(command: string): (r: seq<CommandExecution>)
      reads this, executions
      ensures IsSubsequence(r, executions)
      ensures forall i :: 0 <= i < |r| ==> r[i] in executions && (r[i].command == command)
      ensures forall i :: 0 <= i < |executions| && (executions[i].command == command) ==> executions[i] in r
    {
      Select(executions, WithCommand(command))
    }

    function GetSuccessfulExecutions(): (r: seq<CommandExecution>)
      reads this, executions
      ensures IsSubsequence(r, executions)
      ensures forall i :: 0 <= i < |r| ==> r[i] in executions && (r[i].status == Completed && r[i].exitCode == Some(0))
      ensures forall i :: 0 <= i < |executions| && (executions[i].status == Completed && executions[i].exitCode == Some(0)) ==> executions[i] in r
    {
      Select(executions, SuccessfulOnes)
    }

    function GetFailedExecutions(): (r: seq<CommandExecution>)
      reads this, executions
      ensures IsSubsequence(r, executions)
      ensures forall i :: 0 <= i < |r| ==> r[i] in executions && (r[i].status == Failed)
      ensures forall i :: 0 <= i < |executions| && (executions[i].status == Failed) ==> executions[i] in r
    {
      Select(executions, WithStatus(Failed))
    }

    /** The first execution with the id, or None. */
    function GetExecutionById(id: string): (r: Option<CommandExecution>)
      reads this
      ensures r.None? <==> forall j :: 0 <= j < |executions| ==> executions[j].id != id
      ensures r.Some? ==> r.value.id == id
      ensures r.Some? ==>
        exists k :: 0 <= k < |executions| && executions[k] == r.value && forall j :: 0 <= j < k ==> executions[j].id != id
    {
      var k := FirstIndexOfId(executions, id);
      if k == -1 then None else Some(executions[k])
    }

    function GetStatistics(): (st: HistoryStatistics)
      reads this, executions
      ensures st.totalExecutions == |executions|
      ensures st.successful == |Select(executions, WithStatus(Completed))|
      ensures st.failed == |Select(executions, WithStatus(Failed))|
      ensures st.cancelled == |Select(executions, WithStatus(Cancelled))|
      ensures st.running == |Select(executions, WithStatus(Running))|
      ensures st.timeout.None? <==> executions == []
      ensures st.timeout.Some? ==> st.timeout.value == |Select(executions, WithStatus(Timeout))|
      ensures st.timeout.Some? ==>
        st.successful + st.failed + st.cancelled + st.running + st.timeout.value
        == |executions| - |Select(executions, WithStatus(Pending))|
    {
      if executions == [] then HistoryStatistics(0, 0, 0, 0, 0, None)
      else
        CountsCoverAll(executions);
        CountIsSelected(executions, Completed);
        CountIsSelected(executions, Failed);
        CountIsSelected(executions, Cancelled);
        CountIsSelected(executions, Running);
        CountIsSelected(executions, Timeout);
        CountIsSelected(executions, Pending);
        HistoryStatistics(|executions|, CountStatus(executions, Completed),
          CountStatus(executions, Failed), CountStatus(executions, Cancelled),
          CountStatus(executions, Running), Some(CountStatus(executions, Timeout)))
    }

    method ClearHistory()
      modifies this`executions
      ensures executions == []
    {
      executions := [];
    }

    /** Deletes the first execution with the id and reports whether there
        was one. */
    method RemoveExecution(id: string) returns (removed: bool)
      modifies this`executions
      ensures var k := FirstIndexOfId(old(executions), id);
        removed == (k >= 0)
        && executions == (if k >= 0 then old(executions)[..k] + old(executions)[k + 1..] else old(executions))
    {
      var i := 0;
      while i < |executions|
        invariant 0 <= i <= |executions|
        invariant executions == old(executions)
        invariant forall j :: 0 <= j < i ==> executions[j].id != id
      {
        if executions[i].id == id {
          executions := executions[..i] + executions[i + 1..];
          return true;
        }
        i := i + 1;
      }
      return false;
    }
  }
}
