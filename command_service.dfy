/** The command service: admission of a user command (safety screen, path
    checks, concurrency limit), cancellation by id, removal of a finished
    execution, the two tunable limits, and the status a worker gives an
    execution when its process ends.  Threads, processes and signals are
    not modelled: the file-system answers and the process outcome are
    parameters, and each call is one atomic step. */
module CommandServiceModel {
  import opened PyStr
  import opened Errors
  import opened ServiceBase
  import opened ValidationServiceModel
  import opened CommandExecutionModel
  import opened CommandManagerModel

  const DEFAULT_TIMEOUT := 300
  const DEFAULT_MAX_CONCURRENT := 5

  /** The exit code the worker reports: the process's return code, or -1
      when no process was started. */
  function ReportedExitCode(returnCode: Option<int>): (code: int)
    ensures returnCode.Some? ==> code == returnCode.value
    ensures returnCode.None? ==> code == -1
  {
    if returnCode.Some? then returnCode.value else -1
  }

  /** The worker's choice of final status once the process has ended:
      cancellation wins over a timeout, which wins over the exit code. */
  function TerminalStatus(cancelled: bool, timedOut: bool, exitCode: int): (s: CommandStatus)
    ensures IsFinishedStatus(s)
    ensures s == Cancelled <==> cancelled
    ensures s == Timeout <==> !cancelled && timedOut
    ensures s == Completed <==> !cancelled && !timedOut && exitCode == 0
    ensures s == Failed <==> !cancelled && !timedOut && exitCode != 0
  {
    if cancelled then Cancelled
    else if timedOut then Timeout
    else if exitCode == 0 then Completed
    else Failed
  }

  /** `timeout_seconds or default_timeout`: None and 0 are both falsy. */
  function EffectiveTimeout(timeoutSeconds: Option<int>, defaultTimeout: int): (t: int)
    ensures timeoutSeconds.None? ==> t == defaultTimeout
    ensures timeoutSeconds.Some? && timeoutSeconds.value != 0 ==> t == timeoutSeconds.value
    ensures timeoutSeconds == Some(0) ==> t == defaultTimeout
  {
    if timeoutSeconds.None? || timeoutSeconds.value == 0 then defaultTimeout else timeoutSeconds.value
  }

  /** The admission checks of `execute_command` in order; the first that
      fails gives the error, and None admits the command. */
  function Admission(safety: ValidationResult, worktreePath: string, pathExists: bool, isDir: bool,
                     activeCount: nat, maxConcurrent: int): (r: Option<Error>)
    ensures !safety.isValid ==> r == Some(ValueError("Command validation failed: " + safety.message))
    ensures safety.isValid && !pathExists ==>
      r == Some(ValueError("Worktree path does not exist: " + worktreePath))
    ensures safety.isValid && pathExists && !isDir ==>
      r == Some(ValueError("Worktree path is not a directory: " + worktreePath))
    ensures safety.isValid && pathExists && isDir && activeCount >= maxConcurrent ==>
      r.Some? && r.value.RuntimeError?
    ensures r.None? <==> safety.isValid && pathExists && isDir && activeCount < maxConcurrent
  {
    if !safety.isValid then Some(ValueError("Command validation failed: " + safety.message))
    else if !pathExists then Some(ValueError("Worktree path does not exist: " + worktreePath))
    else if !isDir then Some(ValueError("Worktree path is not a directory: " + worktreePath))
    else if activeCount >= maxConcurrent then
      Some(RuntimeError("Maximum concurrent executions (" + IntToString(maxConcurrent) + ") exceeded"))
    else None
  }

  /** Adding one key to a map grows it by at most one. */
  lemma MapUpdateSize<K, V>(m: map<K, V>, k: K, v: V)
    ensures |m[k := v]| <= |m| + 1
    ensures k !in m ==> |m[k := v]| == |m| + 1
    ensures k in m ==> |m[k := v]| == |m|
  {
    if k in m {
      assert m[k := v].Keys == m.Keys;
    } else {
      assert m[k := v].Keys == m.Keys + {k};
    }
  }

  /** The worker thread that runs one execution. */
  class Worker {
    const execution: CommandExecution
    var cancelled: bool

    constructor (execution: CommandExecution)
      ensures this.execution == execution && !cancelled
    {
      this.execution := execution;
      cancelled := false;
    }

    /** Sets the cancellation flag; stopping the process is not modelled. */
    method Cancel()
      modifies this`cancelled
      ensures cancelled
    {
      cancelled := true;
    }

    /** The end of the worker's run.  `raised` says the run failed with an
        exception, `returnCode` is the process's return code (None when no
        process was started) and `now` the current time.  Returns the exit
        code it reports. */
    method Finish(raised: bool, returnCode: Option<int>, now: int) returns (reported: int)
      modifies execution`endTime, execution`exitCode, execution`processId, execution`status
      ensures raised ==> execution.status == Failed && execution.exitCode == Some(-1) && reported == -1
      ensures !raised ==>
        (reported == ReportedExitCode(returnCode)
         && execution.status == TerminalStatus(cancelled, old(execution.IsTimedOut(now)), reported))
      ensures execution.IsFinished() && execution.endTime == Some(now) && execution.processId == None
    {
      if raised {
        execution.MarkCompleted(-1, now);
        return -1;
      }
      reported := ReportedExitCode(returnCode);
      if cancelled {
        execution.MarkCancelled(now);
      } else if execution.IsTimedOut(now) {
        execution.MarkTimeout(now);
      } else {
        execution.MarkCompleted(reported, now);
      }
    }
  }

  class CommandService {
    const manager: CommandManager
    /** The iteration order of the dangerous-pattern set and the meaning of
        its word rules, both fixed for the life of the validation service. */
    const order: seq<DangerPattern>
    const wordRule: (nat, string) -> bool
    var active: map<string, Worker>
    var defaultTimeout: int
    var maxConcurrentExecutions: int

    /** Workers are stored under the id of their execution. */
    predicate Valid()
      reads this, manager, manager.state, active.Values
    {
      manager.Valid() && IsIterationOrder(order)
      && (forall id :: id in active ==> active[id].execution.id == id)
    }

    constructor (manager: CommandManager, order: seq<DangerPattern>, wordRule: (nat, string) -> bool)
      requires manager.Valid() && IsIterationOrder(order)
      ensures Valid()
      ensures this.manager == manager && this.order == order && this.wordRule == wordRule
      ensures active == map[] && defaultTimeout == DEFAULT_TIMEOUT
      ensures maxConcurrentExecutions == DEFAULT_MAX_CONCURRENT
    {
      this.manager := manager;
      this.order := order;
      this.wordRule := wordRule;
      active := map[];
      defaultTimeout := DEFAULT_TIMEOUT;
      maxConcurrentExecutions := DEFAULT_MAX_CONCURRENT;
    }

    /** `execute_command`.  `pathExists` and `isDir` are the file-system
        answers for `worktreePath`, `generatedId` the fresh uuid string and
        `now` the current time.  On admission the execution is stored under
        its id and registered with the manager; a registration error is
        passed on with the worker already stored, as in the original. */
    method ExecuteCommand(command: string, worktreePath: string, timeoutSeconds: Option<int>,
                          pathExists: bool, isDir: bool, generatedId: string, now: int)
      returns (r: Result<CommandExecution>)
      requires Valid() && generatedId != ""
      modifies this`active, manager.state
      ensures Valid()
      ensures var adm := old(Admission(ValidateCommandSafety(command, order, wordRule), worktreePath,
                                       pathExists, isDir, |active|, maxConcurrentExecutions));
        && (adm.Some? ==> r.Err? && r.error == adm.value && active == old(active) && unchanged(manager.state))
        && (adm.None? ==> active.Keys == old(active).Keys + {generatedId})
        && (adm.None? ==> (r.Ok? <==> manager.initialized))
        && (adm.None? && r.Err? ==> r.error.ServiceError? && unchanged(manager.state))
      ensures r.Ok? ==>
        && fresh(r.value) && r.value.id == generatedId && active[generatedId].execution == r.value
        && r.value.command == command && r.value.worktreePath == worktreePath
        && r.value.status == Pending && r.value.startTime == now
        && r.value.timeoutSeconds == Some(EffectiveTimeout(timeoutSeconds, defaultTimeout))
        && |active| <= maxConcurrentExecutions
      ensures r.Ok? ==>
        && manager.state.active == old(manager.state.active)
        && manager.state.globalHistory == HistoryAdd(old(manager.state.globalHistory), r.value, HISTORY_SIZE)
        && (var before := if worktreePath in old(manager.state.histories)
                          then old(manager.state.histories)[worktreePath] else [];
            manager.state.histories == old(manager.state.histories)[worktreePath := HistoryAdd(before, r.value, HISTORY_SIZE)])
        && manager.state.totalExecutions == old(manager.state.totalExecutions) + 1
        && manager.state.successfulExecutions == old(manager.state.successfulExecutions)
        && manager.state.failedExecutions == old(manager.state.failedExecutions)
    {
      var adm := CheckAdmission(command, worktreePath, pathExists, isDir);
      if adm.Some? {
        return Err(adm.value);
      }
      r := Admit(command, worktreePath, timeoutSeconds, generatedId, now);
    }

    /** The admitted part of `execute_command`: the new execution is stored
        and then registered with the manager. */
    method Admit(command: string, worktreePath: string, timeoutSeconds: Option<int>,
                 generatedId: string, now: int) returns (r: Result<CommandExecution>)
      requires Valid() && generatedId != ""
      modifies this`active, manager.state
      ensures Valid()
      ensures active.Keys == old(active).Keys + {generatedId} && |active| <= |old(active)| + 1
      ensures r.Ok? <==> manager.initialized
      ensures r.Err? ==> r.error.ServiceError? && unchanged(manager.state)
      ensures r.Ok? ==>
        && fresh(r.value) && r.value.id == generatedId && active[generatedId].execution == r.value
        && r.value.command == command && r.value.worktreePath == worktreePath
        && r.value.status == Pending && r.value.startTime == now
        && r.value.timeoutSeconds == Some(EffectiveTimeout(timeoutSeconds, defaultTimeout))
      ensures r.Ok? ==>
        && manager.state.active == old(manager.state.active)
        && manager.state.globalHistory == HistoryAdd(old(manager.state.globalHistory), r.value, HISTORY_SIZE)
        && (var before := if worktreePath in old(manager.state.histories)
                          then old(manager.state.histories)[worktreePath] else [];
            manager.state.histories == old(manager.state.histories)[worktreePath := HistoryAdd(before, r.value, HISTORY_SIZE)])
        && manager.state.totalExecutions == old(manager.state.totalExecutions) + 1
        && manager.state.successfulExecutions == old(manager.state.successfulExecutions)
        && manager.state.failedExecutions == old(manager.state.failedExecutions)
    {
      var e := Launch(command, worktreePath, timeoutSeconds, generatedId, now);
      var reg := manager.RegisterExecution(e);
      if reg.Err? {
        return Err(reg.error);
      }
      r := Ok(e);
    }

    /** The admission checks of `execute_command` against the current
        state of the service. */
    method CheckAdmission(command: string, worktreePath: string, pathExists: bool, isDir: bool)
      returns (adm: Option<Error>)
      requires Valid()
      ensures adm == Admission(ValidateCommandSafety(command, order, wordRule), worktreePath,
                               pathExists, isDir, |active|, maxConcurrentExecutions)
      ensures adm.None? ==> |active| < maxConcurrentExecutions
    {
      var safety := ValidateCommandSafety(command, order, wordRule);
      adm := Admission(safety, worktreePath, pathExists, isDir, |active|, maxConcurrentExecutions);
    }

    /** The admitted part of `execute_command`: a new pending execution and
        its worker, stored under the execution's id. */
    method Launch(command: string, worktreePath: string, timeoutSeconds: Option<int>,
                  generatedId: string, now: int) returns (e: CommandExecution)
      requires Valid() && generatedId != ""
      modifies this`active
      ensures Valid()
      ensures fresh(e) && e.id == generatedId && e.command == command && e.worktreePath == worktreePath
      ensures e.status == Pending && e.startTime == now
      ensures e.timeoutSeconds == Some(EffectiveTimeout(timeoutSeconds, defaultTimeout))
      ensures generatedId in active && active[generatedId].execution == e
      ensures active.Keys == old(active).Keys + {generatedId}
      ensures |active| <= |old(active)| + 1
    {
      e := new CommandExecution(generatedId, command, worktreePath, now,
                                Some(EffectiveTimeout(timeoutSeconds, defaultTimeout)), generatedId);
      var w := new Worker(e);
      MapUpdateSize(active, generatedId, w);
      active := active[generatedId := w];
    }

    /** `cancel_command`: True exactly when the id is active, in which case
        its worker's cancellation flag is set. */
    method CancelCommand(id: string) returns (r: bool)
      modifies active.Values
      ensures r <==> id in active
      ensures r ==> active[id].cancelled
      ensures !r ==> forall other :: other in active ==> active[other].cancelled == old(active[other].cancelled)
      ensures r ==> forall other :: other in active && active[other] != active[id] ==>
        active[other].cancelled == old(active[other].cancelled)
    {
      if id !in active {
        return false;
      }
      active[id].Cancel();
      return true;
    }

    /** `_on_execution_finished`: the worker leaves the active map and its
        execution's final state is reported to the manager; an unknown id
        changes nothing. */
    method OnExecutionFinished(id: string) returns (r: Result<()>)
      requires Valid()
      modifies this`active, manager.state
      ensures Valid()
      ensures active == old(active) - {id}
      ensures id !in old(active) ==> r.Ok? && unchanged(manager.state)
      ensures id in old(active) ==> (r.Err? <==> !manager.initialized)
      ensures r.Err? ==> r.error.ServiceError? && unchanged(manager.state)
      ensures id in old(active) && r.Ok? ==>
        manager.state.histories == old(manager.state.histories)
        && manager.state.globalHistory == old(manager.state.globalHistory)
        && manager.state.totalExecutions == old(manager.state.totalExecutions)
      ensures id in old(active) && r.Ok? ==> var e := old(active[id].execution);
        (e.IsFinished() ==>
           manager.state.active == old(manager.state.active) - {e.id}
           && manager.state.successfulExecutions == old(manager.state.successfulExecutions) + (if e.IsSuccessful() then 1 else 0)
           && manager.state.failedExecutions == old(manager.state.failedExecutions) + (if e.IsSuccessful() then 0 else 1))
        && (!e.IsFinished() ==>
           manager.state.active == (if e.id in old(manager.state.active) then old(manager.state.active)[e.id := e]
                                    else old(manager.state.active))
           && manager.state.successfulExecutions == old(manager.state.successfulExecutions)
           && manager.state.failedExecutions == old(manager.state.failedExecutions))
    {
      if id !in active {
        return Ok(());
      }
      var w := active[id];
      active := active - {id};
      r := manager.UpdateExecutionStatus(w.execution);
    }

    /** `set_default_timeout`: values of at most 0 are refused. */
    method SetDefaultTimeout(t: int) returns (r: Result<()>)
      modifies this`defaultTimeout
      ensures r.Err? <==> t <= 0
      ensures r.Err? ==> r.error.ValueError? && defaultTimeout == old(defaultTimeout)
      ensures r.Ok? ==> defaultTimeout == t
    {
      if t <= 0 {
        return Err(ValueError("Timeout must be positive"));
      }
      defaultTimeout := t;
      return Ok(());
    }

    /** `set_max_concurrent_executions`: values of at most 0 are refused. */
    method SetMaxConcurrentExecutions(n: int) returns (r: Result<()>)
      modifies this`maxConcurrentExecutions
      ensures r.Err? <==> n <= 0
      ensures r.Err? ==> r.error.ValueError? && maxConcurrentExecutions == old(maxConcurrentExecutions)
      ensures r.Ok? ==> maxConcurrentExecutions == n
    {
      if n <= 0 {
        return Err(ValueError("Max concurrent executions must be positive"));
      }
      maxConcurrentExecutions := n;
      return Ok(());
    }

    /** `cleanup`: every active worker is cancelled and the map is emptied. */
    method Cleanup()
      modifies this`active, active.Values
      ensures active == map[]
      ensures forall w :: w in old(active).Values ==> w.cancelled
    {
      var pending := active.Keys;
      while pending != {}
        invariant active == old(active) && pending <= active.Keys
        invariant forall id :: id in active && id !in pending ==> active[id].cancelled
        decreases pending
      {
        var id :| id in pending;
        active[id].Cancel();
        pending := pending - {id};
      }
      active := map[];
    }
  }
}
