# wt-manager core model

A Dafny model of the sequential core of wt-manager, a PyQt desktop front end
for `git worktree`. The model covers:

- the life cycle of a command execution and its bounded, most-recent-first
  history;
- the execution registry (`CommandExecutionState`, `CommandManager`) and the
  admission rules of `CommandService`;
- the parsers and string transforms: the `git worktree list --porcelain`
  parser, branch-name and command-safety validation, path and file-name
  sanitising, branch sanitising for directory names, application command
  templates, and the command dialog's history;
- the domain records and collections: `Worktree`, `Project`, `AppConfig`
  and `UserPreferences`;
- the service-level guards: `WorktreeService`, the `ProjectService` cache
  with its rollback, and the `ConfigManager` validation report;
- the `OperationProgress` state machine and its `ProgressManager`;
- the worktree list filter.

Every call is modelled as one atomic step. Results of git, of the file
system, of the clock and of `uuid4` are parameters of the operations that
use them. Python exceptions become the `Result` and `Error` datatypes of
module `Errors` (`errors.dfy`). Python string and list built-ins are written
once, with Python's meaning, in `pystr.dfy`, `pylist.dfy` and `dict.dfy`.

Code that changes objects in place is modelled as classes with `modifies`
clauses. Pure code is modelled as functions, with the properties proved as
lemmas beside them.

Files, one module each:

| file | module | models |
|---|---|---|
| `command_execution.dfy` | `CommandExecutionModel` | `models/command_execution.py` |
| `command_manager.dfy` | `CommandManagerModel` | `services/command_manager.py` |
| `command_service.dfy` | `CommandServiceModel` | `services/command_service.py` |
| `git_service.dfy` | `GitServiceModel` | `services/git_service.py` |
| `validation_service.dfy` | `ValidationServiceModel` | `services/validation_service.py` |
| `base.dfy` | `ServiceBase` | `services/base.py` |
| `path_manager.dfy` | `PathManagerModel` | `utils/path_manager.py` |
| `errors.dfy` | `Errors` | `utils/exceptions.py` |
| `worktree.dfy` | `WorktreeModel` | `models/worktree.py` |
| `project.dfy` | `ProjectModel` | `models/project.py` |
| `config.dfy` | `ConfigModel` | `models/config.py` |
| `worktree_service.dfy` | `WorktreeServiceModel` | `services/worktree_service.py` |
| `project_service.dfy` | `ProjectServiceModel` | `services/project_service.py` |
| `config_manager.dfy` | `ConfigManagerModel` | `services/config_manager.py` |
| `progress_manager.dfy` | `ProgressManagerModel` | `ui/progress_manager.py` |
| `command_dialog.dfy` | `CommandDialogModel` | `ui/command_dialog.py` |
| `project_action_dialog.dfy` | `ProjectActionDialogModel` | `ui/project_action_dialog.py` |
| `preferences_dialog.dfy` | `PreferencesDialogModel` | `ui/preferences_dialog.py` |
| `worktree_panel.dfy` | `WorktreePanelModel` | `ui/worktree_panel.py` |
| `pystr.dfy`, `pylist.dfy`, `dict.dfy` | `PyStr`, `PyList`, `PyDict` | Python built-ins |

## Model

| member | source | states |
|---|---|---|
| CommandExecutionModel.StatusDisplay | src/wt_manager/models/command_execution.py:165-186 | The display starts with the status label and adds the exit code only for a finished status that has one. |
| CommandExecutionModel.CommandDisplay | src/wt_manager/models/command_execution.py:188-201 | A command that fits is returned unchanged. A longer one, for a limit of at least 3, comes back exactly as long as the limit, ending in "..." after a prefix of the command. |
| CommandExecutionModel.FormattedOutputShape | src/wt_manager/models/command_execution.py:141-163 | The output is "(no output)" exactly when both streams are blank. Otherwise it starts with the STDOUT header when stdout is not blank, and with the STDERR header when only stderr has text. |
| CommandExecutionModel.CommandExecution.constructor | src/wt_manager/models/command_execution.py:24-61 | A new execution is PENDING, with empty output and no end time, exit code or process id. It is neither running, finished nor successful. An empty id is replaced by the generated one. |
| CommandExecutionModel.CommandExecution.Duration | src/wt_manager/models/command_execution.py:95-108 | The duration is None exactly when there is no end time and the execution is not running. |
| CommandExecutionModel.CommandExecution.IsTimedOut | src/wt_manager/models/command_execution.py:261-275 | A timeout fires only for a running execution with a non-zero timeout. For a positive timeout it fires exactly when the duration exceeds it. |
| CommandExecutionModel.CommandExecution.GetWorktreeName | src/wt_manager/models/command_execution.py:277-286 | The name is the longest '/'-free suffix of the worktree path: it is either the whole path or preceded by a '/'. It is non-empty when the path is non-empty and does not end in '/'. |
| CommandExecutionModel.CommandExecution.AppendStdout | src/wt_manager/models/command_execution.py:203-210 | stdout becomes the old stdout followed by the data, and nothing else changes. |
| CommandExecutionModel.CommandExecution.AppendStderr | src/wt_manager/models/command_execution.py:212-219 | stderr becomes the old stderr followed by the data, and nothing else changes. |
| CommandExecutionModel.CommandExecution.MarkStarted | src/wt_manager/models/command_execution.py:221-231 | From any status, the execution becomes RUNNING with the given process id. |
| CommandExecutionModel.CommandExecution.MarkCompleted | src/wt_manager/models/command_execution.py:233-247 | Exit code 0 gives COMPLETED and any other code FAILED. The exit code and end time are stored and the process id cleared. It is successful exactly when the code is 0. |
| CommandExecutionModel.CommandExecution.MarkCancelled | src/wt_manager/models/command_execution.py:249-253 | The execution becomes CANCELLED, finished and not successful, with the end time set and the process id cleared. |
| CommandExecutionModel.CommandExecution.MarkTimeout | src/wt_manager/models/command_execution.py:255-259 | The execution becomes TIMEOUT, finished and not successful, with the end time set and the process id cleared. |
| CommandExecutionModel.Select | src/wt_manager/models/command_execution.py:424-476 | A list filter keeps, in order, exactly the executions that satisfy its predicate. |
| CommandExecutionModel.SelectCounts | src/wt_manager/models/command_execution.py:424-476 | The filter keeps each execution that satisfies its predicate as many times as it occurs in the list, and drops every other one. |
| CommandExecutionModel.FirstIndexOfId | src/wt_manager/models/command_execution.py:433-446 | The result is the index of the first execution with the id, or -1 when none has it. |
| CommandExecutionModel.HistoryAddShape | src/wt_manager/models/command_execution.py:398-410 | After an insert the new entry is first, followed by the earlier entries in their order. The length is min(old length + 1, maximum), so the oldest entries are the ones dropped. |
| CommandExecutionModel.HistoryAddBounded | src/wt_manager/models/command_execution.py:398-410 | The history never exceeds a non-negative maximum. Below the maximum nothing is dropped. |
| CommandExecutionModel.CountsCoverAll | src/wt_manager/models/command_execution.py:498-537 | The six per-status counts add up to the number of executions. |
| CommandExecutionModel.CountIsSelected | src/wt_manager/models/command_execution.py:515-520 | The tally of a status equals the length of the list of executions with that status. |
| CommandExecutionModel.CommandHistory.constructor | src/wt_manager/models/command_execution.py:384-396 | A new history is empty and keeps its path and maximum size. |
| CommandExecutionModel.CommandHistory.AddExecution | src/wt_manager/models/command_execution.py:398-410 | The new execution goes to the front, the history is cut to the maximum, and the result is the insert described by HistoryAddShape. |
| CommandExecutionModel.CommandHistory.GetRecentExecutions | src/wt_manager/models/command_execution.py:412-422 | The result is the first min(k, length) entries. |
| CommandExecutionModel.CommandHistory.GetRunningExecutions | src/wt_manager/models/command_execution.py:424-431 | The result is the subsequence of exactly the running executions. |
| CommandExecutionModel.CommandHistory.GetExecutionsByCommand | src/wt_manager/models/command_execution.py:448-458 | The result is the subsequence of exactly the executions with that command. |
| CommandExecutionModel.CommandHistory.GetSuccessfulExecutions | src/wt_manager/models/command_execution.py:460-467 | The result is the subsequence of exactly the COMPLETED executions with exit code 0. |
| CommandExecutionModel.CommandHistory.GetFailedExecutions | src/wt_manager/models/command_execution.py:469-476 | The result is the subsequence of exactly the FAILED executions. |
| CommandExecutionModel.CommandHistory.GetExecutionById | src/wt_manager/models/command_execution.py:433-446 | The result is the first execution with the id, or None when no execution has it. |
| CommandExecutionModel.CommandHistory.GetStatistics | src/wt_manager/models/command_execution.py:498-537 | The total is the history length. "successful", "failed", "cancelled" and "running" are the numbers of executions with status COMPLETED, FAILED, CANCELLED and RUNNING. "timeout" is absent exactly for an empty history, and is otherwise the number with status TIMEOUT. The five counts add up to the length less the PENDING executions. |
| CommandExecutionModel.CommandHistory.ClearHistory | src/wt_manager/models/command_execution.py:478-480 | The history becomes empty. |
| CommandExecutionModel.CommandHistory.RemoveExecution | src/wt_manager/models/command_execution.py:482-496 | Exactly the first execution with the id is deleted and True returned. Without one, False is returned and the list is unchanged. |
| CommandManagerModel.SuccessRate | src/wt_manager/services/command_manager.py:178-205 | The rate is 0 when the total does not exceed the active count. Otherwise it is 100 × successful / (total − active). |
| CommandManagerModel.CommandExecutionState.constructor | src/wt_manager/services/command_manager.py:23-37 | The state starts with no active executions, no histories and zero counters. |
| CommandManagerModel.CommandExecutionState.AddExecution | src/wt_manager/services/command_manager.py:56-81 | A running execution enters the active map. The execution is put first in the global history and in its worktree's history, which is created on first use. The total grows by exactly 1, and the other counters are unchanged. |
| CommandManagerModel.CommandExecutionState.UpdateExecution | src/wt_manager/services/command_manager.py:83-116 | A finished execution leaves the active map and increments exactly one of successful/failed. An unfinished one replaces its active entry if present, and otherwise nothing changes. The histories and the total are untouched. |
| CommandManagerModel.CommandExecutionState.GetExecution | src/wt_manager/services/command_manager.py:118-134 | The result is the active entry, else the first match in the global history, else None. |
| CommandManagerModel.CommandExecutionState.GetExecutionsForWorktree | src/wt_manager/services/command_manager.py:146-163 | An unknown worktree gives []. Otherwise the result is the first min(limit, length) entries of its history. |
| CommandManagerModel.CommandExecutionState.GetGlobalHistory | src/wt_manager/services/command_manager.py:165-176 | The result is the first min(limit, length) entries of the global history. |
| CommandManagerModel.CommandExecutionState.GetStatistics | src/wt_manager/services/command_manager.py:178-205 | The total, successful and failed counters are reported as they are. active_executions is the active map's size, worktree_count the number of worktree histories and global_history_size the global history's length. The success rate is 0 when the total does not exceed the active count, and otherwise 100 times the successes over the executions no longer active. |
| CommandManagerModel.CommandExecutionState.CleanupFinishedExecutions | src/wt_manager/services/command_manager.py:207-240 | Every history keeps, in order, exactly the entries started after the cut-off or still running. The result is the number removed from the global history. The active map and the counters are untouched. |
| CommandManagerModel.CommandExecutionState.ClearHistory | src/wt_manager/services/command_manager.py:242-260 | A path empties only that worktree's history. No path empties every history and zeroes the three counters. |
| CommandManagerModel.FilterHistories | src/wt_manager/services/command_manager.py:230-236 | The loop over the worktree histories keeps every key and filters each history with the same predicate. |
| CommandManagerModel.CommandManager.constructor | src/wt_manager/services/command_manager.py:337-346 | A new manager is not initialised and holds an empty state. |
| CommandManagerModel.CommandManager.Initialize | src/wt_manager/services/command_manager.py:348-361 | The manager is initialised afterwards. |
| CommandManagerModel.CommandManager.Shutdown | src/wt_manager/services/command_manager.py:579-590 | The manager is no longer initialised. |
| CommandManagerModel.CommandManager.RegisterExecution | src/wt_manager/services/command_manager.py:363-376 | It raises ServiceError, with the state unchanged, exactly when the manager is not initialised. Otherwise a running execution becomes active, the execution goes to the front of the global history and of its worktree's history (created on first use), each bounded by 100, and the total grows by one with the other counters unchanged. |
| CommandManagerModel.CommandManager.UpdateExecutionStatus | src/wt_manager/services/command_manager.py:378-392 | It raises ServiceError, with the state unchanged, exactly when the manager is not initialised. Otherwise the histories and the total are unchanged. A finished execution leaves the active map and adds one to the successful counter when it succeeded, else to the failed counter. An unfinished one replaces its active entry if it has one, and no counter moves. |
| CommandManagerModel.CommandManager.GetExecution | src/wt_manager/services/command_manager.py:394-407 | It raises ServiceError exactly when the manager is not initialised, and otherwise answers as the state does. |
| CommandManagerModel.CommandManager.GetActiveExecutions | src/wt_manager/services/command_manager.py:409-419 | It raises exactly when the manager is not initialised, and otherwise returns the active map's values. |
| CommandManagerModel.CommandManager.GetConcurrentExecutionCount | src/wt_manager/services/command_manager.py:466-473 | It raises exactly when the manager is not initialised, and otherwise returns the active map's size. |
| CommandManagerModel.CommandManager.GetWorktreeHistory | src/wt_manager/services/command_manager.py:421-437 | It raises exactly when the manager is not initialised, and otherwise returns the state's worktree history query. |
| CommandManagerModel.CommandManager.GetGlobalHistory | src/wt_manager/services/command_manager.py:439-452 | It raises exactly when the manager is not initialised, and otherwise returns the state's global history query. |
| CommandManagerModel.CommandManager.GetExecutionStatistics | src/wt_manager/services/command_manager.py:454-464 | It raises exactly when the manager is not initialised. Otherwise it returns the state's statistics: every counter, the active, worktree and global-history sizes, and the success rate. |
| CommandManagerModel.CommandManager.GetExecutionsByStatus | src/wt_manager/services/command_manager.py:475-489 | It raises exactly when the manager is not initialised. Otherwise the result is an ordered subsequence of the global history holding every entry with that status among the first 1000. |
| CommandManagerModel.CommandManager.GetExecutionsByCommand | src/wt_manager/services/command_manager.py:491-509 | It raises exactly when the manager is not initialised. Otherwise the result is an ordered subsequence of the global history holding every entry among the first 1000 whose command contains the pattern, ignoring case. |
| CommandManagerModel.CommandManager.CleanupOldExecutions | src/wt_manager/services/command_manager.py:511-524 | It raises, with the state unchanged, exactly when the manager is not initialised. Otherwise the global history and every worktree history keep exactly the executions started after the cut-off or still running, in order, with the same worktree keys. The active map and the counters are unchanged, and the result is the number of entries removed from the global history. |
| CommandManagerModel.CommandManager.ClearHistory | src/wt_manager/services/command_manager.py:526-537 | It raises, with the state unchanged, exactly when the manager is not initialised. A non-empty path empties that worktree's history only. No path (or the empty one) empties every history and zeroes the three counters. The active map is kept either way. |
| CommandServiceModel.ReportedExitCode | src/wt_manager/services/command_service.py:100-101 | A finished process reports its return code, and a missing one becomes -1. |
| CommandServiceModel.TerminalStatus | src/wt_manager/services/command_service.py:103-108 | The status is finished. It is CANCELLED exactly when cancelled, else TIMEOUT exactly when timed out, else COMPLETED or FAILED by the exit code. |
| CommandServiceModel.EffectiveTimeout | src/wt_manager/services/command_service.py:283-289 | The given timeout is used unless it is None or 0, in which case the default is used. |
| CommandServiceModel.Admission | src/wt_manager/services/command_service.py:264-280 | The checks run in the order command safety, path exists, path is a directory, capacity, and the first failure is the error. Admission happens exactly when all four pass. |
| CommandServiceModel.Worker.constructor | src/wt_manager/services/command_service.py:36-49 | A new worker is not cancelled. |
| CommandServiceModel.Worker.Cancel | src/wt_manager/services/command_service.py:193-196 | The worker's cancelled flag is set. |
| CommandServiceModel.Worker.Finish | src/wt_manager/services/command_service.py:51-120 | An exception gives FAILED with exit code -1. Otherwise the status is the one TerminalStatus picks from the cancelled flag, the timeout and the reported exit code. The execution always ends finished, with an end time and no process id. |
| CommandServiceModel.CommandService.constructor | src/wt_manager/services/command_service.py:213-243 | A new service holds the given command manager and the validation service's pattern order, has no active executions, a 300-second default timeout and a limit of 5 concurrent executions. |
| CommandServiceModel.CommandService.ExecuteCommand | src/wt_manager/services/command_service.py:246-311 | The first failing admission check is raised, with the active map and the manager untouched. An admitted command always gains its id in the active map, and succeeds exactly when the manager is initialised; otherwise the manager's ServiceError is passed on with the manager's state unchanged. On success the execution is new and PENDING, stored under its id, and carries the effective timeout. It is registered: the manager's active map is kept (it is not running yet), it heads the global history and its worktree's history, which is created on first use, the total grows by one and the other counters are kept. The active map never grows beyond the limit. |
| CommandServiceModel.CommandService.CheckAdmission | src/wt_manager/services/command_service.py:264-280 | The result is Admission for the current state. When it admits, there is room under the limit. |
| CommandServiceModel.CommandService.Launch | src/wt_manager/services/command_service.py:283-302 | A new PENDING execution with the effective timeout is stored in the active map under the generated id, and only that key is added. |
| CommandServiceModel.CommandService.Admit | src/wt_manager/services/command_service.py:283-305 | The active map gains only the new id. The result is Ok exactly when the manager is initialised; otherwise it is the manager's ServiceError and the manager's state is unchanged. On success the new PENDING execution is registered: the manager's active map is kept, the execution heads the global history and its worktree's history, the total grows by one and the other counters are kept. |
| CommandServiceModel.CommandService.CancelCommand | src/wt_manager/services/command_service.py:313-330 | It returns True exactly when the id is active, and then only that worker is cancelled. An unknown id cancels nothing. |
| CommandServiceModel.CommandService.OnExecutionFinished | src/wt_manager/services/command_service.py:455-471 | The id leaves the service's active map. An unknown id is a no-op. Otherwise the manager's status update fails exactly when the manager is not initialized, and a failure changes nothing in the manager. On success the histories and the total stay as they were. A finished execution leaves the manager's active map and adds one to the successful or the failed count. An unfinished one replaces its entry if present, with the counts unchanged. |
| CommandServiceModel.CommandService.SetDefaultTimeout | src/wt_manager/services/command_service.py:409-420 | A value of 0 or less raises ValueError and keeps the old timeout. Any other value is stored. |
| CommandServiceModel.CommandService.SetMaxConcurrentExecutions | src/wt_manager/services/command_service.py:422-433 | A value of 0 or less raises ValueError and keeps the old limit. Any other value is stored. |
| CommandServiceModel.CommandService.Cleanup | src/wt_manager/services/command_service.py:473-492 | Every active worker is cancelled and the active map ends empty. |
| GitServiceModel.BranchFromRef | src/wt_manager/services/git_service.py:206-211 | A ref under "refs/heads/" gives the rest of it. Any other ref is kept whole. |
| GitServiceModel.ParseBranchLine | src/wt_manager/services/git_service.py:204-213 | A "branch" line sets the branch from its ref and clears the detached flag. The other fields are untouched. |
| GitServiceModel.ParseLine | src/wt_manager/services/git_service.py:188-202 | A line that is none of the five known forms leaves the record unchanged. A non-empty record never comes from an empty record and an empty line. |
| GitServiceModel.WorktreeLineSetsPath | src/wt_manager/services/git_service.py:190-191 | "worktree P" sets the path to P and nothing else. |
| GitServiceModel.HeadLineSetsCommit | src/wt_manager/services/git_service.py:192-193 | "HEAD H" sets the commit hash to H and nothing else. |
| GitServiceModel.BranchLineSetsBranch | src/wt_manager/services/git_service.py:194-195 | "branch refs/heads/X" sets the branch to X, and any other ref is kept whole. Either way the record is not detached, and the path, commit and bare flag are untouched. |
| GitServiceModel.DetachedAndBareLines | src/wt_manager/services/git_service.py:196-200 | "detached" sets the detached flag and branch "HEAD". "bare" sets the bare flag. |
| GitServiceModel.WithDefaults | src/wt_manager/services/git_service.py:179-184 | Missing fields become bare false, detached false, branch "HEAD" and commit hash "". Present fields are kept. |
| GitServiceModel.Flush | src/wt_manager/services/git_service.py:167-177 | A record is emitted exactly when it is not empty. |
| GitServiceModel.Blocks | src/wt_manager/services/git_service.py:162-177 | No emitted record is empty. |
| GitServiceModel.BlankSeparates | src/wt_manager/services/git_service.py:165-173 | A blank line splits the input into two parts that are parsed independently, the second starting from an empty record. |
| GitServiceModel.OneRecordPerBlock | src/wt_manager/services/git_service.py:165-177 | A block of non-blank lines gives exactly one record, or none when it sets no field. |
| GitServiceModel.BlankLinesAddNothing | src/wt_manager/services/git_service.py:167-171 | Repeated blank lines create no empty records. |
| GitServiceModel.Finalize | src/wt_manager/services/git_service.py:179-184 | One worktree per record, in order, each with its defaults filled in. |
| GitServiceModel.EmptyOutputGivesNothing | src/wt_manager/services/git_service.py:152-186 | Empty output gives no worktrees. |
| GitServiceModel.ParseWorktreeList | src/wt_manager/services/git_service.py:152-186 | The parsing loop computes the record sequence of the blocks, with defaults filled in. |
| GitServiceModel.CollectRecords | src/wt_manager/services/git_service.py:162-177 | The loop over the lines emits exactly the records of the blank-separated blocks, in input order. |
| GitServiceModel.ApplyDefaults | src/wt_manager/services/git_service.py:179-184 | The defaults loop fills in every record's missing fields. |
| GitServiceModel.RemoveDuplicateBranches | src/wt_manager/services/git_service.py:428-436 | The result holds each distinct branch once, in order of first occurrence. It is a subsequence of the input and loses no branch. |
| GitServiceModel.CreateWorktreeCall | src/wt_manager/services/git_service.py:232-246 | Any empty argument raises ValidationError, and an existing path raises GitError, both before git is invoked. Otherwise git is called in the repository with exactly "worktree add <path> <branch>". |
| GitServiceModel.CreateWorktreeFailure | src/wt_manager/services/git_service.py:248-255 | A git failure is classified as path already exists, else unknown branch, else a generic failure carrying git's message. |
| GitServiceModel.RemoveWorktreeArgs | src/wt_manager/services/git_service.py:279-287 | An empty path raises ValidationError before git is invoked. Otherwise the arguments are "worktree remove", then "--force" exactly when forced, then the path. |
| GitServiceModel.RemoveWorktreeFailure | src/wt_manager/services/git_service.py:295-304 | A git failure is classified as not a worktree, else uncommitted changes, else a generic failure carrying git's message. |
| ValidationServiceModel.AnyPatternFound | src/wt_manager/services/validation_service.py:310-316 | The scan over the invalid-branch patterns fires exactly when one of them matches. |
| ValidationServiceModel.ValidateBranchName | src/wt_manager/services/validation_service.py:282-339 | Each verdict of the guard chain holds exactly in its case, on the stripped name. "empty_branch" when the name is empty, and "branch_too_long" when it is longer than 250 characters. "invalid_pattern" when it is within the limit and a pattern matches. "invalid_characters" when no pattern matches but a character is outside `[A-Za-z0-9._/-]`. "reserved_name" when it is well shaped and its upper-cased form is reserved. The name is valid exactly when it satisfies the position-based reference BranchNameOk: at most 250 allowed characters, no leading '-', no trailing '/', no ".." or "//", and not reserved. |
| ValidationServiceModel.CheckStrippedBranch | src/wt_manager/services/validation_service.py:299-339 | For a non-empty stripped name, the checks after the empty check give each verdict exactly in the cases ValidateBranchName states. |
| ValidationServiceModel.PatternListUnfold | src/wt_manager/services/validation_service.py:49-58 | The pattern list matches exactly when one of its eight patterns does. |
| ValidationServiceModel.AllowedCharsExclude | src/wt_manager/services/validation_service.py:46-58 | A name made of allowed characters matches none of the "@{", backslash, whitespace and control-character patterns. |
| ValidationServiceModel.PositionalPatterns | src/wt_manager/services/validation_service.py:50-53 | The leading-dash, trailing-slash, ".." and "//" patterns match exactly at the character positions they describe. |
| ValidationServiceModel.BranchChecksAgree | src/wt_manager/services/validation_service.py:309-324 | Within the length limit, passing the pattern checks and the character check is the same as the position-based shape check. |
| ValidationServiceModel.LowerCaseHeadIsReserved | src/wt_manager/services/validation_service.py:326-333 | "head" is rejected as "reserved_name", because the comparison is made on the upper-cased name. |
| ValidationServiceModel.ReservedNameRejected | src/wt_manager/services/validation_service.py:326-333 | A well-formed name whose upper-cased form is HEAD, ORIG_HEAD, FETCH_HEAD or MERGE_HEAD gives "reserved_name". |
| ValidationServiceModel.AnyDangerMatches | src/wt_manager/services/validation_service.py:448-459 | The scan over the dangerous patterns fires exactly when some pattern in the scan order matches. |
| ValidationServiceModel.ScanOrderIrrelevant | src/wt_manager/services/validation_service.py:15-43 | Every iteration order of the pattern set gives the same verdict. |
| ValidationServiceModel.CommandSafetyVerdicts | src/wt_manager/services/validation_service.py:421-486 | Each verdict holds exactly in its case, on the stripped command. "empty_command" when it is empty, and "command_too_long" when it is longer than 1000 characters. "dangerous_command" when it is within the limit and some pattern matches; any shell metacharacter is such a match. "null_bytes" when no pattern matches and a NUL is present. "long_argument" when, besides, no NUL is present and some word is longer than 500 characters. A command passes exactly when it is within the limit, has no metacharacter or NUL, matches no word rule and has no argument over 500 characters. |
| ValidationServiceModel.CheckStrippedVerdicts | src/wt_manager/services/validation_service.py:438-486 | For a non-empty stripped command, the checks after the empty check give each verdict exactly in the cases CommandSafetyVerdicts states. |
| ValidationServiceModel.NoMatchMeansClean | src/wt_manager/services/validation_service.py:15-43 | No pattern matches exactly when the command has no metacharacter and no word rule fires. |
| PathManagerModel.DropDots | src/wt_manager/utils/path_manager.py:157 | Removing every ".." leaves no two consecutive dots, brings in no character, and keeps a first character that is not a dot. |
| PathManagerModel.DropTildes | src/wt_manager/utils/path_manager.py:159-161 | Removing every "~" leaves none, brings in no character, and keeps a first character that is not a tilde. |
| PathManagerModel.Backslashes | src/wt_manager/utils/path_manager.py:164 | Each backslash becomes a slash, and every other character stays where it was. |
| PathManagerModel.BackslashesFacts | src/wt_manager/utils/path_manager.py:164 | After the replacement no backslash is left, only slashes are brought in, and no ".." appears. |
| PathManagerModel.StripFacts | src/wt_manager/utils/path_manager.py:167 | Stripping whitespace brings in no character, keeps a non-blank first character, and brings no two dots together. |
| PathManagerModel.RewrittenFacts | src/wt_manager/utils/path_manager.py:154-167 | After the rewrites as written there is no backslash, no tilde unless the path started with one, and a path starting with "/" still does. |
| PathManagerModel.RewrittenFixedFacts | src/wt_manager/utils/path_manager.py:154-167 | The rewrites in the corrected order keep the same guarantees and also leave no "..". |
| PathManagerModel.DotDotGone | src/wt_manager/utils/path_manager.py:157 | Replacing ".." by nothing leaves no two consecutive dots. |
| PathManagerModel.StripSlashes | src/wt_manager/utils/path_manager.py:170-171 | A relative path loses its slashes at both ends, brings in no character, and gains no "..". |
| PathManagerModel.AbsoluteSlashes | src/wt_manager/utils/path_manager.py:172-179 | An absolute path is either the root "/" or has exactly one leading slash and no trailing slash. It brings in only slashes and gains no "..". |
| PathManagerModel.Finish | src/wt_manager/utils/path_manager.py:169-185 | The slash handling and the empty check: an error only as "Path becomes empty after sanitization", otherwise a non-empty path with the shape required by the original path's kind. An absolute original that still starts with "/" is never rejected. |
| PathManagerModel.SanitizePath | src/wt_manager/utils/path_manager.py:133-185 | The empty path and a path holding a NUL are rejected with their own messages. Any other rejection is "Path becomes empty after sanitization", and an accepted path is non-empty. |
| PathManagerModel.SanitizePathFixed | src/wt_manager/utils/path_manager.py:133-185 | The same error cases as SanitizePath, with "~" removed before "..". |
| PathManagerModel.SanitizePathShape | src/wt_manager/utils/path_manager.py:133-185 | As written: the result has no backslash, and no tilde unless the path started with one. A relative result has no slash at either end. A NUL-free absolute path is always accepted, as "/" or with one leading slash and no trailing one. |
| PathManagerModel.SanitizePathFixedShape | src/wt_manager/utils/path_manager.py:133-185 | The corrected order keeps every guarantee of SanitizePathShape and also leaves no ".." in any accepted path. |
| PathManagerModel.FinishKeeps | src/wt_manager/utils/path_manager.py:169-185 | The slash handling brings in no backslash and no tilde. |
| PathManagerModel.ReplaceNoDotDot | src/wt_manager/utils/path_manager.py:157 | A text without ".." is left alone by the removal. |
| PathManagerModel.TraversalOnlyRejected | src/wt_manager/utils/path_manager.py:157-183 | "../../.." loses its dots and slashes and is rejected as empty after sanitisation. |
| PathManagerModel.TildeHidesTraversal | src/wt_manager/utils/path_manager.py:157-164 | As written, ".~./etc" is accepted as "../etc": removing the tilde after the dots brings two dots together. |
| PathManagerModel.TildeRewritten | src/wt_manager/utils/path_manager.py:157-167 | The rewrites as written turn ".~./etc" into "../etc". |
| PathManagerModel.TraversalKeptByFinish | src/wt_manager/utils/path_manager.py:169-185 | The slash handling returns "../etc" unchanged for a relative original. |
| PathManagerModel.ReplaceEachGone | src/wt_manager/utils/path_manager.py:298-303 | After the replacement loop no invalid character is left, and only underscores are brought in. |
| PathManagerModel.DropControl | src/wt_manager/utils/path_manager.py:306 | Exactly the characters of code 32 or more are kept. |
| PathManagerModel.PrintableStage | src/wt_manager/utils/path_manager.py:298-306 | Replacing and filtering leave only printable characters outside the invalid set. |
| PathManagerModel.CleanedShape | src/wt_manager/utils/path_manager.py:298-309 | The cleaned name is printable, holds no invalid character, and neither starts nor ends with a dot or a space. |
| PathManagerModel.SafeFilenameShape | src/wt_manager/utils/path_manager.py:284-319 | The safe name is never empty and at most 255 characters. The empty name gives "unnamed". The result is printable, free of invalid characters, and does not start with a dot or a space. |
| PathManagerModel.TruncatedShape | src/wt_manager/utils/path_manager.py:315-317 | Cutting to 255 characters keeps the name non-empty, printable and free of invalid characters, with the same first character. |
| PathManagerModel.GetSafeFilename | src/wt_manager/utils/path_manager.py:284-319 | The method with its loops returns SafeFilename. |
| PathManagerModel.ReplaceAll | src/wt_manager/utils/path_manager.py:300-303 | The loop over the invalid characters computes ReplaceEach. |
| WorktreeModel.StatusDisplayShape | src/wt_manager/models/worktree.py:43-64 | "clean" exactly when the worktree is not bare, not detached and unmodified. Otherwise the tags appear in the order bare, detached, modified, as in "bare \| detached \| modified". |
| WorktreeModel.ShortHash | src/wt_manager/models/worktree.py:143-150 | The short hash is the first eight characters of the commit hash, or all of it when it is shorter. |
| WorktreeModel.BranchDisplayShowsHash | src/wt_manager/models/worktree.py:132-141 | A detached worktree shows its short hash in parentheses; any other shows its branch. |
| WorktreeModel.AgeBands | src/wt_manager/models/worktree.py:152-174 | Up to 60 seconds shows "just now". Up to an hour shows whole minutes (1 to 60), under a day whole hours (1 to 23), and from a day on whole days. |
| WorktreeModel.OneHourInMinutes | src/wt_manager/models/worktree.py:167-172 | Exactly one hour is still shown as "60 minutes ago", because the hour band starts above 3600 seconds. |
| WorktreeModel.FutureShowsHours | src/wt_manager/models/worktree.py:159-169 | A timestamp up to an hour in the future shows as "23 hours ago", because a negative timedelta borrows a day. |
| WorktreeModel.EqualityByPath | src/wt_manager/models/worktree.py:243-251 | Equality is an equivalence that looks only at the path, and equal worktrees have equal hash keys. |
| WorktreeModel.FromDictToDict | src/wt_manager/models/worktree.py:176-218 | Reading back a serialised worktree gives the same worktree. |
| WorktreeModel.FromDictKeys | src/wt_manager/models/worktree.py:196-218 | A missing "path", "branch" or "commit_hash" is refused with a KeyError naming the first one missing. Missing flags read as false, and a missing timestamp as the current time. |
| ProjectModel.ParseStatusInverse | src/wt_manager/models/project.py:14-21 | The status enumeration and its stored values are inverse: every status reads back from its value, and only a status's own value is accepted. |
| ProjectModel.PathIndex | src/wt_manager/models/project.py:109-138 | The index of the first worktree with the given path, or -1 exactly when no worktree has it. |
| ProjectModel.Initialised | src/wt_manager/models/project.py:45-55 | `__post_init__`: an empty id is replaced by the generated one and a non-empty id is kept. A project failing the basic structure check gets status ERROR, otherwise its status is kept; every other field is unchanged. |
| ProjectModel.InitialisedKeeps | src/wt_manager/models/project.py:45-72 | A record with an id and a status consistent with the structure check is left unchanged. |
| ProjectModel.DecodeEncodeWorktrees | src/wt_manager/models/project.py:140-178 | The worktree list read back from its serialised form is the same list. |
| ProjectModel.DecodeEncode | src/wt_manager/models/project.py:140-178 | Reading back a serialised project record gives the same record. |
| ProjectModel.DecodeRequiresKeys | src/wt_manager/models/project.py:157-178 | Decoding succeeds only when "id", "name", "path", "status" and "last_accessed" are all present. |
| ProjectModel.Project.constructor | src/wt_manager/models/project.py:25-55 | The new project's record is the initialised record of its arguments. |
| ProjectModel.Project.DisplayName | src/wt_manager/models/project.py:79-88 | The name when there is one. Otherwise the last component of the path: a suffix without '/' that is the whole path or follows a '/', and non-empty when the path does not end in '/'. |
| ProjectModel.Project.AddWorktree | src/wt_manager/models/project.py:99-107 | A worktree whose path is already listed changes nothing; otherwise it is appended. Afterwards its path is listed, and distinct paths stay distinct. |
| ProjectModel.Project.RemoveWorktree | src/wt_manager/models/project.py:109-123 | The first worktree with the path is deleted and true returned; without one the list is unchanged and false returned. With distinct paths the path is then absent. |
| ProjectModel.Project.WorktreeByPath | src/wt_manager/models/project.py:125-138 | None exactly when no worktree has the path; otherwise the first worktree with that path. |
| ProjectModel.ParseTime | src/wt_manager/models/project.py:176 | `datetime.fromisoformat`: succeeds exactly on a serialised timestamp and gives its value; any other string is a ValueError, and a value that is not a string is a TypeError. |
| ProjectModel.DecodeTimeErrors | src/wt_manager/models/project.py:170-177 | When every other field decodes, a bad "last_accessed" makes decoding fail, with ValueError for a string and TypeError for any other value. |
| ProjectModel.Project.FromDict | src/wt_manager/models/project.py:157-178 | A decoding error is passed on; otherwise a fresh project holding the initialised decoded record. |
| ProjectModel.RemoveAtKeepsDistinct | src/wt_manager/models/project.py:109-123 | Deleting one worktree keeps the paths distinct and leaves its path absent. |
| ProjectModel.FromDictOfToDict | src/wt_manager/models/project.py:140-178 | A project rebuilt from its own dictionary has the same fields, given an id and a status consistent with the structure check. |
| ConfigModel.IntMapGet | src/wt_manager/models/config.py:95-96 | A missing size map reads as the empty map. |
| ConfigModel.IntMapRoundTrip | src/wt_manager/models/config.py:69-70 | A stored size map reads back as the same map. |
| ConfigModel.PreferencesRoundTrip | src/wt_manager/models/config.py:37-97 | Reading back serialised preferences restores every serialised field. `auto_refresh_enabled` is not serialised and comes back true. |
| ConfigModel.PreferencesEntries | src/wt_manager/models/config.py:51-71 | Each serialised key holds the value of its field. |
| ConfigModel.PreferencesFromEmpty | src/wt_manager/models/config.py:37-49 | An empty dictionary reads as the default preferences. |
| ConfigModel.FromProject | src/wt_manager/models/config.py:162-177 | Id, name, path and last access come from the project. It is not a favourite and has no custom commands and no notes. |
| ConfigModel.IdIndex | src/wt_manager/models/config.py:224-283 | The index of the first project with the id, or -1 exactly when none has it. |
| ConfigModel.WithoutIdShape | src/wt_manager/models/config.py:208-222 | Dropping the entries with an id keeps the others in order and shortens the list by one when the id was present. Unique ids stay unique, and the id is then absent. |
| ConfigModel.AppendKeepsUnique | src/wt_manager/models/config.py:216-219 | Appending a project whose id is absent keeps the ids unique. |
| ConfigModel.SortByAccessDesc | src/wt_manager/models/config.py:285-298 | The sorted list is a permutation of the input, in descending order of last access. |
| ConfigModel.InsertByAccessSorted | src/wt_manager/models/config.py:285-298 | Inserting into a list sorted by descending last access keeps it sorted. |
| ConfigModel.RecentProjectsShape | src/wt_manager/models/config.py:285-298 | At most `limit` projects, exactly `min(limit, n)` for a non-negative limit, all from the list, in descending order of last access. The result is a sub-multiset of the list, and every project left out was accessed no later than every project kept, so the result is the top `limit`. With a limit at least the list's length, it is a permutation of the whole list. |
| ConfigModel.Favorites | src/wt_manager/models/config.py:300-307 | Exactly the favourites, in their order in the list. |
| ConfigModel.WithoutUnder | src/wt_manager/models/config.py:356-377 | Exactly the histories whose worktree path lies under the project path are removed; every other entry is kept as it was. |
| ConfigModel.AppConfig.constructor | src/wt_manager/models/config.py:181-206 | A new configuration has no projects, default preferences, no histories, no selected project, and the given update time. |
| ConfigModel.AppConfig.FindProject | src/wt_manager/models/config.py:224-249 | The loop returns the index of the first project with the id, or -1. |
| ConfigModel.AppConfig.AddProject | src/wt_manager/models/config.py:208-222 | Any entry with the same id is removed, with its histories and its selection, and the new entry is appended. The count grows by at most one, unique ids stay unique, and the update time is set. |
| ConfigModel.AppConfig.RemoveProject | src/wt_manager/models/config.py:224-249 | True exactly when an entry had the id. Only that entry goes, with the histories under its path and a selection of it; the update time changes only on removal. |
| ConfigModel.AppConfig.GetProject | src/wt_manager/models/config.py:251-264 | None exactly when no entry has the id; otherwise the first entry with it. |
| ConfigModel.AppConfig.UpdateProject | src/wt_manager/models/config.py:266-283 | The entry with the id is replaced in place and true is returned. Length and every other position are kept. Without the id nothing changes and false is returned. |
| ConfigModel.AppConfig.GetFavoriteProjects | src/wt_manager/models/config.py:300-307 | Exactly the favourite projects, in order. |
| ConfigModel.AppConfig.AddCommandExecution | src/wt_manager/models/config.py:309-325 | A new worktree path gets a fresh history whose bound is the preference `max_command_history`. The execution is added to the path's history, and every other history is unchanged. |
| ConfigModel.AppConfig.GetCommandHistory | src/wt_manager/models/config.py:327-337 | The history stored for the path, or None exactly when there is none. |
| ConfigModel.AppConfig.ClearCommandHistory | src/wt_manager/models/config.py:339-354 | A path deletes only its own history, and no path clears them all. |
| ConfigModel.AppConfig.CleanupProjectCommandHistory | src/wt_manager/models/config.py:356-377 | The histories under the project path are removed and the rest are kept. |
| ConfigModel.ReAddReplacesEntry | src/wt_manager/models/config.py:208-222 | Re-adding a project with a known id keeps the length and unique ids, and the new entry is last. |
| WorktreeServiceModel.ValidateWorktreeCreation | src/wt_manager/services/worktree_service.py:234-270 | The first failing result among the path check, the branch-name check and the branch-in-use check, in that order. The result is valid exactly when all three pass. |
| WorktreeServiceModel.RemovalGuards | src/wt_manager/services/worktree_service.py:184-232 | A missing worktree or empty path is refused first. Without force, a successful change check reporting changes refuses; a failed check does not, and force skips it. A worktree holding the current directory is never removed. Git is called exactly when no guard refuses, and true comes back only when git succeeds; every refusal is a ServiceError. |
| WorktreeServiceModel.ParenthesisedLength | src/wt_manager/services/worktree_service.py:446 | A text starting with "(" and ending with ")" has at least two characters. |
| WorktreeServiceModel.UpdateCommitHashEffect | src/wt_manager/services/worktree_service.py:440-459 | Only the commit hash and the detached flag change, and a set commit hash is left alone. A current branch "(x)" sets the hash to x and marks the worktree detached; a detached worktree stays detached. |
| WorktreeServiceModel.FindWorktreeByPath | src/wt_manager/services/worktree_service.py:480-485 | The loop returns the first worktree with the path, or None. |
| ProjectServiceModel.WithoutKey | src/wt_manager/services/project_service.py:102 | Deleting a key from the insertion-ordered key list keeps exactly the other keys, and leaves a list without it unchanged. |
| ProjectServiceModel.WithoutKeyDistinct | src/wt_manager/services/project_service.py:102 | Deleting a key keeps the keys distinct. |
| ProjectServiceModel.WithoutAppended | src/wt_manager/services/project_service.py:97-102 | Deleting a key just appended restores the key list it was appended to. |
| ProjectServiceModel.RefreshedStatus | src/wt_manager/services/project_service.py:371-391 | UNAVAILABLE exactly for an invalid project whose path is gone, ERROR for an invalid one whose path exists, MODIFIED for a valid one with changes, and ACTIVE for a valid one without. |
| ProjectServiceModel.RefreshOutcome | src/wt_manager/services/project_service.py:371-391 | ERROR exactly when a check raised or an invalid project's path still exists. UNAVAILABLE exactly when the checks found an invalid project whose path is gone. MODIFIED exactly for a valid one with uncommitted changes, and ACTIVE for a valid one without. |
| ProjectServiceModel.OverallStatus | src/wt_manager/services/project_service.py:444-450 | "unhealthy" exactly when there are issues, "warning" exactly when there are warnings and no issues, and "healthy" otherwise. |
| ProjectServiceModel.HealthVerdict | src/wt_manager/services/project_service.py:393-452 | No overall status exactly when the path is missing or not a repository, with one issue and no warnings. "unhealthy" exactly when an existing repository path is not a directory. "healthy" exactly when every probe succeeds, reports no changes, and the directory is readable. |
| ProjectServiceModel.ProjectService.constructor | src/wt_manager/services/project_service.py:26-44 | The cache starts empty. |
| ProjectServiceModel.ProjectService.Store | src/wt_manager/services/project_service.py:97 | The cache maps the key to the project, and a new key is appended to the key order. |
| ProjectServiceModel.ProjectService.Delete | src/wt_manager/services/project_service.py:102 | The key leaves the cache and the key order. |
| ProjectServiceModel.ProjectService.FindByPath | src/wt_manager/services/project_service.py:364-369 | None exactly when no cached project has the path; otherwise a cached project with that path. |
| ProjectServiceModel.ProjectService.FirstWithPath | src/wt_manager/services/project_service.py:364-369 | Scanning the keys in order finds a project with the path exactly when one exists. |
| ProjectServiceModel.ProjectService.AddProject | src/wt_manager/services/project_service.py:64-111 | A failed validation raises ValidationError with the cache unchanged. An already cached path returns the cached project, adding nothing. Otherwise a new project is cached, or, when saving fails, removed again and ServiceError raised. |
| ProjectServiceModel.ProjectService.CreateAndSave | src/wt_manager/services/project_service.py:93-106 | A successful save leaves the new project cached under its id. A failed one raises "Failed to save project configuration" and removes the id again, so a fresh id leaves the cache as it was. |
| ProjectServiceModel.ProjectService.Insert | src/wt_manager/services/project_service.py:351-362 | The project is named after the last path component, ACTIVE, accessed now, without worktrees, and cached under its generated id. |
| ProjectServiceModel.ProjectService.RemoveProject | src/wt_manager/services/project_service.py:113-148 | An unknown id gives false with the cache unchanged. A failed configuration removal raises with the cache unchanged. Otherwise exactly that id is removed and true returned. |
| ProjectServiceModel.ProjectService.UpdateProjectAccessTime | src/wt_manager/services/project_service.py:291-320 | An unknown id gives false. Otherwise that project's access time is set to `now` and the result is the configuration update's result. No other project's access time changes, and no project's id, name, path, status or worktrees change. |
| ProjectServiceModel.ProjectService.RefreshAllProjects | src/wt_manager/services/project_service.py:180-264 | One project per cache key, in key order. Each cached project's status is set in place to what `_refresh_project_status` assigns: ERROR when a check raised, otherwise RefreshedStatus of what the checks found. Its id, name, path, access time and worktrees are unchanged. |
| ConfigManagerModel.Ids | src/wt_manager/services/config_manager.py:426 | The ids of the projects, position by position. |
| ConfigManagerModel.ElementsCount | src/wt_manager/services/config_manager.py:426-427 | The set of a list's elements is never larger than the list, and equally large exactly when the elements are distinct. |
| ConfigManagerModel.DuplicateCheck | src/wt_manager/services/config_manager.py:423-428 | The id list and its set differ in size exactly when two projects share an id. |
| ConfigManagerModel.PathWarningsCount | src/wt_manager/services/config_manager.py:430-440 | At most one warning per project, and none exactly when every project path is an existing repository. |
| ConfigManagerModel.PreferenceWarningsShape | src/wt_manager/services/config_manager.py:453-460 | Each of the three too-low warnings appears exactly when its value is below 1, and there are no other warnings. |
| ConfigManagerModel.ValidateProjects | src/wt_manager/services/config_manager.py:423-432 | Appends "Duplicate project IDs found" to the issues exactly when ids repeat, and appends one path warning per project that is not an existing repository. |
| ConfigManagerModel.ValidateConfig | src/wt_manager/services/config_manager.py:392-421 | The report is valid exactly when it has no issues. The issues are the duplicate-id issue and the directory issue; the warnings are the path warnings and the preference warnings. |
| ConfigManagerModel.CleanValidation | src/wt_manager/services/config_manager.py:392-460 | There are no issues exactly when ids are unique and the configuration directory exists as a directory. There are no warnings exactly when every path is a repository and all three preference values are at least 1. |
| ConfigManagerModel.ConfigManager.constructor | src/wt_manager/services/config_manager.py:22-32 | The manager holds the given configuration. |
| ConfigManagerModel.ConfigManager.AddProject | src/wt_manager/services/config_manager.py:171-196 | The project's configuration replaces any entry with its id and goes last. Replacing an entry also drops the command-history entries under the old entry's path and clears the last selection if it was this id. Otherwise the history and selection are kept. The update time becomes `now`, and the result is whether saving succeeded. |
| ConfigManagerModel.ConfigManager.RemoveProject | src/wt_manager/services/config_manager.py:198-225 | An unknown id returns false without saving. Projects, update time, command history and last selection are all unchanged. Otherwise the entry is removed, the history entries under its path are dropped, and the last selection is cleared if it was this id. The update time becomes `now`, saving is attempted, and its result is returned. |
| ConfigManagerModel.ConfigManager.UpdateProject | src/wt_manager/services/config_manager.py:227-258 | An unknown id returns false without saving or changing anything. Otherwise the entry is replaced in place, saving is attempted, and its result returned. The configuration stays valid, and project ids that were unique stay unique. |
| ProgressManagerModel.Clamp | src/wt_manager/ui/progress_manager.py:29 | The stored progress lies in 0..100; a value inside the range is kept, one below becomes 0 and one above becomes 100. |
| ProgressManagerModel.OrDefault | src/wt_manager/ui/progress_manager.py:46 | `message or default`: a non-empty message, else the default. |
| ProgressManagerModel.FinishingEffects | src/wt_manager/ui/progress_manager.py:42-72 | On an unfinished operation, success sets progress 100, completes it, and shows the message or "Completed successfully". An error completes it with "Failed: " and the error's user message or text, keeping the progress. Cancelling completes and cancels it with "Cancelled", keeping the progress. |
| ProgressManagerModel.FinishingIsFinal | src/wt_manager/ui/progress_manager.py:42-72 | Once completed, success, error and cancel change nothing. |
| ProgressManagerModel.ProgressUpdate | src/wt_manager/ui/progress_manager.py:27-35 | An update stores the clamped progress and replaces the status only when a non-empty status is given; the flags are kept. |
| ProgressManagerModel.CompletionHappensOnce | src/wt_manager/ui/progress_manager.py:27-72 | Over any sequence of calls the state stays consistent (progress in 0..100, cancelled only when completed), and a completed operation stays completed with its cancelled flag fixed. |
| ProgressManagerModel.FailureWithoutErrorRaises | src/wt_manager/ui/progress_manager.py:232-254 | As written, a failure reported without an error raises a TypeError instead of completing the operation. |
| ProgressManagerModel.CompletionFinishes | src/wt_manager/ui/progress_manager.py:232-254 | With the failure path corrected, completing an unfinished operation always finishes it. Without an error the status is "Failed: " and the message or "The operation could not be completed.". The corrected completion agrees with the written one wherever that does not raise. |
| ProgressManagerModel.OperationProgress.constructor | src/wt_manager/ui/progress_manager.py:18-25 | A new operation has progress 0, status "Starting...", and is neither completed nor cancelled. |
| ProgressManagerModel.OperationProgress.UpdateProgress | src/wt_manager/ui/progress_manager.py:27-35 | The new state is the update of the old one by ProgressUpdate's rule. |
| ProgressManagerModel.OperationProgress.UpdateStatus | src/wt_manager/ui/progress_manager.py:37-40 | Only the status is replaced. |
| ProgressManagerModel.OperationProgress.CompleteSuccess | src/wt_manager/ui/progress_manager.py:42-50 | The new state is the success transition of the old one. |
| ProgressManagerModel.OperationProgress.CompleteError | src/wt_manager/ui/progress_manager.py:52-63 | The new state is the failure transition of the old one. |
| ProgressManagerModel.OperationProgress.Cancel | src/wt_manager/ui/progress_manager.py:65-72 | The new state is the cancel transition of the old one. |
| ProgressManagerModel.ProgressManager.constructor | src/wt_manager/ui/progress_manager.py:179-190 | No operations are tracked. |
| ProgressManagerModel.ProgressManager.StartOperation | src/wt_manager/ui/progress_manager.py:196-226 | A fresh, just-started operation is stored under the id, replacing any earlier one. |
| ProgressManagerModel.ProgressManager.GetOperation | src/wt_manager/ui/progress_manager.py:228-230 | The operation under the id, or None exactly when there is none. |
| ProgressManagerModel.ProgressManager.CompleteOperation | src/wt_manager/ui/progress_manager.py:232-254 | The operation under the id takes the corrected completion transition, and every other operation is unchanged. An unknown id changes nothing. |
| ProgressManagerModel.ProgressManager.CancelOperation | src/wt_manager/ui/progress_manager.py:256-260 | The operation under the id is cancelled, and every other operation is unchanged. |
| ProgressManagerModel.ProgressManager.UpdateOperationProgress | src/wt_manager/ui/progress_manager.py:262-268 | The operation under the id takes the progress update, and every other operation is unchanged. |
| ProgressManagerModel.ProgressManager.UpdateOperationStatus | src/wt_manager/ui/progress_manager.py:270-274 | The operation under the id takes the new status, and every other operation is unchanged. |
| ProgressManagerModel.ProgressManager.CleanupOperation | src/wt_manager/ui/progress_manager.py:302-304 | Only the id leaves the dictionary. |
| ProgressManagerModel.ProgressManager.ActiveOperations | src/wt_manager/ui/progress_manager.py:306-310 | Exactly the operations not yet completed, under their ids. |
| ProgressManagerModel.ProgressManager.CancelAllOperations | src/wt_manager/ui/progress_manager.py:312-315 | Every operation takes the cancel transition, so active ones end up cancelled and completed ones are left alone. Afterwards none is active. |
| CommandDialogModel.DropOneNoDuplicates | src/wt_manager/ui/command_dialog.py:469-470 | Removing one entry from a history without repeats keeps it without repeats and removes that command. |
| CommandDialogModel.WithCommandShape | src/wt_manager/ui/command_dialog.py:462-478 | A non-empty command ends up first, with no other copy when the history had no repeats. At most 50 commands are kept, and the length is known exactly. The remaining entries keep their relative order. |
| CommandDialogModel.WithEmptyCommand | src/wt_manager/ui/command_dialog.py:464-465 | An empty command leaves the history unchanged. |
| CommandDialogModel.ContainsAnyContext | src/wt_manager/ui/command_dialog.py:445-446 | Text around a string never hides a pattern it contains. |
| CommandDialogModel.DangerIgnoresCase | src/wt_manager/ui/command_dialog.py:423-446 | The confirmation check gives the same answer for a command and its lower-cased form. |
| CommandDialogModel.DangerSurvivesContext | src/wt_manager/ui/command_dialog.py:423-446 | Text added around a command that needs confirmation never makes it safe. |
| CommandDialogModel.CommandInputDialog.constructor | src/wt_manager/ui/command_dialog.py:62-83 | The history drops repeated commands, keeping each first occurrence in order, and keeps every command once. The timeout starts at 300 seconds with "No timeout" unchecked. |
| CommandDialogModel.CommandInputDialog.AddToHistory | src/wt_manager/ui/command_dialog.py:462-478 | The history becomes WithCommand of the old one, and stays without repeats. |
| CommandDialogModel.CommandInputDialog.SetTimeoutOptions | src/wt_manager/ui/command_dialog.py:178-187 | The options take the chosen values, and the spin box stays within 10 to 3600 seconds. |
| CommandDialogModel.CommandInputDialog.GetTimeout | src/wt_manager/ui/command_dialog.py:452-456 | 0 exactly when "No timeout" is checked; otherwise the spin box value, between 10 and 3600. |
| CommandDialogModel.CommandInputDialog.ExecuteCommand | src/wt_manager/ui/command_dialog.py:394-421 | A request is emitted exactly when the stripped command is non-empty and either not risky or confirmed. It carries the stripped command, the worktree path and the timeout. |
| ProjectActionDialogModel.CollapseShrinks | src/wt_manager/ui/project_action_dialog.py:501-502 | Replacing "--" by "-" never lengthens the text, and shortens one containing "--", so the loop ends. |
| ProjectActionDialogModel.CollapseDashesShape | src/wt_manager/ui/project_action_dialog.py:501-502 | After the loop no "--" is left, and only '-' may be brought in. |
| ProjectActionDialogModel.DashSeparatorsShape | src/wt_manager/ui/project_action_dialog.py:499 | No '/', '\\' or ':' is left, and only '-' is brought in. |
| ProjectActionDialogModel.StripDashesShape | src/wt_manager/ui/project_action_dialog.py:504 | Stripping dashes from a text without "--" leaves no "--" and no dash at either end, using only the text's own characters. |
| ProjectActionDialogModel.SanitizeBranchShape | src/wt_manager/ui/project_action_dialog.py:494-504 | The sanitised name holds no '/', '\\', ':' or "--", neither starts nor ends with '-', and brings in no character but '-'. The empty name gives "". |
| ProjectActionDialogModel.SanitizeClean | src/wt_manager/ui/project_action_dialog.py:494-504 | A name that is already clean comes back unchanged. |
| ProjectActionDialogModel.SanitizeIdempotent | src/wt_manager/ui/project_action_dialog.py:494-504 | Sanitising twice gives the same as sanitising once. |
| ProjectActionDialogModel.SanitizeBranchName | src/wt_manager/ui/project_action_dialog.py:494-504 | The method with its while loop computes the sanitised name. |
| ProjectActionDialogModel.MainIsClean | src/wt_manager/ui/project_action_dialog.py:486-489 | "main" is left unchanged by sanitising. |
| ProjectActionDialogModel.DirNameDefault | src/wt_manager/ui/project_action_dialog.py:484-491 | With no branch selected the directory is the display name followed by "-main". |
| ProjectActionDialogModel.DirNameClean | src/wt_manager/ui/project_action_dialog.py:484-491 | A clean branch name is used as it is, after the display name and a '-'. |
| ProjectActionDialogModel.BaseDir | src/wt_manager/ui/project_action_dialog.py:474-479 | The given base path when there is one; else the configured base when set and existing; else the project's parent directory. |
| PreferencesDialogModel.CommandTemplateShape | src/wt_manager/ui/preferences_dialog.py:529-535 | The template starts with a quote exactly when the path holds a space or does not start with "/". It always ends with a space and the quoted placeholder. |
| PreferencesDialogModel.PopulatedPath | src/wt_manager/ui/preferences_dialog.py:460-465 | Nothing is written without an application to edit; otherwise the path read from its template. |
| PreferencesDialogModel.QuotedPath | src/wt_manager/ui/preferences_dialog.py:468-472 | A template opening with a quote that closes later yields the text between the two quotes, which holds no quote. |
| PreferencesDialogModel.UnquotedPath | src/wt_manager/ui/preferences_dialog.py:473-475 | Otherwise a template with a space yields its text before the first space. |
| PreferencesDialogModel.BarePath | src/wt_manager/ui/preferences_dialog.py:476-478 | Otherwise every "%PATH%" is removed from the template. |
| PreferencesDialogModel.TemplateRoundTrip | src/wt_manager/ui/preferences_dialog.py:460-535 | Reading the path back out of the template generated for it gives the same path, for any path without a double quote. |
| PreferencesDialogModel.ExtractApplication | src/wt_manager/ui/preferences_dialog.py:549-559 | An application comes out exactly when the stripped path, the stripped name and the preview are all non-empty. It carries the stripped name and the preview as its template. |
| PreferencesDialogModel.ExtractMatchesOk | src/wt_manager/ui/preferences_dialog.py:505-559 | With the preview the dialog shows, an application comes out exactly when OK is enabled. When the stripped path holds no double quote, the template reads back as that path. |
| PreferencesDialogModel.NameTaken | src/wt_manager/ui/preferences_dialog.py:302-312 | True exactly when an entry other than the excluded one carries the name. |
| PreferencesDialogModel.AddApplication | src/wt_manager/ui/preferences_dialog.py:297-316 | A cancelled dialog or a taken name leaves the list unchanged; otherwise the application is appended. |
| PreferencesDialogModel.EditApplication | src/wt_manager/ui/preferences_dialog.py:318-345 | The selected entry is replaced unless nothing is selected, the dialog was cancelled, or another entry carries the new name. |
| PreferencesDialogModel.RemoveApplication | src/wt_manager/ui/preferences_dialog.py:347-367 | On confirmation the selected entry is removed and the others keep their order; otherwise nothing changes. |
| PreferencesDialogModel.ListKeepsNamesUnique | src/wt_manager/ui/preferences_dialog.py:297-367 | Adding, editing and removing keep the application names unique. |
| PreferencesDialogModel.ListRefusesClashes | src/wt_manager/ui/preferences_dialog.py:297-345 | An application is added exactly when no entry has its name yet, and an edit applies exactly when no other entry has the new name. |
| WorktreePanelModel.AcceptsCases | src/wt_manager/ui/worktree_panel.py:584-639 | With every filter empty every row is shown, and an item without a worktree is always shown. Otherwise a row is shown exactly when each non-empty filter occurs in its field: the lower-cased branch, the lower-cased status display, or the lower-cased "path branch status directory" text. |
| WorktreePanelModel.ContainsInLowered | src/wt_manager/ui/worktree_panel.py:629-639 | A lower-cased text around a piece contains whatever the lower-cased piece contains. |
| WorktreePanelModel.LineHoldsFields | src/wt_manager/ui/worktree_panel.py:631-638 | The lower-cased line "path branch status directory" contains whatever the lower-cased branch or status contains. |
| WorktreePanelModel.TextCoversBranchAndStatus | src/wt_manager/ui/worktree_panel.py:616-639 | A filter text the branch filter or the status filter finds, the text filter finds as well. |
| WorktreePanelModel.FiltersNarrow | src/wt_manager/ui/worktree_panel.py:616-639 | Typing more into a filter never brings a hidden row back. |
| WorktreePanelModel.BranchFilterIgnoresCase | src/wt_manager/ui/worktree_panel.py:569-620 | A lower-cased filter gives the same answer whatever the case of the branch. |
| WorktreePanelModel.WorktreeFilterModel.constructor | src/wt_manager/ui/worktree_panel.py:556-567 | A new filter model has empty criteria and shows every row. |
| WorktreePanelModel.WorktreeFilterModel.SetBranchFilter | src/wt_manager/ui/worktree_panel.py:569-572 | The branch filter is stored lower-cased. |
| WorktreePanelModel.WorktreeFilterModel.SetStatusFilter | src/wt_manager/ui/worktree_panel.py:574-577 | The status filter is stored lower-cased. |
| WorktreePanelModel.WorktreeFilterModel.SetTextFilter | src/wt_manager/ui/worktree_panel.py:579-582 | The text filter is stored lower-cased. |
| WorktreePanelModel.StatusLabelPlural | src/wt_manager/ui/worktree_panel.py:1005-1014 | The label ends in " worktrees" exactly for two or more worktrees of a selected project, and then starts with the count. |

## Left out

- I/O, processes and threads are outside the model. This covers reading and writing configuration, state and backup files, logging, and the worker's process launch, stream readers, poll loop and process kill. It also covers the locks of `CommandExecutionState` and `CommandManager`, the Qt widgets, signals and timers, and `AsyncGitService`. Every call is one atomic step; what git, the file system and the user answer are parameters.
- CommandServiceModel.CommandService.constructor: the service is given its command manager when it is built, so the window between `__init__` and `_do_initialize` in which `_command_manager` is still None is not modelled. The model takes initialisation to run straight after construction, as the application controller does (src/wt_manager/controllers/application_controller.py:55 and 94). In that window the source stores the worker and then fails with AttributeError when registering, and `_on_execution_finished` fails the same way; the model does not capture this. Whether the manager itself is initialised is modelled.
- The clock, `uuid4` and `Path.resolve` become parameters: `now`, `generatedId`, and paths taken as already normalised. The constructors of `Worktree` and `Project` therefore do not resolve their paths, and `Path.parent`, `Path.name` and the `/` join are modelled only as far as `PathName` goes.
- Timestamps are whole seconds. Microseconds, the ISO text of `isoformat()`/`fromisoformat()`, and JSON text are not modelled; a serialised timestamp is the `Time` value holding the integer.
- Floating point is left out: `get_duration_display`, `average_duration`, and the rounding of the success rate.
- The word-boundary regular expressions of the command safety check are an uninterpreted rule. Only the shell metacharacter class is modelled character by character.
- `str.lower()`, `str.upper()` and `str.isspace()` act on ASCII letters and the listed whitespace only; other Unicode case mappings are not modelled.
- `WorktreeModel.FromDict`: a value of the wrong type is refused with a TypeError or ValueError, where Python would keep it in the field or fail later.
- ProjectModel.Decode: "id" and "name" must hold strings and anything else is refused with a TypeError, where the source keeps the value in the field. A non-string "path" is also a TypeError, as `Path(...)` raises, but the model raises it when reading the field, before "status" and "last_accessed" are read, while the source raises it later, in `__post_init__`.
- `ConfigModel.PreferencesFromDict`: a value of the wrong type is refused, where Python would keep it in the field.
- `WorktreeServiceModel.UpdateCommitHashEffect`: the worktree is returned updated instead of being changed in place, and the `GitError` the git calls may raise is the `Err` of their results.
- `WorktreeModel.AgeBands`: the "unknown" branch of `get_age_display` is not modelled, because the constructor always sets `last_modified`.
- `WorktreeServiceModel.ValidateWorktreeCreation`: `validate_branch_not_in_use` is not defined by `ValidationService`. Its result is a parameter, and the exception path that would then be taken is not modelled.
- `ConfigManagerModel.ValidateConfig`: the "Exception during validation" issue is not modelled, as none of the modelled checks raises.
- `ProgressManagerModel.ProgressManager.CleanupOperation`: the 30-second timer that calls it after completion is not modelled.
- `PreferencesDialogModel.Preview`: filling in an empty name from the path's base name without extension is not modelled.
- `CustomApplication` is not defined by `models/config.py`. The model defines it with the two fields the dialog uses, `name` and `command_template`.
- Items of the application list that carry no application do not occur in the model, so the early returns for them in `_edit_application` and `_remove_application` are not modelled.
- `CommandManagerModel.CommandManager.GetActiveExecutions`: returns the set of active executions. The insertion order of the list that `list(dict.values())` gives is not modelled.
- `CommandExecution.to_dict`/`from_dict`/`to_json`/`from_json` and `CommandService`'s read-only pass-through queries are not part of this model. The queries are modelled once, on `CommandManager` and `CommandHistory`.
- `PathManager` directory creation, permission checks, `is_safe_path` and `resolve_path_safely` need the file system and are not part of this model.
- `git_service.create_worktree` is called by `worktree_service.create_worktree` with five arguments, though it takes three. That call and the rest of `create_worktree` in the worktree service are not modelled.

## Findings

| source | as written | input that shows it | evidently intended | confidence | as-written member | corrected member |
|---|---|---|---|---|---|---|
| src/wt_manager/utils/path_manager.py:157-164 | `sanitize_path` removes ".." before removing "~", so removing a tilde can bring two dots together | `sanitize_path(".~./etc")` returns "../etc" | no ".." survives sanitising; removing "~" first guarantees that | not executed | PathManagerModel.TildeHidesTraversal | PathManagerModel.SanitizePathFixedShape |
| src/wt_manager/ui/progress_manager.py:248-254 | a failure without an error builds `GitWorktreeManagerError(..., user_message=...)`, but the bare exception class takes no keyword arguments, so a TypeError is raised and the operation never completes | `complete_operation("x", success=False)` on a started operation "x" | the operation completes with "Failed: " and the message or "The operation could not be completed." | not executed | ProgressManagerModel.FailureWithoutErrorRaises | ProgressManagerModel.CompletionFinishes |
