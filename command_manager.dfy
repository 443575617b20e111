/** The registry of command executions: the executions that are running, a
    global and a per-worktree history, and success/failure counters
    (`CommandExecutionState`), behind a facade that refuses every call until
    it has been initialised (`CommandManager`).  Each call is one atomic step;
    the lock of the original is not modelled. */
module CommandManagerModel {
  import opened PyStr
  import opened PyList
  import opened Errors
  import opened CommandExecutionModel

  /** Both the global history and each worktree history are `CommandHistory`
      objects created with the default bound. */
  const HISTORY_SIZE := 100

  /** `get_global_history(1000)`, the pool the manager's filters search. */
  const FILTER_POOL := 1000

  /** Success rate as the fraction `numerator / denominator`, before the
      conversion to a rounded float. */
  datatype Rate = Rate(numerator: int, denominator: int)

  datatype ExecutionStatistics = ExecutionStatistics(
    totalExecutions: int, activeExecutions: nat, successfulExecutions: int,
    failedExecutions: int, successRate: Rate, worktreeCount: nat, globalHistorySize: nat)

  /** The success rate: successes over executions that are no longer
      active, times 100, or 0 when none has left the active set. */
  function SuccessRate(total: int, active: nat, successful: int): (r: Rate)
    ensures r.denominator >= 1
    ensures total <= active ==> r.numerator == 0
    ensures total > active ==> r.numerator == successful * 100 && r.denominator == total - active
  {
    if total > active then Rate(successful * 100, Max(1, total - active)) else Rate(0, 1)
  }

  class CommandExecutionState {
    var active: map<string, CommandExecution>
    var histories: map<string, seq<CommandExecution>>
    var globalHistory: seq<CommandExecution>
    var totalExecutions: int
    var successfulExecutions: int
    var failedExecutions: int

    /** Every active entry is stored under its own id and every history
        respects its bound. */
    predicate Valid()
      reads this
    {
      (forall id :: id in active ==> active[id].id == id)
      && |globalHistory| <= HISTORY_SIZE
      && (forall p :: p in histories ==> |histories[p]| <= HISTORY_SIZE)
    }

    constructor ()
      ensures Valid()
      ensures active == map[] && histories == map[] && globalHistory == []
      ensures totalExecutions == 0 && successfulExecutions == 0 && failedExecutions == 0
    {
      active := map[];
      histories := map[];
      globalHistory := [];
      totalExecutions := 0;
      successfulExecutions := 0;
      failedExecutions := 0;
    }

    /** A running execution becomes active; every execution goes to the
        front of the global history and of its worktree's history, which is
        created on first use; the total grows by one. */
    method AddExecution(e: CommandExecution)
      requires Valid()
      modifies this
      ensures Valid()
      ensures active == if old(e.status) == Running then old(active)[e.id := e] else old(active)
      ensures globalHistory == HistoryAdd(old(globalHistory), e, HISTORY_SIZE)
      ensures globalHistory[0] == e
      ensures var before := if e.worktreePath in old(histories) then old(histories)[e.worktreePath] else [];
        histories == old(histories)[e.worktreePath := HistoryAdd(before, e, HISTORY_SIZE)]
      ensures histories[e.worktreePath][0] == e
      ensures totalExecutions == old(totalExecutions) + 1
      ensures successfulExecutions == old(successfulExecutions)
      ensures failedExecutions == old(failedExecutions)
    {
      if e.status == Running {
        active := active[e.id := e];
      }
      HistoryAddShape(globalHistory, e, HISTORY_SIZE);
      HistoryAddBounded(globalHistory, e, HISTORY_SIZE);
      globalHistory := HistoryAdd(globalHistory, e, HISTORY_SIZE);
      var path := e.worktreePath;
      if path !in histories {
        histories := histories[path := []];
      }
      HistoryAddShape(histories[path], e, HISTORY_SIZE);
      HistoryAddBounded(histories[path], e, HISTORY_SIZE);
      histories := histories[path := HistoryAdd(histories[path], e, HISTORY_SIZE)];
      totalExecutions := totalExecutions + 1;
    }

    /** A finished execution leaves the active map and adds one to exactly
        one of the success and failure counters; an unfinished one replaces
        its active entry if it has one.  The histories are not touched. */
    method UpdateExecution(e: CommandExecution)
      requires Valid()
      modifies this
      ensures Valid()
      ensures histories == old(histories) && globalHistory == old(globalHistory)
      ensures totalExecutions == old(totalExecutions)
      ensures e.IsFinished() ==>
        active == old(active) - {e.id}
        && successfulExecutions == old(successfulExecutions) + (if e.IsSuccessful() then 1 else 0)
        && failedExecutions == old(failedExecutions) + (if e.IsSuccessful() then 0 else 1)
      ensures !e.IsFinished() ==>
        active == (if e.id in old(active) then old(active)[e.id := e] else old(active))
        && successfulExecutions == old(successfulExecutions)
        && failedExecutions == old(failedExecutions)
    {
      var wasActive := e.id in active;
      if wasActive {
        if e.IsFinished() {
          active := active - {e.id};
          if e.IsSuccessful() {
            successfulExecutions := successfulExecutions + 1;
          } else {
            failedExecutions := failedExecutions + 1;
          }
        } else {
          active := active[e.id := e];
        }
      } else if e.IsFinished() {
        if e.IsSuccessful() {
          successfulExecutions := successfulExecutions + 1;
        } else {
          failedExecutions := failedExecutions + 1;
        }
      }
    }

    /** The active entry for the id, else the first global-history entry
        with it, else None. */
    function GetExecution(id: string): (r: Option<CommandExecution>)
      reads this
      requires Valid()
      ensures id in active ==> r == Some(active[id])
      ensures id !in active ==>
        (r.None? <==> forall j :: 0 <= j < |globalHistory| ==> globalHistory[j].id != id)
      ensures id !in active && r.Some? ==> r.value == globalHistory[FirstIndexOfId(globalHistory, id)]
      ensures r.Some? ==> r.value.id == id
    {
      if id in active then Some(active[id])
      else
        var k := FirstIndexOfId(globalHistory, id);
        if k == -1 then None else Some(globalHistory[k])
    }

    /** The active executions (the list order of the dictionary is not kept). */
    function GetActiveExecutions(): set<CommandExecution>
      reads this
    {
      active.Values
    }

    /** The `limit` most recent executions of one worktree, [] for a
        worktree without history. */
    function GetExecutionsForWorktree(path: string, limit: int): (r: seq<CommandExecution>)
      reads this
      ensures path !in histories ==> r == []
      ensures path in histories ==> IsPrefix(r, histories[path])
      ensures path in histories && limit >= 0 ==> |r| == Min(limit, |histories[path]|)
    {
      if path in histories && |histories[path]| > 0 then SliceTo(histories[path], limit) else []
    }

    function GetGlobalHistory(limit: int): (r: seq<CommandExecution>)
      reads this
      ensures IsPrefix(r, globalHistory)
      ensures limit >= 0 ==> |r| == Min(limit, |globalHistory|)
    {
      SliceTo(globalHistory, limit)
    }

    function GetStatistics(): (st: ExecutionStatistics)
      reads this
      ensures st.activeExecutions == |active| && st.worktreeCount == |histories|
      ensures st.globalHistorySize == |globalHistory| && st.totalExecutions == totalExecutions
      ensures st.successfulExecutions == successfulExecutions && st.failedExecutions == failedExecutions
      ensures st.successRate.denominator >= 1
      ensures totalExecutions > |active| ==>
        st.successRate.numerator == successfulExecutions * 100 && st.successRate.denominator == totalExecutions - |active|
      ensures totalExecutions <= |active| ==> st.successRate.numerator == 0
    {
      ExecutionStatistics(totalExecutions, |active|, successfulExecutions, failedExecutions,
        SuccessRate(totalExecutions, |active|, successfulExecutions), |histories|, |globalHistory|)
    }

    /** Drops, from every history, the executions that started at or
        before `now` minus the given hours and are not running; returns how
        many left the global history. */
    method CleanupFinishedExecutions(olderThanHours: int, now: int) returns (cleaned: int)
      requires Valid()
      modifies this
      ensures Valid()
      ensures var sel := StartedAfterOrRunning(now - olderThanHours * 3600);
        globalHistory == old(Select(globalHistory, sel))
        && histories.Keys == old(histories).Keys
        && (forall p :: p in histories ==> histories[p] == old(Select(histories[p], sel)))
      ensures cleaned == |old(globalHistory)| - |globalHistory| && cleaned >= 0
      ensures active == old(active) && totalExecutions == old(totalExecutions)
      ensures successfulExecutions == old(successfulExecutions)
      ensures failedExecutions == old(failedExecutions)
    {
      var sel := StartedAfterOrRunning(now - olderThanHours * 3600);
      var kept := Select(globalHistory, sel);
      var hs := FilterHistories(histories, sel);
      assert forall p :: p in hs ==> |hs[p]| <= HISTORY_SIZE;
      cleaned := |globalHistory| - |kept|;
      globalHistory := kept;
      histories := hs;
    }

    /** A non-empty path empties that worktree's history only; no path (or
        the empty one) empties everything and zeroes the three counters. */
    method ClearHistory(path: Option<string>)
      requires Valid()
      modifies this
      ensures Valid()
      ensures active == old(active)
      ensures path.Some? && path.value != "" ==>
        histories == (if path.value in old(histories) then old(histories)[path.value := []] else old(histories))
        && globalHistory == old(globalHistory)
        && totalExecutions == old(totalExecutions)
        && successfulExecutions == old(successfulExecutions)
        && failedExecutions == old(failedExecutions)
      ensures path.None? || path.value == "" ==>
        histories == map[] && globalHistory == []
        && totalExecutions == 0 && successfulExecutions == 0 && failedExecutions == 0
    {
      if path.Some? && path.value != "" {
        if path.value in histories {
          histories := histories[path.value := []];
        }
      } else {
        globalHistory := [];
        histories := map[];
        totalExecutions := 0;
        successfulExecutions := 0;
        failedExecutions := 0;
      }
    }
  }

  /** The facade: every query and update raises ServiceError until
      `initialize` has run, and again after `shutdown`. */
  class CommandManager {
    const state: CommandExecutionState
    var initialized: bool

    predicate Valid()
      reads this, state
    {
      state.Valid()
    }

    constructor ()
      ensures Valid() && fresh(state) && !initialized
      ensures state.active == map[] && state.histories == map[] && state.globalHistory == []
    {
      state := new CommandExecutionState();
      initialized := false;
    }

    /** Idempotent: a second call changes nothing. */
    method Initialize()
      modifies this`initialized
      ensures initialized
    {
      if initialized {
        return;
      }
      initialized := true;
    }

    method Shutdown()
      modifies this`initialized
      ensures !initialized
    {
      if !initialized {
        return;
      }
      initialized := false;
    }

    method RegisterExecution(e: CommandExecution) returns (r: Result<()>)
      requires Valid()
      modifies state
      ensures Valid()
      ensures r.Err? <==> !initialized
      ensures r.Err? ==> r.error.ServiceError? && unchanged(state)
      ensures r.Ok? ==>
        state.active == (if e.status == Running then old(state.active)[e.id := e] else old(state.active))
        && state.globalHistory == HistoryAdd(old(state.globalHistory), e, HISTORY_SIZE)
        && state.globalHistory[0] == e
        && (var before := if e.worktreePath in old(state.histories) then old(state.histories)[e.worktreePath] else [];
            state.histories == old(state.histories)[e.worktreePath := HistoryAdd(before, e, HISTORY_SIZE)])
        && state.histories[e.worktreePath][0] == e
        && state.totalExecutions == old(state.totalExecutions) + 1
        && state.successfulExecutions == old(state.successfulExecutions)
        && state.failedExecutions == old(state.failedExecutions)
    {
      if !initialized {
        return Err(ServiceError("CommandManager not initialized"));
      }
      state.AddExecution(e);
      r := Ok(());
    }

    method UpdateExecutionStatus(e: CommandExecution) returns (r: Result<()>)
      requires Valid()
      modifies state
      ensures Valid()
      ensures r.Err? <==> !initialized
      ensures r.Err? ==> r.error.ServiceError? && unchanged(state)
      ensures r.Ok? ==>
        state.histories == old(state.histories) && state.globalHistory == old(state.globalHistory)
        && state.totalExecutions == old(state.totalExecutions)
      ensures r.Ok? && e.IsFinished() ==>
        state.active == old(state.active) - {e.id}
        && state.successfulExecutions == old(state.successfulExecutions) + (if e.IsSuccessful() then 1 else 0)
        && state.failedExecutions == old(state.failedExecutions) + (if e.IsSuccessful() then 0 else 1)
      ensures r.Ok? && !e.IsFinished() ==>
        state.active == (if e.id in old(state.active) then old(state.active)[e.id := e] else old(state.active))
        && state.successfulExecutions == old(state.successfulExecutions)
        && state.failedExecutions == old(state.failedExecutions)
    {
      if !initialized {
        return Err(ServiceError("CommandManager not initialized"));
      }
      state.UpdateExecution(e);
      r := Ok(());
    }

    method GetExecution(id: string) returns (r: Result<Option<CommandExecution>>)
      requires Valid()
      ensures r.Err? <==> !initialized
      ensures r.Err? ==> r.error.ServiceError?
      ensures r.Ok? ==> r.value == state.GetExecution(id)
    {
      if !initialized {
        return Err(ServiceError("CommandManager not initialized"));
      }
      r := Ok(state.GetExecution(id));
    }

    method GetActiveExecutions() returns (r: Result<set<CommandExecution>>)
      ensures r.Err? <==> !initialized
      ensures r.Ok? ==> r.value == state.active.Values
    {
      if !initialized {
        return Err(ServiceError("CommandManager not initialized"));
      }
      r := Ok(state.GetActiveExecutions());
    }

    /** The number of active executions; raises like every other query when
        not initialised. */
    method GetConcurrentExecutionCount() returns (r: Result<nat>)
      ensures r.Err? <==> !initialized
      ensures r.Ok? ==> r.value == |state.active|
    {
      var all := GetActiveExecutions();
      if all.Err? {
        return Err(all.error);
      }
      assert all.value == state.active.Values;
      r := Ok(|state.active|);
    }

    method GetWorktreeHistory(path: string, limit: int) returns (r: Result<seq<CommandExecution>>)
      ensures r.Err? <==> !initialized
      ensures r.Ok? ==> r.value == state.GetExecutionsForWorktree(path, limit)
    {
      if !initialized {
        return Err(ServiceError("CommandManager not initialized"));
      }
      r := Ok(state.GetExecutionsForWorktree(path, limit));
    }

    method GetGlobalHistory(limit: int) returns (r: Result<seq<CommandExecution>>)
      ensures r.Err? <==> !initialized
      ensures r.Ok? ==> r.value == state.GetGlobalHistory(limit)
    {
      if !initialized {
        return Err(ServiceError("CommandManager not initialized"));
      }
      r := Ok(state.GetGlobalHistory(limit));
    }

    method GetExecutionStatistics() returns (r: Result<ExecutionStatistics>)
      ensures r.Err? <==> !initialized
      ensures r.Ok? ==> r.value == state.GetStatistics()
      ensures r.Ok? ==>
        r.value.totalExecutions == state.totalExecutions && r.value.activeExecutions == |state.active|
        && r.value.successfulExecutions == state.successfulExecutions
        && r.value.failedExecutions == state.failedExecutions
        && r.value.worktreeCount == |state.histories| && r.value.globalHistorySize == |state.globalHistory|
        && r.value.successRate == SuccessRate(state.totalExecutions, |state.active|, state.successfulExecutions)
    {
      if !initialized {
        return Err(ServiceError("CommandManager not initialized"));
      }
      r := Ok(state.GetStatistics());
    }

    /** The executions with the given status among the global history, in
        history order. */
    method GetExecutionsByStatus(status: CommandStatus) returns (r: Result<seq<CommandExecution>>)
      ensures r.Err? <==> !initialized
      ensures r.Ok? ==> IsSubsequence(r.value, state.globalHistory)
      ensures r.Ok? ==> forall i :: 0 <= i < |r.value| ==> r.value[i].status == status
      ensures r.Ok? ==> forall i :: (0 <= i < |state.globalHistory| && i < FILTER_POOL
                                     && state.globalHistory[i].status == status) ==> state.globalHistory[i] in r.value
    {
      if !initialized {
        return Err(ServiceError("CommandManager not initialized"));
      }
      var pool := state.GetGlobalHistory(FILTER_POOL);
      r := Ok(Select(pool, WithStatus(status)));
      PoolSubsequence(pool, state.globalHistory, r.value);
    }

    /** The executions of the global history whose lower-cased command
        contains the lower-cased pattern, in history order. */
    method GetExecutionsByCommand(pattern: string) returns (r: Result<seq<CommandExecution>>)
      ensures r.Err? <==> !initialized
      ensures r.Ok? ==> IsSubsequence(r.value, state.globalHistory)
      ensures r.Ok? ==> forall i :: 0 <= i < |r.value| ==> Contains(Lower(r.value[i].command), Lower(pattern))
      ensures r.Ok? ==> forall i :: (0 <= i < |state.globalHistory| && i < FILTER_POOL
                                     && Contains(Lower(state.globalHistory[i].command), Lower(pattern)))
                                    ==> state.globalHistory[i] in r.value
    {
      if !initialized {
        return Err(ServiceError("CommandManager not initialized"));
      }
      var pool := state.GetGlobalHistory(FILTER_POOL);
      r := Ok(Select(pool, CommandMatches(pattern)));
      PoolSubsequence(pool, state.globalHistory, r.value);
    }

    method CleanupOldExecutions(olderThanHours: int, now: int) returns (r: Result<int>)
      requires Valid()
      modifies state
      ensures Valid()
      ensures r.Err? <==> !initialized
      ensures r.Err? ==> unchanged(state)
      ensures r.Ok? ==> r.value == |old(state.globalHistory)| - |state.globalHistory| && r.value >= 0
      ensures r.Ok? ==> var sel := StartedAfterOrRunning(now - olderThanHours * 3600);
        state.globalHistory == old(Select(state.globalHistory, sel))
        && state.histories.Keys == old(state.histories).Keys
        && (forall p :: p in state.histories ==> state.histories[p] == old(Select(state.histories[p], sel)))
      ensures r.Ok? ==>
        state.active == old(state.active) && state.totalExecutions == old(state.totalExecutions)
        && state.successfulExecutions == old(state.successfulExecutions)
        && state.failedExecutions == old(state.failedExecutions)
    {
      if !initialized {
        return Err(ServiceError("CommandManager not initialized"));
      }
      var n := state.CleanupFinishedExecutions(olderThanHours, now);
      r := Ok(n);
    }

    method ClearHistory(path: Option<string>) returns (r: Result<()>)
      requires Valid()
      modifies state
      ensures Valid()
      ensures r.Err? <==> !initialized
      ensures r.Err? ==> unchanged(state)
      ensures r.Ok? ==> state.active == old(state.active)
      ensures r.Ok? && path.Some? && path.value != "" ==>
        state.histories == (if path.value in old(state.histories) then old(state.histories)[path.value := []]
                            else old(state.histories))
        && state.globalHistory == old(state.globalHistory)
        && state.totalExecutions == old(state.totalExecutions)
        && state.successfulExecutions == old(state.successfulExecutions)
        && state.failedExecutions == old(state.failedExecutions)
      ensures r.Ok? && (path.None? || path.value == "") ==>
        state.histories == map[] && state.globalHistory == []
        && state.totalExecutions == 0 && state.successfulExecutions == 0 && state.failedExecutions == 0
    {
      if !initialized {
        return Err(ServiceError("CommandManager not initialized"));
      }
      state.ClearHistory(path);
      r := Ok(());
    }
  }

  /** The clean-up loop over the per-worktree histories: each history is
      replaced by the entries the selector keeps. */
  method FilterHistories(hs: map<string, seq<CommandExecution>>, sel: Selector)
    returns (out: map<string, seq<CommandExecution>>)
    ensures out.Keys == hs.Keys
    ensures forall p :: p in out ==> out[p] == Select(hs[p], sel)
    ensures forall p :: p in out ==> |out[p]| <= |hs[p]|
  {
    out := hs;
    var todo := hs.Keys;
    while todo != {}
      invariant todo <= out.Keys && out.Keys == hs.Keys
      invariant forall p :: p in todo ==> out[p] == hs[p]
      invariant forall p :: p in out && p !in todo ==> out[p] == Select(hs[p], sel)
      invariant forall p :: p in out ==> |out[p]| <= |hs[p]|
      decreases todo
    {
      var p :| p in todo;
      out := out[p := Select(out[p], sel)];
      todo := todo - {p};
    }
  }

  /** A subsequence of a prefix is a subsequence of the whole. */
  lemma PoolSubsequence(pool: seq<CommandExecution>, all: seq<CommandExecution>, r: seq<CommandExecution>)
    requires IsPrefix(pool, all) && IsSubsequence(r, pool)
    ensures IsSubsequence(r, all)
  {
    SubsequenceExtend(r, pool, all[|pool|..]);
    assert pool + all[|pool|..] == all;
  }

  lemma {:induction false} SubsequenceExtend<T>(a: seq<T>, b: seq<T>, tail: seq<T>)
    requires IsSubsequence(a, b)
    ensures IsSubsequence(a, b + tail)
    decreases |b|
  {
    if |a| > 0 {
      assert (b + tail)[1..] == b[1..] + tail;
      if a[0] == b[0] && IsSubsequence(a[1..], b[1..]) {
        SubsequenceExtend(a[1..], b[1..], tail);
      } else {
        SubsequenceExtend(a, b[1..], tail);
      }
    }
  }
}
