/** Progress tracking for long-running operations: the state of one
    operation (progress percentage, status text, completed and cancelled
    flags) and the manager's dictionary of operations by id. The Qt
    signals, dialogs and timers around them are not modelled. */
module ProgressManagerModel {
  import opened PyStr
  import opened Errors

  /** `max(0, min(100, p))`. */
  function Clamp(p: int): (r: int)
    ensures 0 <= r <= 100
    ensures 0 <= p <= 100 ==> r == p
    ensures p < 0 ==> r == 0
    ensures p > 100 ==> r == 100
  {
    if p < 0 then 0 else if p > 100 then 100 else p
  }

  /** `x or default` for an optional string: an absent or empty string
      falls back to the default. */
  function OrDefault(x: Option<string>, default: string): (r: string)
    ensures x.Some? && x.value != [] ==> r == x.value
    ensures x.None? || x.value == [] ==> r == default
  {
    if x.Some? && x.value != [] then x.value else default
  }

  /** The fields of an operation that its methods change. */
  datatype Snapshot = Snapshot(progress: int, status: string, isCompleted: bool, isCancelled: bool)

  /** A new operation. */
  const STARTED := Snapshot(0, "Starting...", false, false)

  /** An error as `complete_error` sees it: its text, and its
      `user_message` attribute when it has one. */
  datatype ErrorInfo = ErrorInfo(text: string, userMessage: Option<string>)

  /** `update_progress`: the clamped progress, and the status only when a
      non-empty one is given. It does not look at the completed flag. */
  function WithProgress(s: Snapshot, p: int, status: Option<string>): Snapshot
  {
    s.(progress := Clamp(p), status := OrDefault(status, s.status))
  }

  /** `update_status`. */
  function WithStatus(s: Snapshot, status: string): Snapshot
  {
    s.(status := status)
  }

  /** `complete_success`. */
  function Succeeded(s: Snapshot, message: Option<string>): Snapshot
  {
    if s.isCompleted then s
    else s.(progress := 100, status := OrDefault(message, "Completed successfully"), isCompleted := true)
  }

  /** `complete_error`: the user message when the error has one, its text
      otherwise. */
  function Failed(s: Snapshot, e: ErrorInfo): Snapshot
  {
    if s.isCompleted then s
    else
      var shown := if e.userMessage.Some? then e.userMessage.value else e.text;
      s.(isCompleted := true, status := "Failed: " + shown)
  }

  /** `cancel`. */
  function Cancelled(s: Snapshot): Snapshot
  {
    if s.isCompleted then s
    else s.(isCancelled := true, isCompleted := true, status := "Cancelled")
  }

  /** A progress within 0..100, and cancelled only when completed. */
  predicate Consistent(s: Snapshot)
  {
    0 <= s.progress <= 100 && (s.isCancelled ==> s.isCompleted)
  }

  /** What each way of finishing does to an unfinished operation: success
      fills the bar and takes the message or the default text, an error
      keeps the progress and shows "Failed: ...", and cancelling marks both
      flags. */
  lemma FinishingEffects(s: Snapshot, message: Option<string>, e: ErrorInfo)
    requires !s.isCompleted
    ensures var t := Succeeded(s, message);
      t.progress == 100 && t.isCompleted && !t.isCancelled == !s.isCancelled
      && (message.Some? && message.value != [] ==> t.status == message.value)
      && (message.None? || message.value == [] ==> t.status == "Completed successfully")
    ensures var t := Failed(s, e);
      t.progress == s.progress && t.isCompleted && t.isCancelled == s.isCancelled
      && StartsWith(t.status, "Failed: ")
      && (e.userMessage.Some? ==> t.status == "Failed: " + e.userMessage.value)
      && (e.userMessage.None? ==> t.status == "Failed: " + e.text)
    ensures var t := Cancelled(s);
      t.progress == s.progress && t.isCompleted && t.isCancelled && t.status == "Cancelled"
  {
    var shown := if e.userMessage.Some? then e.userMessage.value else e.text;
    assert ("Failed: " + shown)[..|"Failed: "|] == "Failed: ";
  }

  /** Once an operation is completed, finishing it again changes nothing. */
  lemma FinishingIsFinal(s: Snapshot, message: Option<string>, e: ErrorInfo)
    requires s.isCompleted
    ensures Succeeded(s, message) == s && Failed(s, e) == s && Cancelled(s) == s
  {
  }

  /** Updating the progress stores the clamped value and touches neither
      flag; an absent or empty status keeps the old one. */
  lemma ProgressUpdate(s: Snapshot, p: int, status: Option<string>)
    ensures var t := WithProgress(s, p, status);
      t.progress == Clamp(p) && t.isCompleted == s.isCompleted && t.isCancelled == s.isCancelled
      && (status.None? || status.value == [] ==> t.status == s.status)
      && (status.Some? && status.value != [] ==> t.status == status.value)
  {
  }

  /** One call on an operation. */
  datatype Call =
    | UpdateProgressCall(p: int, status: Option<string>)
    | UpdateStatusCall(newStatus: string)
    | SuccessCall(message: Option<string>)
    | ErrorCall(error: ErrorInfo)
    | CancelCall

  function Apply(s: Snapshot, c: Call): Snapshot
  {
    match c
    case UpdateProgressCall(p, status) => WithProgress(s, p, status)
    case UpdateStatusCall(status) => WithStatus(s, status)
    case SuccessCall(message) => Succeeded(s, message)
    case ErrorCall(e) => Failed(s, e)
    case CancelCall => Cancelled(s)
  }

  /** The calls applied in order. */
  function ApplyAll(s: Snapshot, cs: seq<Call>): Snapshot
    decreases |cs|
  {
    if cs == [] then s else ApplyAll(Apply(s, cs[0]), cs[1..])
  }

  /** Over any sequence of calls the state stays consistent, and
      completion happens at most once: a completed operation stays
      completed and its cancelled flag never changes again. */
  lemma {:induction false} CompletionHappensOnce(s: Snapshot, cs: seq<Call>)
    ensures Consistent(s) ==> Consistent(ApplyAll(s, cs))
    ensures s.isCompleted ==> ApplyAll(s, cs).isCompleted && ApplyAll(s, cs).isCancelled == s.isCancelled
    decreases |cs|
  {
    if cs != [] {
      CompletionHappensOnce(Apply(s, cs[0]), cs[1..]);
    }
  }

  /** What `complete_operation` does to the operation, as written: a
      failure without an error builds `GitWorktreeManagerError(...,
      user_message=...)`, which a bare exception class refuses with a
      TypeError, so the operation is left as it was. */
  function CompletionAsWritten(s: Snapshot, success: bool, message: Option<string>, error: Option<ErrorInfo>)
    : Result<Snapshot>
  {
    if success then Ok(Succeeded(s, message))
    else if error.Some? then Ok(Failed(s, error.value))
    else Err(TypeError("GitWorktreeManagerError() takes no keyword arguments"))
  }

  /** A failure reported without an error raises a TypeError instead of
      completing the operation. */
  lemma FailureWithoutErrorRaises(s: Snapshot, message: Option<string>)
    ensures CompletionAsWritten(s, false, message, None).Err?
    ensures CompletionAsWritten(s, false, message, None).error.TypeError?
  {
  }

  /** What `complete_operation` evidently means to do: a failure without
      an error fails the operation with the message, or with the default
      texts. */
  function Completion(s: Snapshot, success: bool, message: Option<string>, error: Option<ErrorInfo>): Snapshot
  {
    if success then Succeeded(s, message)
    else if error.Some? then Failed(s, error.value)
    else Failed(s, ErrorInfo(OrDefault(message, "Operation failed"),
                             Some(OrDefault(message, "The operation could not be completed."))))
  }

  /** Completing an unfinished operation always finishes it: success with
      the bar full, failure with a "Failed: " status, and without an error
      the message or "The operation could not be completed." is shown. The
      corrected completion agrees with the written one wherever that does
      not raise. */
  lemma CompletionFinishes(s: Snapshot, success: bool, message: Option<string>, error: Option<ErrorInfo>)
    requires !s.isCompleted
    ensures var t := Completion(s, success, message, error);
      t.isCompleted && t.isCancelled == s.isCancelled
      && (success ==> t.progress == 100)
      && (!success ==> t.progress == s.progress && StartsWith(t.status, "Failed: "))
      && (!success && error.None? ==>
            t.status == "Failed: " + OrDefault(message, "The operation could not be completed."))
    ensures CompletionAsWritten(s, success, message, error).Ok? ==>
      CompletionAsWritten(s, success, message, error).value == Completion(s, success, message, error)
  {
    if !success {
      var e := if error.Some? then error.value
               else ErrorInfo(OrDefault(message, "Operation failed"),
                              Some(OrDefault(message, "The operation could not be completed.")));
      FinishingEffects(s, message, e);
    }
  }

  /** One tracked operation. */
  class OperationProgress {
    const operationId: string
    const description: string
    var progress: int
    var status: string
    var isCompleted: bool
    var isCancelled: bool

    function State(): Snapshot
      reads this
    {
      Snapshot(progress, status, isCompleted, isCancelled)
    }

    constructor (operationId: string, description: string)
      ensures this.operationId == operationId && this.description == description
      ensures State() == STARTED
    {
      this.operationId := operationId;
      this.description := description;
      progress := 0;
      status := "Starting...";
      isCompleted := false;
      isCancelled := false;
    }

    method UpdateProgress(p: int, newStatus: Option<string>)
      modifies this
      ensures State() == WithProgress(old(State()), p, newStatus)
    {
      progress := Clamp(p);
      if newStatus.Some? && newStatus.value != [] {
        status := newStatus.value;
      }
    }

    method UpdateStatus(newStatus: string)
      modifies this
      ensures State() == WithStatus(old(State()), newStatus)
    {
      status := newStatus;
    }

    method CompleteSuccess(message: Option<string>)
      modifies this
      ensures State() == Succeeded(old(State()), message)
    {
      if !isCompleted {
        progress := 100;
        status := OrDefault(message, "Completed successfully");
        isCompleted := true;
      }
    }

    method CompleteError(e: ErrorInfo)
      modifies this
      ensures State() == Failed(old(State()), e)
    {
      if !isCompleted {
        isCompleted := true;
        if e.userMessage.Some? {
          status := "Failed: " + e.userMessage.value;
        } else {
          status := "Failed: " + e.text;
        }
      }
    }

    method Cancel()
      modifies this
      ensures State() == Cancelled(old(State()))
    {
      if !isCompleted {
        isCancelled := true;
        isCompleted := true;
        status := "Cancelled";
      }
    }
  }

  /** The manager's `_operations` dictionary. */
  class ProgressManager {
    var operations: map<string, OperationProgress>

    /** Each id has its own operation object. */
    predicate Valid()
      reads this
    {
      forall k1, k2 :: k1 in operations && k2 in operations && k1 != k2 ==> operations[k1] != operations[k2]
    }

    constructor ()
      ensures Valid() && operations == map[]
    {
      operations := map[];
    }

    /** `start_operation`: a new operation under the id, replacing any
        earlier one. */
    method StartOperation(id: string, description: string) returns (op: OperationProgress)
      requires Valid()
      modifies this`operations
      ensures Valid() && fresh(op)
      ensures operations == old(operations)[id := op]
      ensures op.State() == STARTED && op.operationId == id && op.description == description
    {
      op := new OperationProgress(id, description);
      operations := operations[id := op];
    }

    /** `get_operation`. */
    function GetOperation(id: string): (r: Option<OperationProgress>)
      reads this
      ensures r.Some? <==> id in operations
      ensures r.Some? ==> r.value == operations[id]
    {
      if id in operations then Some(operations[id]) else None
    }

    /** `complete_operation`, with the failure path completed as
        intended. An unknown id changes nothing. */
    method CompleteOperation(id: string, success: bool, message: Option<string>, error: Option<ErrorInfo>)
      requires Valid()
      modifies operations.Values
      ensures id in operations ==>
        operations[id].State() == Completion(old(operations[id].State()), success, message, error)
      ensures forall k :: k in operations && k != id ==> operations[k].State() == old(operations[k].State())
    {
      if id !in operations {
        return;
      }
      var op := operations[id];
      if success {
        op.CompleteSuccess(message);
      } else if error.Some? {
        op.CompleteError(error.value);
      } else {
        op.CompleteError(ErrorInfo(OrDefault(message, "Operation failed"),
                                   Some(OrDefault(message, "The operation could not be completed."))));
      }
    }

    /** `cancel_operation`. */
    method CancelOperation(id: string)
      requires Valid()
      modifies operations.Values
      ensures id in operations ==> operations[id].State() == Cancelled(old(operations[id].State()))
      ensures forall k :: k in operations && k != id ==> operations[k].State() == old(operations[k].State())
    {
      if id in operations {
        operations[id].Cancel();
      }
    }

    /** `update_operation_progress`. */
    method UpdateOperationProgress(id: string, p: int, status: Option<string>)
      requires Valid()
      modifies operations.Values
      ensures id in operations ==>
        operations[id].State() == WithProgress(old(operations[id].State()), p, status)
      ensures forall k :: k in operations && k != id ==> operations[k].State() == old(operations[k].State())
    {
      if id in operations {
        operations[id].UpdateProgress(p, status);
      }
    }

    /** `update_operation_status`. */
    method UpdateOperationStatus(id: string, status: string)
      requires Valid()
      modifies operations.Values
      ensures id in operations ==>
        operations[id].State() == WithStatus(old(operations[id].State()), status)
      ensures forall k :: k in operations && k != id ==> operations[k].State() == old(operations[k].State())
    {
      if id in operations {
        operations[id].UpdateStatus(status);
      }
    }

    /** `_cleanup_operation`: the operation is dropped from the dictionary;
        an unknown id changes nothing. */
    method CleanupOperation(id: string)
      requires Valid()
      modifies this`operations
      ensures Valid() && operations == old(operations) - {id}
    {
      operations := operations - {id};
    }

    /** `cancel_all_operations`: every operation still active is cancelled,
        one at a time; the completed ones are left as they were. */
    method CancelAllOperations()
      requires Valid()
      modifies operations.Values
      ensures forall k :: k in operations ==> operations[k].State() == Cancelled(old(operations[k].State()))
      ensures ActiveOperations() == map[]
    {
      var pending := ActiveOperations().Keys;
      while pending != {}
        invariant pending <= operations.Keys
        invariant forall k :: k in operations && k !in pending ==>
          operations[k].State() == Cancelled(old(operations[k].State()))
        invariant forall k :: k in pending ==> operations[k].State() == old(operations[k].State())
        decreases |pending|
      {
        var k :| k in pending;
        operations[k].Cancel();
        pending := pending - {k};
      }
    }

    /** `get_active_operations`: the operations not yet completed. */
    function ActiveOperations(): (r: map<string, OperationProgress>)
      reads this, operations.Values
      ensures r.Keys <= operations.Keys
      ensures forall k :: k in operations ==> (k in r <==> !operations[k].isCompleted)
      ensures forall k :: k in r ==> r[k] == operations[k]
    {
      map k | k in operations && !operations[k].isCompleted :: operations[k]
    }
  }
}
