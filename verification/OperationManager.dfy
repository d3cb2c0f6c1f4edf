/**
 * The manager's compare-and-save loops as they run, over the store they run on.  Between a read and the save that
 * follows it another manager may move the row; `rivals` lists what it stores at each attempt.
 */
module OperationManager {
  import opened Common
  import opened OperationRecords
  import opened OperationProtocol
  import OperationStore

  /** How a call ends: its edit is stored, it leaves because of what it read, or it gives up. */
  datatype Ending = Stored(operation: Operation) | Left(decision: Decision) | Conflict

  type Rivals = seq<Option<Operation>>

  /** A rival move is offered at each of the first `n` attempts. */
  predicate Offered(rivals: Rivals, n: nat) { n <= |rivals| }

  /** An edit of a running or queued record keeps it coherent and its identity. */
  lemma EditsStayCoherent(call: Call, op: Operation, aborted: bool, now: int)
    requires Coherent(op) && DecideCall(call, Some(op), aborted, now).Issue?
    ensures var edited := DecideCall(call, Some(op), aborted, now).edited;
            Coherent(edited) && SameIdentity(op, edited) && edited.revision == op.revision
  {
  }

  /**
   * How a task ends: cancelled if it was aborted or asked to stop before its commit point, else as it did.  Its result
   * or partial result is kept, and nothing but the outcome and the times changes.
   */
  lemma CompletionMeans(read: Operation, aborted: bool, outcome: Outcome, now: int)
    ensures var op := CompleteEdit(read, aborted, outcome, now);
            && op.status == (if (aborted || read.stage == CANCELLING) && (read.cancellable || read.stage != FINALIZING)
                             then Cancelled else if outcome.Returned? then Succeeded else Failed)
            && op.progress == (if op.status.Succeeded? then 100 else read.progress)
            && op.stage == (if op.status.Succeeded? then "completed"
                            else if op.status.Cancelled? then "cancelled" else "failed")
            && op.result == (if outcome.Returned? then Some(outcome.result)
                             else if outcome.partial.Some? then outcome.partial else read.result)
            && op.error == (if op.status.Failed? && outcome.Threw? then Some(BoundedText(outcome.message, 2000))
                            else None)
            && op == read.(status := op.status, progress := op.progress, stage := op.stage, result := op.result,
                           error := op.error, finishedAt := Some(now), heartbeatAt := Some(now))
  {
  }

  lemma TerminalAs(read: Operation, aborted: bool, outcome: Outcome, now: int)
    ensures CompleteEdit(read, aborted, outcome, now).status
         == (if (aborted || read.stage == CANCELLING) && (read.cancellable || read.stage != FINALIZING) then Cancelled
             else if outcome.Returned? then Succeeded else Failed)
    ensures CompleteEdit(read, aborted, outcome, now).finishedAt == Some(now)
    ensures outcome.Returned? ==> CompleteEdit(read, aborted, outcome, now).result == Some(outcome.result)
  {
    CompletionMeans(read, aborted, outcome, now);
  }

  /**
   * What a finished call of the manager says: with `seen` the record of its last read, it left exactly as the code
   * decides on that record; or it stored that decision's edit as the next revision; or the row had moved on.
   */
  predicate Concludes(call: Call, seen: Option<Operation>, aborted: bool, now: int, ending: Ending,
                      row: Option<Operation>) {
    var d := DecideCall(call, seen, aborted, now);
    match ending
    case Left(decision) => !d.Issue? && decision == d && row == seen
    case Stored(op) => d.Issue? && seen.Some? && op == d.edited.(revision := seen.value.revision + 1) && row == Some(op)
    case Conflict => d.Issue? && row != seen
  }

  datatype RetryEnding = NotFound | NotRetryable | Unavailable | RetryConflict | StartFailed | Started(child: Operation)

  class AdminOperationManager {
    const store: OperationStore.MemoryOperationStore
    /** The controllers of the tasks this process runs; true once aborted. */
    var controllers: map<int, bool>
    /** The operations whose task this process can run again. */
    var retryTasks: set<int>

    constructor (store: OperationStore.MemoryOperationStore)
      ensures this.store == store && controllers == map[] && retryTasks == {}
    {
      this.store := store;
      this.controllers := map[];
      this.retryTasks := {};
    }

    function Row(id: int): Option<Operation>
      reads this, store
    {
      OperationStore.Row(store.operations, id)
    }

    predicate Aborted(id: int)
      reads this
    {
      id in controllers && controllers[id]
    }

    method Abort(id: int)
      modifies this`controllers
      ensures controllers == if id in old(controllers) then old(controllers)[id := true] else old(controllers)
    {
      if id in controllers { controllers := controllers[id := true]; }
    }

    /** Another manager stores what it likes as long as it is a lifecycle move; only this row changes. */
    method RivalActs(id: int, after: Option<Operation>) returns (moved: bool)
      requires store.Valid()
      modifies store
      ensures store.Valid()
      ensures moved <==> Row(id) != old(Row(id))
      ensures moved ==> Row(id) == after && LifecycleMove(old(Row(id)), after)
      ensures !moved ==> store.operations == old(store.operations)
      ensures forall other :: other != id ==> Row(other) == old(Row(other))
    {
      moved := false;
      var before := Row(id);
      if before.Some? && after != before && LifecycleMove(before, after) {
        ghost var operations := store.operations;
        store.operations := if after.Some? then store.operations[id := after.value] else store.operations - {id};
        OperationStore.KeysStayUnique(operations, store.operations);
        moved := true;
      }
    }

    /** The rival's move, if one is offered at this attempt, and then the save. */
    method SaveAgainst(edited: Operation, rivals: Rivals, attempt: nat) returns (updated: Option<Operation>)
      requires store.Valid() && Coherent(edited)
      requires edited.id in store.operations && SameIdentity(store.operations[edited.id], edited)
      requires edited.revision == store.operations[edited.id].revision
      modifies store
      ensures store.Valid()
      ensures updated.Some? ==> updated.value == edited.(revision := edited.revision + 1) && Row(edited.id) == updated
      ensures updated.Some? ==> store.operations == old(store.operations)[edited.id := updated.value]
      ensures updated.None? ==> Offered(rivals, attempt + 1) && Row(edited.id) != old(Row(edited.id))
                                && Row(edited.id) == rivals[attempt]
                                && LifecycleMove(old(Row(edited.id)), rivals[attempt])
      ensures forall other :: other != edited.id ==> Row(other) == old(Row(other))
    {
      if attempt < |rivals| {
        var moved := RivalActs(edited.id, rivals[attempt]);
      }
      updated := store.CompareAndSave(edited, edited.revision);
    }

    /**
     * Five attempts.  A record that is missing, finished or not cancellable is left alone; a queued one is cancelled on
     * the spot, a running one is asked to stop, and the controller of an accepted cancel is aborted.
     */
    method Cancel(id: int, now: int, rivals: Rivals) returns (ending: Ending, seen: Option<Operation>)
      requires store.Valid()
      modifies store, this`controllers
      ensures store.Valid() && Concludes(CancelCall, seen, false, now, ending, Row(id))
      ensures rivals == [] ==> seen == old(Row(id))
      ensures ending.Conflict? ==> Offered(rivals, 5)
      ensures !ending.Conflict? ==>
                (ending == Left(Leave(false, false)) <==>
                  seen.None? || seen.value.status.Terminal() || !seen.value.cancellable)
      ensures !ending.Conflict? && seen.Some? && seen.value.status.Queued? && seen.value.cancellable ==>
                && ending.Stored? && Row(id) == Some(ending.operation)
                && ending.operation == seen.value.(revision := seen.value.revision + 1, status := Cancelled,
                                                   stage := "cancelled", heartbeatAt := Some(now),
                                                   finishedAt := Some(now))
      ensures !ending.Conflict? && seen.Some? && seen.value.status.Running? && seen.value.cancellable ==>
                if seen.value.stage == CANCELLING then ending == Left(Leave(false, true)) && Row(id) == seen
                else && ending.Stored? && Row(id) == Some(ending.operation)
                     && ending.operation == seen.value.(revision := seen.value.revision + 1, stage := CANCELLING,
                                                        heartbeatAt := Some(now))
      ensures ending.Stored? || ending == Left(Leave(false, true)) ==> (id in old(controllers) ==> Aborted(id))
      ensures ending.Conflict? || ending == Left(Leave(false, false)) ==> controllers == old(controllers)
      ensures forall other :: other != id ==> Row(other) == old(Row(other))
    {
      seen := Row(id);
      var attempt := 0;
      while attempt < 5
        invariant attempt <= 5 && store.Valid() && controllers == old(controllers)
        invariant attempt > 0 ==> Concludes(CancelCall, seen, false, now, Conflict, Row(id)) && Offered(rivals, attempt)
        invariant attempt == 0 ==> Row(id) == old(Row(id))
        invariant forall other :: other != id ==> Row(other) == old(Row(other))
      {
        seen := Row(id);
        if seen.None? || seen.value.status.Terminal() || !seen.value.cancellable {
          return Left(Leave(false, false)), seen;
        }
        var operation := seen.value;
        if operation.status.Queued? {
          operation := operation.(status := Cancelled, stage := "cancelled", heartbeatAt := Some(now),
              finishedAt := Some(now));
        } else {
          if operation.stage == CANCELLING {
            Abort(id);
            return Left(Leave(false, true)), seen;
          }
          operation := operation.(stage := CANCELLING, heartbeatAt := Some(now));
        }
        EditsStayCoherent(CancelCall, seen.value, false, now);
        var updated := SaveAgainst(operation, rivals, attempt);
        if updated.Some? {
          Abort(id);
          return Stored(updated.value), seen;
        }
        attempt := attempt + 1;
      }
      ending := Conflict;
    }

    /**
     * Ten attempts.  An undisturbed task that is still running passes the commit point, once and for all; one that was
     * aborted, is being cancelled or is not running any more does not, and every way out but success aborts it.
     */
    method CommitPoint(id: int, now: int, rivals: Rivals) returns (ending: Ending, seen: Option<Operation>)
      requires store.Valid() && id in controllers
      modifies store, this`controllers
      ensures store.Valid() && Concludes(CommitCall, seen, old(Aborted(id)), now, ending, Row(id))
      ensures rivals == [] ==> seen == old(Row(id))
      ensures ending.Conflict? ==> Offered(rivals, 10)
      ensures !ending.Conflict? ==>
                (ending == Left(Leave(true, false)) <==>
                  old(Aborted(id)) || seen.None? || !seen.value.status.Running? || seen.value.stage == CANCELLING)
      ensures !ending.Conflict? && !old(Aborted(id)) &&
              seen.Some? && seen.value.status.Running? && seen.value.stage != CANCELLING ==>
                if !seen.value.cancellable && seen.value.stage == FINALIZING
                then ending == Left(Committed) && Row(id) == seen
                else && ending.Stored? && Row(id) == Some(ending.operation)
                     && ending.operation == seen.value.(revision := seen.value.revision + 1, cancellable := false,
                                                        stage := FINALIZING, heartbeatAt := Some(now))
      ensures ending.Stored? || ending == Left(Committed) ==> controllers == old(controllers)
      ensures ending.Conflict? || ending == Left(Leave(true, false)) ==> Aborted(id)
      ensures forall other :: other != id ==> Row(other) == old(Row(other))
    {
      seen := Row(id);
      var attempt := 0;
      while attempt < 10
        invariant attempt <= 10 && store.Valid() && controllers == old(controllers)
        invariant attempt > 0 ==>
            Concludes(CommitCall, seen, Aborted(id), now, Conflict, Row(id)) && Offered(rivals, attempt)
        invariant attempt == 0 ==> Row(id) == old(Row(id))
        invariant forall other :: other != id ==> Row(other) == old(Row(other))
      {
        seen := Row(id);
        if Aborted(id) || (seen.Some? && (seen.value.stage == CANCELLING || seen.value.status.Cancelled?)) {
          Abort(id);
          return Left(Leave(true, false)), seen;
        }
        if seen.None? || !seen.value.status.Running? {
          Abort(id);
          return Left(Leave(true, false)), seen;
        }
        if !seen.value.cancellable && seen.value.stage == FINALIZING { return Left(Committed), seen; }
        EditsStayCoherent(CommitCall, seen.value, Aborted(id), now);
        var updated := SaveAgainst(seen.value.(cancellable := false, stage := FINALIZING, heartbeatAt := Some(now)),
            rivals, attempt);
        if updated.Some? { return Stored(updated.value), seen; }
        attempt := attempt + 1;
      }
      Abort(id);
      ending := Conflict;
    }

    /** The terminal record, field by field. */
    method Finish(read: Operation, aborted: bool, outcome: Outcome, now: int) returns (current: Operation)
      ensures current == CompleteEdit(read, aborted, outcome, now)
    {
      current := read;
      var passedCommitPoint := !current.cancellable && current.stage == FINALIZING;
      var wasCancelled := !passedCommitPoint && (aborted || current.stage == CANCELLING);
      var status := if wasCancelled then Cancelled else if outcome.Returned? then Succeeded else Failed;
      current := current.(status := status,
                          progress := if status.Succeeded? then 100 else current.progress,
                          stage := if status.Succeeded? then "completed"
                                   else if status.Cancelled? then "cancelled" else "failed");
      if outcome.Returned? {
        current := current.(result := Some(outcome.result));
      } else if outcome.partial.Some? {
        current := current.(result := outcome.partial);
      }
      var failed := status.Failed? && outcome.Threw?;
      current := current.(error := if failed then Some(BoundedText(outcome.message, 2000)) else None,
                          finishedAt := Some(now), heartbeatAt := Some(now));
    }

    /** One attempt at the terminal save of the record just read. */
    method SaveFinished(read: Operation, aborted: bool, outcome: Outcome, now: int, rivals: Rivals, attempt: nat)
      returns (updated: Option<Operation>)
      requires store.Valid() && Row(read.id) == Some(read) && read.status.Running?
      modifies store
      ensures store.Valid()
      ensures updated.Some? ==>
          updated.value == CompleteEdit(read, aborted, outcome, now).(revision := read.revision + 1)
          && Row(read.id) == updated
      ensures updated.None? ==> Offered(rivals, attempt + 1) && Row(read.id) != Some(read)
      ensures forall other :: other != read.id ==> Row(other) == old(Row(other))
    {
      var current := Finish(read, aborted, outcome, now);
      EditsStayCoherent(CompleteCall(outcome), read, aborted, now);
      updated := SaveAgainst(current, rivals, attempt);
    }

    /** Ten attempts at the terminal save; a record that is not running is left alone. */
    method Complete(id: int, outcome: Outcome, now: int, rivals: Rivals)
      returns (ending: Ending, seen: Option<Operation>)
      requires store.Valid()
      modifies store
      ensures store.Valid() && Concludes(CompleteCall(outcome), seen, Aborted(id), now, ending, Row(id))
      ensures rivals == [] ==> seen == old(Row(id))
      ensures ending.Conflict? ==> Offered(rivals, 10)
      ensures !ending.Conflict? ==>
                (ending == Left(Leave(false, false)) <==> seen.None? || !seen.value.status.Running?)
      ensures !ending.Conflict? && seen.Some? && seen.value.status.Running? ==>
                && ending.Stored? && Row(id) == Some(ending.operation)
                && ending.operation.status == (if (Aborted(id) || seen.value.stage == CANCELLING) &&
                                                 (seen.value.cancellable || seen.value.stage != FINALIZING)
                                               then Cancelled else if outcome.Returned? then Succeeded else Failed)
                && ending.operation.finishedAt == Some(now) && ending.operation.revision == seen.value.revision + 1
                && (outcome.Returned? ==> ending.operation.result == Some(outcome.result))
      ensures forall other :: other != id ==> Row(other) == old(Row(other))
    {
      seen := Row(id);
      var attempt := 0;
      while attempt < 10
        invariant attempt <= 10 && store.Valid()
        invariant attempt > 0 ==>
            Concludes(CompleteCall(outcome), seen, Aborted(id), now, Conflict, Row(id)) && Offered(rivals, attempt)
        invariant attempt == 0 ==> Row(id) == old(Row(id))
        invariant forall other :: other != id ==> Row(other) == old(Row(other))
      {
        seen := Row(id);
        if seen.None? || seen.value.status.Terminal() || !seen.value.status.Running? {
          return Left(Leave(false, false)), seen;
        }
        var updated := SaveFinished(seen.value, Aborted(id), outcome, now, rivals, attempt);
        if updated.Some? {
          TerminalAs(seen.value, Aborted(id), outcome, now);
          return Stored(updated.value), seen;
        }
        attempt := attempt + 1;
      }
      ending := Conflict;
    }

    /** A single attempt: a changed record or a lost save stops the task. */
    method Report(id: int, percent: Option<real>, text: string, now: int, rivals: Rivals)
      returns (ending: Ending, seen: Option<Operation>)
      requires store.Valid() && id in controllers
      modifies store, this`controllers
      ensures store.Valid() && Concludes(ReportCall(percent, text), seen, old(Aborted(id)), now, ending, Row(id))
      ensures seen == old(Row(id)) && (ending.Conflict? ==> Offered(rivals, 1))
      ensures ending == Left(Leave(true, false)) <==>
                seen.None? || !seen.value.status.Running? || seen.value.stage == CANCELLING
      ensures ending.Stored? ==>
                ending.operation == seen.value.(revision := seen.value.revision + 1, progress := ClampProgress(percent),
                                                stage := BoundedText(text, 120), heartbeatAt := Some(now))
      ensures ending.Stored? ==> controllers == old(controllers)
      ensures !ending.Stored? ==> Aborted(id)
      ensures forall other :: other != id ==> Row(other) == old(Row(other))
    {
      seen := Row(id);
      if seen.None? || !seen.value.status.Running? || seen.value.stage == CANCELLING {
        Abort(id);
        return Left(Leave(true, false)), seen;
      }
      EditsStayCoherent(ReportCall(percent, text), seen.value, Aborted(id), now);
      var updated := SaveAgainst(
        seen.value.(progress := ClampProgress(percent), stage := BoundedText(text, 120), heartbeatAt := Some(now)),
        rivals, 0);
      if updated.Some? { return Stored(updated.value), seen; }
      Abort(id);
      ending := Conflict;
    }

    /** Claiming a queued operation registers its controller; nothing else does. */
    method Claim(id: int, now: int, rivals: Rivals) returns (ending: Ending, seen: Option<Operation>)
      requires store.Valid()
      modifies store, this`controllers
      ensures store.Valid() && Concludes(ClaimCall, seen, false, now, ending, Row(id))
      ensures seen == old(Row(id)) && (ending.Conflict? ==> Offered(rivals, 1))
      ensures ending == Left(Leave(false, false)) <==> seen.None? || !seen.value.status.Queued?
      ensures ending.Stored? ==>
                ending.operation == seen.value.(revision := seen.value.revision + 1, status := Running,
                                                stage := "running", startedAt := Some(now), heartbeatAt := Some(now))
      ensures controllers == if ending.Stored? then old(controllers)[id := false] else old(controllers)
      ensures forall other :: other != id ==> Row(other) == old(Row(other))
    {
      seen := Row(id);
      if seen.None? || !seen.value.status.Queued? { return Left(Leave(false, false)), seen; }
      EditsStayCoherent(ClaimCall, seen.value, false, now);
      var updated := SaveAgainst(
        seen.value.(status := Running, stage := "running", startedAt := Some(now), heartbeatAt := Some(now)),
        rivals, 0);
      if updated.None? { return Conflict, seen; }
      controllers := controllers[id := false];
      ending := Stored(updated.value);
    }

    /** A running operation that is not being cancelled shows a sign of life; else its controller is aborted. */
    method TouchHeartbeat(id: int, now: int, rivals: Rivals) returns (ending: Ending, seen: Option<Operation>)
      requires store.Valid()
      modifies store, this`controllers
      ensures store.Valid() && Concludes(HeartbeatCall, seen, false, now, ending, Row(id))
      ensures seen == old(Row(id)) && (ending.Conflict? ==> Offered(rivals, 1))
      ensures ending == Left(Leave(false, true)) <==>
                seen.None? || !seen.value.status.Running? || seen.value.stage == CANCELLING
      ensures ending.Stored? ==>
                ending.operation == seen.value.(revision := seen.value.revision + 1, heartbeatAt := Some(now))
      ensures ending.Stored? ==> controllers == old(controllers)
      ensures !ending.Stored? && id in old(controllers) ==> Aborted(id)
      ensures forall other :: other != id ==> Row(other) == old(Row(other))
    {
      seen := Row(id);
      if seen.None? || !seen.value.status.Running? || seen.value.stage == CANCELLING {
        Abort(id);
        return Left(Leave(false, true)), seen;
      }
      EditsStayCoherent(HeartbeatCall, seen.value, false, now);
      var updated := SaveAgainst(seen.value.(heartbeatAt := Some(now)), rivals, 0);
      if updated.Some? { return Stored(updated.value), seen; }
      Abort(id);
      ending := Conflict;
    }

    /** A queued operation that could not be claimed is failed for good. */
    method MarkStartFailure(id: int, reason: string, now: int, rivals: Rivals)
      returns (ending: Ending, seen: Option<Operation>)
      requires store.Valid()
      modifies store
      ensures store.Valid() && Concludes(StartFailureCall(reason), seen, false, now, ending, Row(id))
      ensures seen == old(Row(id)) && (ending.Conflict? ==> Offered(rivals, 1))
      ensures ending == Left(Leave(false, false)) <==> seen.None? || !seen.value.status.Queued?
      ensures ending.Stored? ==>
                ending.operation == seen.value.(revision := seen.value.revision + 1, status := Failed,
                                                stage := "failed", error := Some(BoundedText(reason, 2000)),
                                                cancellable := false,
                                                retryable := false, finishedAt := Some(now), heartbeatAt := Some(now))
      ensures forall other :: other != id ==> Row(other) == old(Row(other))
    {
      seen := Row(id);
      if seen.None? || !seen.value.status.Queued? { return Left(Leave(false, false)), seen; }
      EditsStayCoherent(StartFailureCall(reason), seen.value, false, now);
      var updated := SaveAgainst(
        seen.value.(status := Failed, stage := "failed", error := Some(BoundedText(reason, 2000)), cancellable := false,
                    retryable := false, finishedAt := Some(now), heartbeatAt := Some(now)), rivals, 0);
      ending := if updated.Some? then Stored(updated.value) else Conflict;
    }

    /** Returns the flag that was taken from a finished record, unless retention prunes the record meanwhile. */
    method GiveBack(id: int, retryable: bool, rivals: Rivals)
      requires store.Valid() && id in store.operations
      requires store.operations[id].status.Terminal() && !store.operations[id].retryable
      modifies store
      ensures store.Valid()
      ensures Row(id) == Some(NextRevision(old(store.operations[id]), 1, retryable)) ||
          (Row(id).None? && Offered(rivals, 2))
      ensures forall other :: other != id ==> Row(other) == old(Row(other))
    {
      var latest := Row(id);
      if latest.Some? && !latest.value.retryable {
        var returned := SaveAgainst(latest.value.(retryable := retryable), rivals, 1);
        if returned.None? { TerminalIsOnlyPruned(latest.value, rivals[1]); }
      }
    }

    /**
     * Takes the retry flag, then starts a child.  A start that fails gives the flag back, unless retention pruned the
     * record meanwhile; an automatic retry whose task is gone forfeits the flag; a record that moved before the flag
     * could be taken is a conflict.
     */
    method Retry(id: int, explicitTask: bool, childId: int, now: int, starts: bool, rivals: Rivals)
      returns (ending: RetryEnding)
      requires store.Valid() && childId !in store.operations
      modifies store, this`retryTasks
      ensures store.Valid()
      ensures ending.NotFound? <==> old(Row(id)).None?
      ensures ending.NotRetryable? <==> id in old(store.operations)
                                        && !old(store.operations[id]).status.Failed?
                                        && !old(store.operations[id]).status.Cancelled?
      ensures (ending.Started? ==> starts) && (ending.StartFailed? ==> !starts)
      ensures rivals == [] && id in old(store.operations) &&
              (old(store.operations[id]).status.Failed? || old(store.operations[id]).status.Cancelled?) ==>
                if explicitTask || (old(store.operations[id]).retryable && id in old(retryTasks))
                then if starts then ending.Started? else ending.StartFailed?
                else && ending.Unavailable?
                     && Row(id) == Some(if old(store.operations[id]).retryable
                                        then NextRevision(old(store.operations[id]), 1, false)
                                        else old(store.operations[id]))
      ensures ending.NotFound? || ending.NotRetryable? ==> store.operations == old(store.operations)
      ensures ending.Unavailable? ==>
                var read := old(store.operations[id]);
                && !explicitTask
                && (id in old(retryTasks) ==> !read.retryable)
                && (Row(id) == Some(read) || Row(id) == Some(NextRevision(read, 1, false)) || Offered(rivals, 1))
      ensures ending.RetryConflict? ==> Offered(rivals, 1) && Row(id) != old(Row(id)) && Row(id) == rivals[0]
      ensures ending.StartFailed? ==>
                var read := old(store.operations[id]);
                && retryTasks == old(retryTasks)
                && (Row(id) == Some(NextRevision(read, 2, read.retryable)) || (Row(id).None? && Offered(rivals, 2)))
      ensures ending.Started? ==>
                var read := old(store.operations[id]);
                && ending.child == NewOperation(childId, read.actor, None, read.request, Some(id),
                                                read.cancellable, read.retryable, now)
                && store.operations
                     == old(store.operations)[id := NextRevision(read, 1, false)][childId := ending.child]
                && retryTasks == old(retryTasks) + (if read.retryable then {childId} else {}) - {id}
      ensures forall other :: other != id && other != childId ==> Row(other) == old(Row(other))
    {
      var read := Row(id);
      if read.None? { return NotFound; }
      var operation := read.value;
      if !operation.status.Failed? && !operation.status.Cancelled? { return NotRetryable; }
      if !operation.retryable && !explicitTask { return Unavailable; }
      if !explicitTask && id !in retryTasks {
        var forfeited := SaveAgainst(operation.(retryable := false), rivals, 0);
        return Unavailable;
      }
      var taken := SaveAgainst(operation.(retryable := false), rivals, 0);
      if taken.None? { return RetryConflict; }
      assert taken == Some(NextRevision(operation, 1, false));
      if starts {
        var child := NewOperation(childId, operation.actor, None, operation.request, Some(id),
                                  operation.cancellable, operation.retryable, now);
        var saved, isNew := store.CreateOperation(child);
        if operation.retryable { retryTasks := retryTasks + {childId}; }
        retryTasks := retryTasks - {id};
        return Started(saved);
      }
      GiveBack(id, operation.retryable, rivals);
      ending := StartFailed;
    }
  }

  /** A rival can only prune a terminal record. */
  lemma TerminalIsOnlyPruned(op: Operation, after: Option<Operation>)
    requires op.status.Terminal() && LifecycleMove(Some(op), after) && after != Some(op)
    ensures after.None?
  {
  }

  function NextRevision(op: Operation, saves: nat, retryable: bool): Operation {
    op.(revision := op.revision + saves, retryable := retryable)
  }
}
