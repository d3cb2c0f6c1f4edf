/**
 * That the calls of a manager take effect: in any world, a call whose five steps run in a row does what an
 * administrator or a task expects of it, and refuses exactly when it should.
 */
module OperationProgress {
  import opened Common
  import opened OperationRecords
  import opened OperationProtocol
  import opened OperationSafety

  /** The steps are those of one call: all five, or only the first three if the call leaves without a save. */
  predicate OneCall(steps: seq<Step>, m: int, call: Call, now: int) {
    steps == WholeCall(m, call, now) || steps == [Begin(m, call), Read(m), Decide(m, now)]
  }

  /** Whatever the call finds, its steps can run in a row; they end it with its edit stored or with what it leaves. */
  lemma RunsAlone(w: World, m: int, call: Call, now: int) returns (steps: seq<Step>, w2: World)
    requires Enabled(w, Begin(m, call))
    ensures OneCall(steps, m, call, now) && Play(w, steps) == Some(w2)
    ensures var d := DecideCall(call, w.row, w.aborted, now);
            if d.Issue? then w.row.Some? && w2 == Stored(w, m, call, d.edited)
            else if d.Leave? then w2 == w.(aborted := w.aborted || d.abort || (d.kill && Reaches(w, m)))
            else w2 == w.(log := w.log.(committed := true))
  {
    if DecideCall(call, w.row, w.aborted, now).Issue? {
      steps := WholeCall(m, call, now);
      UndisturbedCall(w, m, call, now);
    } else {
      steps := [Begin(m, call), Read(m), Decide(m, now)];
      ReadAndDecide(w, m, call, now);
      assert w.sections[m := Section(call, 0, HaveRead(w.row))] - {m} == w.sections;
    }
    w2 := Play(w, steps).value;
  }

  /**
   * A cancel of a missing, finished or not cancellable operation changes nothing.  A queued operation is cancelled on
   * the spot; a running one is asked to stop, and if this manager runs it, its controller is aborted.
   */
  lemma CancelTakesEffect(w: World, m: int, now: int) returns (steps: seq<Step>, w2: World)
    requires m !in w.sections
    ensures OneCall(steps, m, CancelCall, now) && Play(w, steps) == Some(w2) && w2.sections == w.sections
    ensures w2 == w.(row := w2.row, aborted := w2.aborted, log := w2.log) && w2.log.claims == w.log.claims
    ensures w.row.None? || w.row.value.status.Terminal() || !w.row.value.cancellable ==> w2 == w
    ensures w.row.Some? && w.row.value.status.Queued? && w.row.value.cancellable ==>
              && w2.row == Some(w.row.value.(revision := w.row.value.revision + 1, status := Cancelled,
                                             stage := "cancelled", heartbeatAt := Some(now), finishedAt := Some(now)))
              && w2.log.cancelled && w2.log.queuedCancel
    ensures w.row.Some? && w.row.value.status.Running? && w.row.value.cancellable ==>
              && w2.row == (if w.row.value.stage == CANCELLING then w.row
                            else Some(w.row.value.(revision := w.row.value.revision + 1, stage := CANCELLING,
                                                   heartbeatAt := Some(now))))
              && (w.row.value.stage != CANCELLING ==> w2.log.cancelled)
              && (w.registered && w.claimedBy == Some(m) ==> w2.aborted)
  {
    steps, w2 := RunsAlone(w, m, CancelCall, now);
  }

  /** Exactly a queued operation is claimed, and its task starts under this manager. */
  lemma ClaimTakesEffect(w: World, m: int, now: int) returns (steps: seq<Step>, w2: World)
    requires m !in w.sections
    ensures OneCall(steps, m, ClaimCall, now) && Play(w, steps) == Some(w2) && w2.sections == w.sections
    ensures w.row.None? || !w.row.value.status.Queued? ==> w2 == w
    ensures w.row.Some? && w.row.value.status.Queued? ==>
              && w2.row == Some(w.row.value.(revision := w.row.value.revision + 1, status := Running,
                                             stage := "running", startedAt := Some(now), heartbeatAt := Some(now)))
              && w2.claimedBy == Some(m) && w2.started && w2.registered && w2.log.claims == w.log.claims + 1
              && w2.aborted == w.aborted
  {
    steps, w2 := RunsAlone(w, m, ClaimCall, now);
  }

  /** The task of this manager may make calls and no other call of it is under way. */
  predicate Executes(w: World, m: int) { m !in w.sections && w.claimedBy == Some(m) && w.started }

  /** A report of a running task is stored unless the operation is being cancelled; else the task is aborted. */
  lemma ReportTakesEffect(w: World, m: int, percent: Option<real>, text: string, now: int)
    returns (steps: seq<Step>, w2: World)
    requires Executes(w, m)
    ensures OneCall(steps, m, ReportCall(percent, text), now) && Play(w, steps) == Some(w2) && w2.sections == w.sections
    ensures if w.row.None? || !w.row.value.status.Running? || w.row.value.stage == CANCELLING
            then w2 == w.(aborted := true)
            else && w2.row == Some(w.row.value.(revision := w.row.value.revision + 1,
                                                progress := ClampProgress(percent), stage := BoundedText(text, 120),
                                                heartbeatAt := Some(now)))
                 && w2 == w.(row := w2.row)
  {
    steps, w2 := RunsAlone(w, m, ReportCall(percent, text), now);
  }

  /**
   * An undisturbed running task passes its commit point, after which it can no longer be cancelled; an aborted one, one
   * that is being cancelled and one that is not running any more do not, and are aborted.
   */
  lemma CommitTakesEffect(w: World, m: int, now: int) returns (steps: seq<Step>, w2: World)
    requires Executes(w, m)
    ensures OneCall(steps, m, CommitCall, now) && Play(w, steps) == Some(w2) && w2.sections == w.sections
    ensures if w.aborted || w.row.None? || !w.row.value.status.Running? || w.row.value.stage == CANCELLING
            then w2 == w.(aborted := true)
            else && w2 == w.(row := w2.row, log := w.log.(committed := true))
                 && w2.row.Some? && !w2.row.value.cancellable
                 && w2.row == (if !w.row.value.cancellable && w.row.value.stage == FINALIZING then w.row
                               else Some(w.row.value.(revision := w.row.value.revision + 1, cancellable := false,
                                                      stage := FINALIZING, heartbeatAt := Some(now))))
  {
    steps, w2 := RunsAlone(w, m, CommitCall, now);
  }

  /** The end of a running task is stored, and says cancelled exactly if it was stopped before its commit point. */
  lemma CompletionTakesEffect(w: World, m: int, outcome: Outcome, now: int) returns (steps: seq<Step>, w2: World)
    requires Executes(w, m)
    ensures OneCall(steps, m, CompleteCall(outcome), now) && Play(w, steps) == Some(w2) && w2.sections == w.sections
    ensures w.row.None? || !w.row.value.status.Running? ==> w2 == w
    ensures w.row.Some? && w.row.value.status.Running? ==>
              && w2 == w.(row := w2.row) && w2.row.Some? && w2.row.value.revision == w.row.value.revision + 1
              && w2.row.value.finishedAt == Some(now)
              && w2.row.value.status == (if (w.aborted || w.row.value.stage == CANCELLING) &&
                                           (w.row.value.cancellable || w.row.value.stage != FINALIZING)
                                         then Cancelled else if outcome.Returned? then Succeeded else Failed)
              && (outcome.Returned? ==> w2.row.value.result == Some(outcome.result))
  {
    steps, w2 := RunsAlone(w, m, CompleteCall(outcome), now);
  }

  /** A heartbeat of a running operation shows in its record and nowhere else. */
  lemma HeartbeatTakesEffect(w: World, m: int, now: int) returns (steps: seq<Step>, w2: World)
    requires Executes(w, m)
    ensures OneCall(steps, m, HeartbeatCall, now) && Play(w, steps) == Some(w2) && w2.sections == w.sections
    ensures if w.row.None? || !w.row.value.status.Running? || w.row.value.stage == CANCELLING
            then w2 == w.(aborted := w.aborted || w.registered)
            else w2 == w.(row := Some(w.row.value.(revision := w.row.value.revision + 1, heartbeatAt := Some(now))))
  {
    steps, w2 := RunsAlone(w, m, HeartbeatCall, now);
  }

  /** A manager whose claim hit a store fault fails the operation for good if it still waits, and only then. */
  lemma StartFailureTakesEffect(w: World, m: int, reason: string, now: int) returns (steps: seq<Step>, w2: World)
    requires m !in w.sections && m in w.claimFaults
    ensures OneCall(steps, m, StartFailureCall(reason), now) && Play(w, steps) == Some(w2)
    ensures if w.row.None? || !w.row.value.status.Queued? then w2 == w
            else && w2.row == Some(w.row.value.(revision := w.row.value.revision + 1, status := Failed,
                                                stage := "failed", error := Some(BoundedText(reason, 2000)),
                                                cancellable := false,
                                                retryable := false, finishedAt := Some(now), heartbeatAt := Some(now)))
                 && w2 == w.(row := w2.row)
  {
    steps, w2 := RunsAlone(w, m, StartFailureCall(reason), now);
  }

  /** A lost save is followed by another attempt exactly while fewer were lost than the call may lose. */
  lemma LostSavesAreRetried(w: World, m: int)
    requires Enabled(w, Finish(m)) && !w.sections[m].wait.saved
    ensures var sec := w.sections[m];
            var limit := if sec.call.CancelCall? then 5
                         else if sec.call.CommitCall? || sec.call.CompleteCall? then 10 else 1;
            var w2 := Apply(w, Finish(m));
            if sec.attempt + 1 < limit
            then w2 == w.(sections := w.sections[m := Section(sec.call, sec.attempt + 1, WantRead)])
            else m !in w2.sections
  {
  }

  /**
   * Recovery fails exactly a record that waits or runs and shows no sign of life since the cutoff, and aborts the task
   * if this manager runs it.
   */
  lemma RecoveryTakesEffect(w: World, m: int, cutoff: int, now: int) returns (steps: seq<Step>, w2: World)
    ensures Recover(m, cutoff, now) in steps && Play(w, steps) == Some(w2)
    ensures if w.row.Some? && (w.row.value.status.Queued? || w.row.value.status.Running?) &&
               w.row.value.heartbeatAt.GetOr(w.row.value.startedAt.GetOr(w.row.value.createdAt)) <= cutoff
            then && w2.row == Some(w.row.value.(revision := w.row.value.revision + 1, status := Failed,
                                                stage := "interrupted", error := Some("portal_restarted"),
                                                cancellable := false, retryable := false,
                                                heartbeatAt := Some(now), finishedAt := Some(now)))
                 && w2.aborted == (w.aborted || (w.registered && w.claimedBy == Some(m)))
            else w2 == w
  {
    var recover := Recover(m, cutoff, now);
    var w1 := Apply(w, recover);
    PlayOne(w, recover);
    if w1.row == w.row {
      steps, w2 := [recover], w1;
    } else {
      w2 := Apply(w1, RecoverAbort(m));
      PlayOne(w1, RecoverAbort(m));
      PlayConcat(w, [recover], [RecoverAbort(m)]);
      steps := [recover] + [RecoverAbort(m)];
    }
  }

  /** Pruning removes exactly a record that finished before the cutoff. */
  lemma PruningTakesEffect(w: World, cutoff: int)
    ensures Play(w, [Prune(cutoff)]) == Some(
              if w.row.Some? && !w.row.value.status.Queued? && !w.row.value.status.Running? &&
                 w.row.value.finishedAt.GetOr(w.row.value.createdAt) < cutoff
              then w.(row := None) else w)
  {
    PlayOne(w, Prune(cutoff));
  }

  // ----- whole lives -----

  /** A fresh operation that nobody disturbs runs, passes its commit point and ends as its task does. */
  lemma UndisturbedTaskSucceeds(op: Operation, m: int, result: int, now: int) returns (steps: seq<Step>, w: World)
    requires Fresh(op)
    ensures Play(Initial(op), steps) == Some(w)
    ensures w.row.Some? && w.row.value.status.Succeeded? && w.row.value.result == Some(result) && w.log.committed
  {
    assert "running"[0] != CANCELLING[0];
    var claim, w1 := ClaimTakesEffect(Initial(op), m, now);
    var commit, w2 := CommitTakesEffect(w1, m, now);
    var complete, w3 := CompletionTakesEffect(w2, m, Returned(result), now);
    w := w3;
    PlayConcat(Initial(op), claim, commit);
    PlayConcat(Initial(op), claim + commit, complete);
    steps := claim + commit + complete;
  }

  /**
   * A cancellable operation whose task runs elsewhere ends cancelled once another manager has cancelled it, whatever
   * the task returns.
   */
  lemma CancelledTaskEndsCancelled(op: Operation, m: int, other: int, outcome: Outcome, now: int)
    returns (steps: seq<Step>, w: World)
    requires Fresh(op) && op.cancellable
    ensures Play(Initial(op), steps) == Some(w)
    ensures w.row.Some? && w.row.value.status.Cancelled? && w.row.value.finishedAt == Some(now) && w.log.cancelled
  {
    assert "running"[0] != CANCELLING[0] && CANCELLING[0] != FINALIZING[0];
    var claim, w1 := ClaimTakesEffect(Initial(op), m, now);
    var cancel, w2 := CancelTakesEffect(w1, other, now);
    var complete, w3 := CompletionTakesEffect(w2, m, outcome, now);
    w := w3;
    PlayConcat(Initial(op), claim, cancel);
    PlayConcat(Initial(op), claim + cancel, complete);
    steps := claim + cancel + complete;
  }

  /** A cancellable operation that is cancelled while it waits never starts, also if a manager tries to claim it. */
  lemma CancelledWhileQueuedNeverStarts(op: Operation, m: int, now: int) returns (steps: seq<Step>, w: World)
    requires Fresh(op) && op.cancellable
    ensures Play(Initial(op), steps) == Some(w)
    ensures w.row.Some? && w.row.value.status.Cancelled? && w.log.claims == 0 && !w.started
  {
    var cancel, w1 := CancelTakesEffect(Initial(op), m, now);
    var claim, w2 := ClaimTakesEffect(w1, m, now);
    w := w2;
    PlayConcat(Initial(op), cancel, claim);
    steps := cancel + claim;
  }
}
