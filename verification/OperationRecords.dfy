/** The durable record of one administrator operation and the edits made to it. */
module OperationRecords {
  import opened Common

  datatype Status = Queued | Running | Succeeded | Failed | Cancelled {
    predicate Terminal() { Succeeded? || Failed? || Cancelled? }
  }

  /** Ids, actors, times and results are abstract integers; stages and errors are text. */
  datatype Operation = Operation(
    id: int,
    revision: nat,
    actor: int,
    idempotencyKey: Option<int>,
    request: int,
    retryOf: Option<int>,
    status: Status,
    progress: int,
    stage: string,
    cancellable: bool,
    retryable: bool,
    result: Option<int>,
    error: Option<string>,
    createdAt: int,
    startedAt: Option<int>,
    heartbeatAt: Option<int>,
    finishedAt: Option<int>)

  datatype Outcome =
    | Returned(result: int)
    | Threw(message: string, partial: Option<int>)

  const CANCELLING := "cancelling"
  const FINALIZING := "finalizing"

  // ----- text and progress helpers -----

  /** Trimmed and cut to the maximum; never empty. */
  function BoundedText(s: string, maximum: nat): (r: string)
    requires maximum > 0
    ensures r != "" && (|r| <= maximum || r == "unknown")
    ensures s != "" && !IsSpace(s[0]) && !IsSpace(s[|s| - 1]) ==> r == if |s| > maximum then s[..maximum] else s
  {
    var t := TrimEnd(TrimStart(s));
    var cut := if |t| > maximum then t[..maximum] else t;
    if cut == "" then "unknown" else cut
  }

  /** `None` stands for a progress value that is not a finite number. */
  function ClampProgress(value: Option<real>): (r: int)
    ensures 0 <= r <= 99
    ensures value.None? ==> r == 0
    ensures value.Some? && 0.0 <= value.value <= 99.0 ==> r as real - 0.5 <= value.value < r as real + 0.5
    ensures value.Some? ==> (value.value < 0.0 ==> r == 0) && (value.value > 99.0 ==> r == 99)
  {
    match value
    case None => 0
    case Some(x) =>
      var rounded := (x + 0.5).Floor;
      if rounded < 0 then 0 else if rounded > 99 then 99 else rounded
  }

  /** The stage word by which the manager itself marks an accepted cancel. */
  predicate Reserved(stage: string) {
    BoundedText(stage, 120) == CANCELLING
  }

  // ----- edits applied to a record that was just read -----

  function CancelEdit(op: Operation, now: int): Operation {
    if op.status.Queued? then
      op.(status := Cancelled, stage := "cancelled", heartbeatAt := Some(now), finishedAt := Some(now))
    else
      op.(stage := CANCELLING, heartbeatAt := Some(now))
  }

  function ClaimEdit(op: Operation, now: int): Operation {
    op.(status := Running, stage := "running", startedAt := Some(now), heartbeatAt := Some(now))
  }

  function ReportEdit(op: Operation, progress: Option<real>, stage: string, now: int): Operation {
    op.(progress := ClampProgress(progress), stage := BoundedText(stage, 120), heartbeatAt := Some(now))
  }

  function CommitEdit(op: Operation, now: int): Operation {
    op.(cancellable := false, stage := FINALIZING, heartbeatAt := Some(now))
  }

  predicate PassedCommitPoint(op: Operation) {
    !op.cancellable && op.stage == FINALIZING
  }

  predicate WasCancelled(op: Operation, aborted: bool) {
    !PassedCommitPoint(op) && (aborted || op.stage == CANCELLING)
  }

  function CompleteEdit(op: Operation, aborted: bool, outcome: Outcome, now: int): Operation {
    var status := if WasCancelled(op, aborted) then Cancelled
                  else if outcome.Returned? then Succeeded else Failed;
    op.(status := status,
        progress := if status == Succeeded then 100 else op.progress,
        stage := match status case Succeeded => "completed" case Cancelled => "cancelled" case _ => "failed",
        result := match outcome
                  case Returned(r) => Some(r)
                  case Threw(_, partial) => if partial.Some? then partial else op.result,
        error := if status == Failed && outcome.Threw? then Some(BoundedText(outcome.message, 2000)) else None,
        finishedAt := Some(now),
        heartbeatAt := Some(now))
  }

  function HeartbeatEdit(op: Operation, now: int): Operation {
    op.(heartbeatAt := Some(now))
  }

  function StartFailureEdit(op: Operation, message: string, now: int): Operation {
    op.(status := Failed, stage := "failed", error := Some(BoundedText(message, 2000)),
        cancellable := false, retryable := false, finishedAt := Some(now), heartbeatAt := Some(now))
  }

  function RecoverEdit(op: Operation, finishedAt: int): Operation {
    op.(revision := op.revision + 1, status := Failed, stage := "interrupted",
        error := Some("portal_restarted"), cancellable := false, retryable := false,
        heartbeatAt := Some(finishedAt), finishedAt := Some(finishedAt))
  }

  function LastSign(op: Operation): int {
    if op.heartbeatAt.Some? then op.heartbeatAt.value
    else if op.startedAt.Some? then op.startedAt.value
    else op.createdAt
  }

  predicate Stale(op: Operation, cutoff: int) {
    !op.status.Terminal() && LastSign(op) <= cutoff
  }

  predicate Expired(op: Operation, cutoff: int) {
    op.status.Terminal() && (if op.finishedAt.Some? then op.finishedAt.value else op.createdAt) < cutoff
  }

  // ----- what a store call does to one row -----

  /** Compare-and-save: it takes effect only while the row still has the revision that was read. */
  function SaveRow(row: Option<Operation>, edited: Operation, expected: nat): Option<Operation> {
    if row.Some? && row.value.revision == expected then Some(edited.(revision := expected + 1)) else row
  }

  function RecoverRow(row: Option<Operation>, cutoff: int, at: int): Option<Operation> {
    if row.Some? && Stale(row.value, cutoff) then Some(RecoverEdit(row.value, at)) else row
  }

  function PruneRow(row: Option<Operation>, cutoff: int): Option<Operation> {
    if row.Some? && Expired(row.value, cutoff) then None else row
  }

  // ----- what every stored record satisfies -----

  /** Progress is 100 exactly on success, an error exactly on failure, a finish time exactly when terminal. */
  predicate Coherent(op: Operation) {
    && 0 <= op.progress <= 100
    && (op.progress == 100 <==> op.status.Succeeded?)
    && (op.error.Some? <==> op.status.Failed?)
    && (op.finishedAt.Some? <==> op.status.Terminal())
    && (op.status.Queued? ==> op.stage == "queued" && op.startedAt.None?)
    && (op.status.Running? ==> op.startedAt.Some?)
  }

  /** The fields fixed when the operation is created. */
  predicate SameIdentity(a: Operation, b: Operation) {
    && a.id == b.id && a.actor == b.actor && a.idempotencyKey == b.idempotencyKey
    && a.request == b.request && a.retryOf == b.retryOf && a.createdAt == b.createdAt
  }

  function NewOperation(id: int, actor: int, key: Option<int>, request: int, retryOf: Option<int>,
                        cancellable: bool, retryable: bool, createdAt: int): (op: Operation)
    ensures Coherent(op)
  {
    Operation(id, 1, actor, key, request, retryOf, Queued, 0, "queued", cancellable, retryable,
              None, None, createdAt, None, None, None)
  }

  /**
   * How anything but a retry may move a row: leave it, prune it once terminal, or store the next
   * revision of a record that was not terminal, never granting a retry or a cancellation back.
   */
  predicate LifecycleMove(before: Option<Operation>, after: Option<Operation>) {
    || before == after
    || (before.Some? && after.None? && before.value.status.Terminal())
    || (before.Some? && after.Some?
        && !before.value.status.Terminal()
        && after.value.revision == before.value.revision + 1
        && SameIdentity(before.value, after.value)
        && (after.value.cancellable ==> before.value.cancellable)
        && (after.value.retryable ==> before.value.retryable)
        && Coherent(after.value))
  }
}
