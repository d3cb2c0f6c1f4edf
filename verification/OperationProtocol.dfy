/**
 * One durable operation shared by any number of managers.  Every await point of
 * a manager is a separate step: a store read answers, the code after it runs, a
 * compare-and-save takes effect, the code after that runs.  Steps of different
 * managers, of stale recovery, of retention pruning and of retries interleave
 * freely; inside one manager the transition lock admits one section at a time.
 */
module OperationProtocol {
  import opened Common
  import opened OperationRecords

  datatype Call =
    | CancelCall
    | ClaimCall
    | ReportCall(percent: Option<real>, text: string)
    | CommitCall
    | CompleteCall(outcome: Outcome)
    | HeartbeatCall
    | StartFailureCall(reason: string)

  datatype Wait =
    | WantRead
    | HaveRead(read: Option<Operation>)
    | WantWrite(snap: Operation, edited: Operation)
    | HaveWrite(saved: bool)

  /** A manager inside its transition lock; `attempt` counts failed saves of this call. */
  datatype Section = Section(call: Call, attempt: nat, wait: Wait)

  /** Facts about the past that the theorems speak of; no step looks at them. */
  datatype Log = Log(
    claims: nat,
    queuedCancel: bool,
    cancelled: bool,
    committed: bool,
    completeExhausted: bool,
    commitExhausted: bool)

  datatype World = World(
    row: Option<Operation>,
    sections: map<int, Section>,
    claimedBy: Option<int>,
    started: bool,
    registered: bool,
    aborted: bool,
    claimFaults: set<int>,
    recoverAborts: set<int>,
    log: Log)

  datatype Step =
    | Begin(m: int, call: Call)
    | Read(m: int)
    | Decide(m: int, now: int)
    | Write(m: int)
    | Finish(m: int)
    | StoreFault(m: int)
    | Unregister
    | Recover(m: int, cutoff: int, at: int)
    | RecoverAbort(m: int)
    | Prune(cutoff: int)
    | RetryWrite(retryable: bool)

  function Initial(op: Operation): World
    requires Fresh(op)
  {
    World(Some(op), map[], None, false, false, false, {}, {}, Log(0, false, false, false, false, false))
  }

  // ----- the code between two awaits -----

  /** `abort` is `controller.abort()`; `kill` is an abort through the manager's controller table. */
  datatype Decision =
    | Leave(abort: bool, kill: bool)
    | Committed
    | Issue(edited: Operation)

  function DecideCancel(read: Option<Operation>, now: int): Decision {
    if read.None? || read.value.status.Terminal() then Leave(false, false)
    else if !read.value.cancellable then Leave(false, false)
    else if read.value.status.Running? && read.value.stage == CANCELLING then Leave(false, true)
    else Issue(CancelEdit(read.value, now))
  }

  function DecideCommit(read: Option<Operation>, aborted: bool, now: int): Decision {
    if aborted || (read.Some? && (read.value.stage == CANCELLING || read.value.status.Cancelled?))
    then Leave(true, false)
    else if read.None? || !read.value.status.Running? then Leave(true, false)
    else if PassedCommitPoint(read.value) then Committed
    else Issue(CommitEdit(read.value, now))
  }

  function DecideCall(call: Call, read: Option<Operation>, aborted: bool, now: int): Decision {
    match call
    case CancelCall => DecideCancel(read, now)
    case ClaimCall =>
      if read.None? || !read.value.status.Queued? then Leave(false, false) else Issue(ClaimEdit(read.value, now))
    case ReportCall(percent, text) =>
      if read.None? || !read.value.status.Running? || read.value.stage == CANCELLING then Leave(true, false)
      else Issue(ReportEdit(read.value, percent, text, now))
    case CommitCall => DecideCommit(read, aborted, now)
    case CompleteCall(outcome) =>
      if read.None? || !read.value.status.Running? then Leave(false, false)
      else Issue(CompleteEdit(read.value, aborted, outcome, now))
    case HeartbeatCall =>
      if read.None? || !read.value.status.Running? || read.value.stage == CANCELLING then Leave(false, true)
      else Issue(HeartbeatEdit(read.value, now))
    case StartFailureCall(reason) =>
      if read.None? || !read.value.status.Queued? then Leave(false, false)
      else Issue(StartFailureEdit(read.value, reason, now))
  }

  function Attempts(call: Call): nat {
    match call
    case CancelCall => 5
    case CommitCall => 10
    case CompleteCall(_) => 10
    case _ => 1
  }

  // ----- steps -----

  predicate ExecutorCall(call: Call) {
    call.ReportCall? || call.CommitCall? || call.CompleteCall? || call.HeartbeatCall?
  }

  /** What the protocol allows, for any task. */
  predicate Enabled(w: World, s: Step) {
    match s
    case Begin(m, call) =>
      && m !in w.sections
      && (ExecutorCall(call) ==> w.claimedBy == Some(m) && w.started)
      && (call.StartFailureCall? ==> m in w.claimFaults)
    case Read(m) => m in w.sections && w.sections[m].wait.WantRead?
    case Decide(m, _) => m in w.sections && w.sections[m].wait.HaveRead?
    case Write(m) => m in w.sections && w.sections[m].wait.WantWrite?
    case Finish(m) => m in w.sections && w.sections[m].wait.HaveWrite?
    case StoreFault(m) => m in w.sections && (w.sections[m].wait.WantRead? || w.sections[m].wait.WantWrite?)
    case Unregister => w.registered
    case Recover(_, _, _) => true
    case RecoverAbort(m) => m in w.recoverAborts
    case Prune(_) => true
    case RetryWrite(_) => w.row.Some? && (w.row.value.status.Failed? || w.row.value.status.Cancelled?)
  }

  /** The one demand on task code: it never reports the stage word of an accepted cancel; any other word is free. */
  predicate HonestTask(s: Step) {
    s.Begin? && s.call.ReportCall? ==> !Reserved(s.call.text)
  }

  function At(w: World, m: int, wait: Wait): World
    requires m in w.sections
  {
    w.(sections := w.sections[m := w.sections[m].(wait := wait)])
  }

  function Leaving(w: World, m: int): World {
    w.(sections := w.sections - {m})
  }

  /** `this.#controllers.get(id)?.abort()` in manager m. */
  predicate Reaches(w: World, m: int) {
    w.registered && w.claimedBy == Some(m)
  }

  function ApplyDecision(w: World, m: int, d: Decision, snap: Option<Operation>): World
    requires m in w.sections
    requires d.Issue? ==> snap.Some?
  {
    match d
    case Leave(abort, kill) => Leaving(w, m).(aborted := w.aborted || abort || (kill && Reaches(w, m)))
    case Committed => Leaving(w, m).(log := w.log.(committed := true))
    case Issue(edited) => At(w, m, WantWrite(snap.value, edited))
  }

  function Saved(w: World, m: int, call: Call, edited: Operation, expected: nat): World
    requires m in w.sections && w.row.Some? && w.row.value.revision == expected
  {
    var log := match call
      case CancelCall => w.log.(cancelled := true, queuedCancel := w.log.queuedCancel || edited.status.Cancelled?)
      case ClaimCall => w.log.(claims := w.log.claims + 1)
      case CommitCall => w.log.(committed := true)
      case _ => w.log;
    At(w, m, HaveWrite(true)).(
      row := SaveRow(w.row, edited, expected),
      claimedBy := if call.ClaimCall? then Some(m) else w.claimedBy,
      log := log)
  }

  /** Compare-and-save: it takes effect only while the row still has the revision that was read. */
  function ApplyWrite(w: World, m: int): World
    requires m in w.sections && w.sections[m].wait.WantWrite?
  {
    var sec := w.sections[m];
    if w.row.Some? && w.row.value.revision == sec.wait.snap.revision
    then Saved(w, m, sec.call, sec.wait.edited, sec.wait.snap.revision)
    else At(w, m, HaveWrite(false))
  }

  function ApplyFinish(w: World, m: int): World
    requires m in w.sections && w.sections[m].wait.HaveWrite?
  {
    var sec := w.sections[m];
    if sec.wait.saved then
      match sec.call
      case CancelCall => Leaving(w, m).(aborted := w.aborted || Reaches(w, m))
      case ClaimCall => Leaving(w, m).(started := true, registered := true)
      case _ => Leaving(w, m)
    else if sec.attempt + 1 < Attempts(sec.call) then
      w.(sections := w.sections[m := Section(sec.call, sec.attempt + 1, WantRead)])
    else
      match sec.call
      case ReportCall(_, _) => Leaving(w, m).(aborted := true)
      case CommitCall => Leaving(w, m).(aborted := true, log := w.log.(commitExhausted := true))
      case CompleteCall(_) => Leaving(w, m).(log := w.log.(completeExhausted := true))
      case HeartbeatCall => Leaving(w, m).(aborted := w.aborted || Reaches(w, m))
      case _ => Leaving(w, m)
  }

  function Apply(w: World, s: Step): World
    requires Enabled(w, s)
  {
    match s
    case Begin(m, call) => w.(sections := w.sections[m := Section(call, 0, WantRead)])
    case Read(m) => At(w, m, HaveRead(w.row))
    case Decide(m, now) =>
      var sec := w.sections[m];
      ApplyDecision(w, m, DecideCall(sec.call, sec.wait.read, w.aborted, now), sec.wait.read)
    case Write(m) => ApplyWrite(w, m)
    case Finish(m) => ApplyFinish(w, m)
    case StoreFault(m) =>
      Leaving(w, m).(claimFaults := if w.sections[m].call.ClaimCall? then w.claimFaults + {m} else w.claimFaults)
    case Unregister => w.(registered := false)
    case Recover(m, cutoff, at) =>
      var row := RecoverRow(w.row, cutoff, at);
      w.(row := row, recoverAborts := if row != w.row then w.recoverAborts + {m} else w.recoverAborts)
    case RecoverAbort(m) =>
      w.(recoverAborts := w.recoverAborts - {m}, aborted := w.aborted || Reaches(w, m))
    case Prune(cutoff) => w.(row := PruneRow(w.row, cutoff))
    case RetryWrite(retryable) =>
      w.(row := Some(w.row.value.(revision := w.row.value.revision + 1, retryable := retryable)))
  }

  // ----- runs -----

  /** The world after a schedule of steps, or nothing when some step is not possible where it stands. */
  function Play(w: World, steps: seq<Step>): Option<World>
    decreases |steps|
  {
    if steps == [] then Some(w)
    else if Enabled(w, steps[0]) then Play(Apply(w, steps[0]), steps[1..])
    else None
  }

  predicate Honest(steps: seq<Step>) {
    forall i :: 0 <= i < |steps| ==> HonestTask(steps[i])
  }

  /** A record as `start` creates it. */
  predicate Fresh(op: Operation) {
    Coherent(op) && op.status.Queued? && op.revision == 1
  }
}
