/** What every interleaving of OperationProtocol keeps, and the theorems over whole runs. */
module OperationSafety {
  import opened Common
  import opened OperationRecords
  import opened OperationProtocol

  /** 0 while undisturbed, 1 once cancelling, 2 once terminal or pruned; it never falls. */
  function Rank(row: Option<Operation>): nat {
    if row.None? || row.value.status.Terminal() then 2
    else if row.value.status.Running? && row.value.stage == CANCELLING then 1
    else 0
  }

  /** A record read earlier is either still the row or has been left behind for good. */
  predicate Behind(snap: Option<Operation>, row: Option<Operation>) {
    && (snap.None? ==> row.None?)
    && (snap.Some? && row.Some? ==> snap.value.revision <= row.value.revision && SameIdentity(snap.value, row.value))
    && (snap.Some? && row.Some? && snap.value.revision == row.value.revision ==> snap == row)
    && (snap.Some? && row.Some? && !snap.value.cancellable ==> !row.value.cancellable)
    && Rank(snap) <= Rank(row)
    && (snap.Some? ==> Coherent(snap.value))
  }

  /** While the executing manager holds its lock, only a cancel or a recovery can move a running row. */
  predicate Undisturbed(snap: Option<Operation>, row: Option<Operation>) {
    snap.Some? && snap.value.status.Running? ==> row == snap || Rank(row) > Rank(snap)
  }

  /** The edit a call makes of the record it read; every edit leaves its clock reading in the heartbeat. */
  predicate EditOf(call: Call, snap: Operation, edited: Operation) {
    && edited.heartbeatAt.Some?
    && var now := edited.heartbeatAt.value;
       match call
       case CancelCall =>
         edited == CancelEdit(snap, now) && !snap.status.Terminal() && snap.cancellable && Rank(Some(snap)) == 0
       case ClaimCall => edited == ClaimEdit(snap, now) && snap.status.Queued?
       case ReportCall(percent, text) =>
         edited == ReportEdit(snap, percent, text, now) && snap.status.Running? && Rank(Some(snap)) == 0
       case CommitCall => edited == CommitEdit(snap, now) && snap.status.Running? && Rank(Some(snap)) == 0
       case CompleteCall(outcome) =>
         edited == CompleteEdit(snap, edited.status.Cancelled?, outcome, now) && snap.status.Running?
       case HeartbeatCall => edited == HeartbeatEdit(snap, now) && snap.status.Running? && Rank(Some(snap)) == 0
       case StartFailureCall(reason) => edited == StartFailureEdit(snap, reason, now) && snap.status.Queued?
  }

  predicate SectionOk(w: World, m: int, sec: Section) {
    && (ExecutorCall(sec.call) ==> w.claimedBy == Some(m))
    && (sec.call.ReportCall? ==> !Reserved(sec.call.text))
    && match sec.wait
       case WantRead => Counted(sec.call, sec.attempt, w.row)
       case HaveRead(read) =>
         && Behind(read, w.row)
         && (ExecutorCall(sec.call) ==> Undisturbed(read, w.row) && (read.Some? ==> !read.value.status.Queued?))
         && Counted(sec.call, sec.attempt, read)
         && (ExecutorCall(sec.call) && Rank(read) == 0 && !read.value.cancellable ==> !w.log.cancelled)
       case WantWrite(snap, edited) =>
         && Behind(Some(snap), w.row)
         && (ExecutorCall(sec.call) ==> Undisturbed(Some(snap), w.row))
         && Counted(sec.call, sec.attempt, Some(snap))
         && EditOf(sec.call, snap, edited)
         && (sec.call.CompleteCall? && edited.status.Cancelled? ==> snap.stage == CANCELLING || w.row != Some(snap))
       case HaveWrite(saved) =>
         && (saved && sec.call.ClaimCall? ==> w.claimedBy == Some(m))
         && (saved && sec.call.CancelCall? ==> Rank(w.row) >= 1)
         && (ExecutorCall(sec.call) ==> sec.attempt <= 2)
         && (!saved && ExecutorCall(sec.call) ==> sec.attempt < Rank(w.row))
  }

  /** Each failed save of the executing manager was paid for by one rise of the rank. */
  predicate Counted(call: Call, attempt: nat, row: Option<Operation>) {
    ExecutorCall(call) ==> attempt <= Rank(row)
  }

  predicate RowOk(w: World) {
    && (w.row.Some? ==> Coherent(w.row.value))
    && (w.claimedBy.None? ==> w.row.None? || !w.row.value.status.Running?)
    && (w.claimedBy.Some? ==> w.row.None? || !w.row.value.status.Queued?)
    && (Rank(w.row) == 1 ==> w.log.cancelled && w.row.value.cancellable)
    && (w.row.Some? && w.row.value.status.Cancelled? ==> w.log.cancelled)
  }

  predicate LogOk(w: World) {
    && w.log.claims == (if w.claimedBy.Some? then 1 else 0)
    && (w.log.queuedCancel ==> w.log.cancelled && w.claimedBy.None? && Rank(w.row) == 2)
    && (w.log.cancelled ==> !w.log.committed && Rank(w.row) >= 1 && (w.row.Some? ==> !w.row.value.status.Succeeded?))
    && (w.log.committed ==>
          && w.claimedBy.Some?
          && (Rank(w.row) == 0 ==> !w.row.value.cancellable)
          && (w.row.Some? ==> !w.row.value.status.Cancelled?))
    && !w.log.completeExhausted && !w.log.commitExhausted
  }

  /** A controller is aborted only after the row stopped being an undisturbed one. */
  predicate AbortOk(w: World) {
    && (w.aborted ==> w.claimedBy.Some? && Rank(w.row) >= 1)
    && (w.started || w.registered ==> w.claimedBy.Some?)
    && (w.recoverAborts != {} ==> Rank(w.row) == 2)
  }

  ghost predicate Inv(w: World) {
    RowOk(w) && LogOk(w) && AbortOk(w) && (forall m :: m in w.sections ==> SectionOk(w, m, w.sections[m]))
  }

  lemma InitialInv(op: Operation)
    requires Fresh(op)
    ensures Inv(Initial(op))
  {
  }

  /** How a single step may move the row; the guarantee every other party relies on. */
  predicate RowMoves(before: Option<Operation>, after: Option<Operation>) {
    || before == after
    || (before.Some? && after.None? && before.value.status.Terminal())
    || (before.Some? && after.Some?
        && after.value.revision == before.value.revision + 1
        && SameIdentity(before.value, after.value)
        && (after.value.cancellable ==> before.value.cancellable)
        && (before.value.status.Terminal() ==>
            after.value == before.value.(revision := after.value.revision, retryable := after.value.retryable)))
  }

  /** What a step taken outside section m' must respect for that section to stay sound. */
  predicate Tolerable(before: World, after: World) {
    && RowMoves(before.row, after.row)
    && Rank(before.row) <= Rank(after.row)
    && (before.claimedBy.Some? ==> after.claimedBy == before.claimedBy)
    && (before.claimedBy.Some? && before.row.Some? && before.row.value.status.Running? ==>
          after.row == before.row || Rank(after.row) > Rank(before.row))
    && (after.log.cancelled ==> before.log.cancelled || (before.row.Some? && before.row.value.cancellable))
  }

  lemma SectionKept(before: World, after: World, m: int, sec: Section)
    requires SectionOk(before, m, sec) && Tolerable(before, after)
    ensures SectionOk(after, m, sec)
  {
  }

  /** A compare-and-save that takes effect replaces exactly the record that was read. */
  lemma WriteReplacesSnapshot(w: World, m: int)
    requires Inv(w) && Enabled(w, Write(m))
    ensures var w2 := ApplyWrite(w, m);
            w2.sections[m].wait.saved ==> w.row == Some(w.sections[m].wait.snap)
  {
    assert SectionOk(w, m, w.sections[m]);
  }

  /** The edited record of each call, seen through the fields the invariant speaks of. */
  lemma EditShape(call: Call, snap: Operation, edited: Operation)
    requires EditOf(call, snap, edited) && Coherent(snap)
    requires call.ReportCall? ==> !Reserved(call.text)
    ensures Coherent(edited) && SameIdentity(snap, edited) && !snap.status.Terminal()
    ensures call.CancelCall? ==>
        snap.cancellable && Rank(Some(edited)) >= 1 && edited.cancellable && !edited.status.Succeeded?
    ensures call.CancelCall? && snap.status.Queued? ==> edited.status.Cancelled?
    ensures call.CancelCall? && snap.status.Running? ==> edited.status.Running?
    ensures call.ClaimCall? ==> snap.status.Queued? && edited.status.Running? && Rank(Some(edited)) == 0
    ensures call.ReportCall? || call.HeartbeatCall? || call.CommitCall? ==>
              Rank(Some(snap)) == 0 && Rank(Some(edited)) == 0 && edited.status.Running?
    ensures call.ReportCall? || call.HeartbeatCall? ==> edited.cancellable == snap.cancellable
    ensures call.CommitCall? ==> !edited.cancellable
    ensures call.CompleteCall? ==> edited.status.Terminal() && snap.status.Running?
    ensures call.CompleteCall? && snap.stage == CANCELLING ==> !edited.status.Succeeded?
    ensures call.StartFailureCall? ==> edited.status.Failed? && snap.status.Queued?
  {
    assert CANCELLING != FINALIZING;
  }

  /** The next revision that a compare-and-save stores. */
  function Next(snap: Operation, edited: Operation): Operation {
    edited.(revision := snap.revision + 1)
  }

  /** A stored edit is a lifecycle move and never lowers the rank. */
  lemma EditMoves(call: Call, snap: Operation, edited: Operation)
    requires EditOf(call, snap, edited) && Coherent(snap)
    requires call.ReportCall? ==> !Reserved(call.text)
    ensures LifecycleMove(Some(snap), Some(Next(snap, edited))) && Coherent(Next(snap, edited))
    ensures Rank(Some(snap)) <= Rank(Some(Next(snap, edited)))
  {
    EditShape(call, snap, edited);
    assert edited.retryable ==> snap.retryable;
  }

  /** A write either leaves the row or stores the next revision of the record it read. */
  lemma WriteMovesRow(w: World, m: int, w2: World)
    requires Inv(w) && Enabled(w, Write(m)) && w2 == ApplyWrite(w, m)
    ensures w2.row == w.row || w2.sections[m].wait.saved
    ensures LifecycleMove(w.row, w2.row) && Rank(w.row) <= Rank(w2.row)
    ensures w2.row.Some? ==> Coherent(w2.row.value)
  {
    var sec := w.sections[m];
    assert SectionOk(w, m, sec);
    if w2.sections[m].wait.saved {
      WriteReplacesSnapshot(w, m);
      EditMoves(sec.call, sec.wait.snap, sec.wait.edited);
      assert w2.row == Some(Next(sec.wait.snap, sec.wait.edited));
    }
  }

  lemma WriteTolerable(w: World, m: int, w2: World)
    requires Inv(w) && Enabled(w, Write(m)) && w2 == ApplyWrite(w, m)
    ensures RowMoves(w.row, w2.row) && Rank(w.row) <= Rank(w2.row)
    ensures ExecutorCall(w.sections[m].call) || Tolerable(w, w2)
  {
    var sec := w.sections[m];
    assert SectionOk(w, m, sec);
    WriteMovesRow(w, m, w2);
    if w2.sections[m].wait.saved {
      WriteReplacesSnapshot(w, m);
      EditShape(sec.call, sec.wait.snap, sec.wait.edited);
    }
  }

  lemma SavedKeepsGlobals(w: World, m: int, snap: Operation, edited: Operation)
    requires Inv(w) && m in w.sections && w.sections[m].wait == WantWrite(snap, edited)
    requires w.row == Some(snap)
    ensures var w2 := Saved(w, m, w.sections[m].call, edited, snap.revision);
            RowOk(w2) && LogOk(w2) && AbortOk(w2) && SectionOk(w2, m, w2.sections[m])
  {
    assert SectionOk(w, m, w.sections[m]);
    EditShape(w.sections[m].call, snap, edited);
  }

  /** A lost save of the executing manager was paid for by a rise of the rank. */
  lemma LostWriteKeepsGlobals(w: World, m: int, w2: World)
    requires Inv(w) && Enabled(w, Write(m)) && w2 == At(w, m, HaveWrite(false))
    requires w.row.None? || w.row.value.revision != w.sections[m].wait.snap.revision
    ensures RowOk(w2) && LogOk(w2) && AbortOk(w2) && SectionOk(w2, m, w2.sections[m])
  {
    var sec := w.sections[m];
    assert SectionOk(w, m, sec);
    assert ExecutorCall(sec.call) ==> Rank(Some(sec.wait.snap)) < Rank(w.row);
  }

  /** The writer's own section and the whole-run facts after its write. */
  lemma OwnWriteKept(w: World, m: int)
    requires Inv(w) && Enabled(w, Write(m))
    ensures var w2 := ApplyWrite(w, m);
            RowOk(w2) && LogOk(w2) && AbortOk(w2) && SectionOk(w2, m, w2.sections[m])
  {
    var sec := w.sections[m];
    WriteReplacesSnapshot(w, m);
    if ApplyWrite(w, m).sections[m].wait.saved {
      SavedKeepsGlobals(w, m, sec.wait.snap, sec.wait.edited);
    } else {
      LostWriteKeepsGlobals(w, m, At(w, m, HaveWrite(false)));
    }
  }

  lemma SectionKeptOutside(before: World, after: World, m: int, sec: Section)
    requires SectionOk(before, m, sec) && !ExecutorCall(sec.call)
    requires RowMoves(before.row, after.row) && Rank(before.row) <= Rank(after.row)
    requires before.claimedBy.Some? ==> after.claimedBy == before.claimedBy
    ensures SectionOk(after, m, sec)
  {
  }

  /** Only the executing manager holds executor sections, so a write elsewhere is tolerable to it. */
  lemma OtherSectionKept(w: World, m: int, k: int, w2: World)
    requires Inv(w) && Enabled(w, Write(m)) && k in w.sections && k != m && w2 == ApplyWrite(w, m)
    ensures SectionOk(w2, k, w.sections[k])
  {
    assert SectionOk(w, m, w.sections[m]) && SectionOk(w, k, w.sections[k]);
    WriteTolerable(w, m, w2);
    if ExecutorCall(w.sections[m].call) {
      assert !ExecutorCall(w.sections[k].call);
      SectionKeptOutside(w, w2, k, w.sections[k]);
    } else {
      SectionKept(w, w2, k, w.sections[k]);
    }
  }

  lemma WriteKeepsInv(w: World, m: int)
    requires Inv(w) && Enabled(w, Write(m))
    ensures Inv(ApplyWrite(w, m))
  {
    OwnWriteKept(w, m);
    OtherSectionsKept(w, m, ApplyWrite(w, m));
  }

  lemma OtherSectionsKept(w: World, m: int, w2: World)
    requires Inv(w) && Enabled(w, Write(m)) && w2 == ApplyWrite(w, m)
    ensures w2.sections.Keys == w.sections.Keys
    ensures forall k :: k in w2.sections && k != m ==> SectionOk(w2, k, w2.sections[k])
  {
    forall k | k in w2.sections && k != m ensures SectionOk(w2, k, w2.sections[k]) {
      OtherSectionKept(w, m, k, w2);
      assert w2.sections[k] == w.sections[k];
    }
  }

  /** What the code after a read can do: leave, commit, or issue the edit of its call. */
  lemma DecisionSound(w: World, m: int, now: int)
    requires Inv(w) && Enabled(w, Decide(m, now))
    ensures var sec := w.sections[m];
            var d := DecideCall(sec.call, sec.wait.read, w.aborted, now);
            && (d.Issue? ==>
                  && sec.wait.read.Some? && EditOf(sec.call, sec.wait.read.value, d.edited)
                  && (sec.call.CompleteCall? && d.edited.status.Cancelled? ==>
                        sec.wait.read.value.stage == CANCELLING || w.row != sec.wait.read))
            && (d.Leave? && (d.abort || (d.kill && Reaches(w, m))) ==> w.claimedBy.Some? && Rank(w.row) >= 1)
            && (d.Committed? ==>
                  && w.claimedBy.Some? && !w.log.cancelled
                  && (w.row.Some? ==> !w.row.value.status.Cancelled?)
                  && (Rank(w.row) == 0 ==> !w.row.value.cancellable))
  {
    assert SectionOk(w, m, w.sections[m]);
  }

  /** Leaving the lock with the row untouched keeps everything, whatever is aborted or logged on the way out. */
  lemma LeavingKeepsInv(w: World, w2: World, m: int)
    requires Inv(w) && m in w.sections
    requires w2.sections == w.sections - {m} && w2.row == w.row && w2.claimedBy == w.claimedBy
    requires w2.recoverAborts == w.recoverAborts && w2.log.cancelled == w.log.cancelled
    requires LogOk(w2) && AbortOk(w2)
    ensures Inv(w2)
  {
    forall k | k in w2.sections
      ensures SectionOk(w2, k, w2.sections[k])
    {
      SectionKept(w, w2, k, w.sections[k]);
    }
  }

  /** Moving one section forward with everything else untouched. */
  lemma AdvancingKeepsInv(w: World, m: int, sec: Section)
    requires Inv(w) && SectionOk(w, m, sec)
    ensures Inv(w.(sections := w.sections[m := sec]))
  {
    var w2 := w.(sections := w.sections[m := sec]);
    forall k | k in w2.sections
      ensures SectionOk(w2, k, w2.sections[k])
    {
      SectionKept(w, w2, k, w2.sections[k]);
    }
  }

  lemma DecideKeepsInv(w: World, m: int, now: int)
    requires Inv(w) && Enabled(w, Decide(m, now))
    ensures Inv(Apply(w, Decide(m, now)))
  {
    assert SectionOk(w, m, w.sections[m]);
    DecisionSound(w, m, now);
    var sec := w.sections[m];
    var d := DecideCall(sec.call, sec.wait.read, w.aborted, now);
    match d
    case Issue(edited) => AdvancingKeepsInv(w, m, sec.(wait := WantWrite(sec.wait.read.value, edited)));
    case _ => LeavingKeepsInv(w, Apply(w, Decide(m, now)), m);
  }

  predicate TriesAgain(w: World, m: int)
    requires Enabled(w, Finish(m))
  {
    !w.sections[m].wait.saved && w.sections[m].attempt + 1 < Attempts(w.sections[m].call)
  }

  lemma NextAttemptKeepsInv(w: World, m: int)
    requires Inv(w) && Enabled(w, Finish(m)) && TriesAgain(w, m)
    ensures Inv(Apply(w, Finish(m)))
  {
    var sec := w.sections[m];
    assert SectionOk(w, m, sec);
    AdvancingKeepsInv(w, m, Section(sec.call, sec.attempt + 1, WantRead));
  }

  /** A call that leaves after its write never ran out of attempts. */
  lemma LastAttemptKeepsGlobals(w: World, m: int, w2: World)
    requires Inv(w) && Enabled(w, Finish(m)) && !TriesAgain(w, m) && w2 == Apply(w, Finish(m))
    ensures w2.sections == w.sections - {m} && w2.row == w.row && w2.claimedBy == w.claimedBy
    ensures w2.recoverAborts == w.recoverAborts && w2.log == w.log
    ensures AbortOk(w2)
  {
    var sec := w.sections[m];
    assert SectionOk(w, m, sec);
    if !sec.wait.saved { assert !sec.call.CommitCall? && !sec.call.CompleteCall?; }
  }

  lemma LastAttemptKeepsInv(w: World, m: int, w2: World)
    requires Inv(w) && Enabled(w, Finish(m)) && !TriesAgain(w, m) && w2 == Apply(w, Finish(m))
    ensures Inv(w2)
  {
    LastAttemptKeepsGlobals(w, m, w2);
    LeavingKeepsInv(w, w2, m);
  }

  lemma FinishKeepsInv(w: World, m: int)
    requires Inv(w) && Enabled(w, Finish(m))
    ensures Inv(Apply(w, Finish(m)))
  {
    if TriesAgain(w, m) {
      NextAttemptKeepsInv(w, m);
    } else {
      LastAttemptKeepsInv(w, m, Apply(w, Finish(m)));
    }
  }

  /** A step outside all sections keeps them if every one of them tolerates it. */
  lemma OutsideKeepsInv(w: World, w2: World)
    requires Inv(w) && w2.sections == w.sections && Tolerable(w, w2)
    requires RowOk(w2) && LogOk(w2) && AbortOk(w2)
    ensures Inv(w2)
  {
    forall k | k in w2.sections ensures SectionOk(w2, k, w2.sections[k]) {
      SectionKept(w, w2, k, w.sections[k]);
    }
  }

  lemma BeginKeepsInv(w: World, m: int, call: Call)
    requires Inv(w) && Enabled(w, Begin(m, call)) && HonestTask(Begin(m, call))
    ensures Inv(Apply(w, Begin(m, call)))
  {
    AdvancingKeepsInv(w, m, Section(call, 0, WantRead));
  }

  lemma ReadKeepsInv(w: World, m: int)
    requires Inv(w) && Enabled(w, Read(m))
    ensures Inv(Apply(w, Read(m)))
  {
    assert SectionOk(w, m, w.sections[m]);
    AdvancingKeepsInv(w, m, w.sections[m].(wait := HaveRead(w.row)));
  }

  lemma StoreFaultKeepsInv(w: World, m: int)
    requires Inv(w) && Enabled(w, StoreFault(m))
    ensures Inv(Apply(w, StoreFault(m)))
  {
    LeavingKeepsInv(w, Apply(w, StoreFault(m)), m);
  }

  lemma TablesKeepInv(w: World, s: Step, w2: World)
    requires Inv(w) && Enabled(w, s) && (s.Unregister? || s.RecoverAbort?) && w2 == Apply(w, s)
    ensures Inv(w2)
  {
    OutsideKeepsInv(w, w2);
  }

  lemma RecoverKeepsInv(w: World, s: Step, w2: World)
    requires Inv(w) && Enabled(w, s) && s.Recover? && w2 == Apply(w, s)
    ensures Inv(w2)
  {
    if w2.row == w.row {
      assert w2 == w;
    } else {
      assert Rank(w2.row) == 2 && RowMoves(w.row, w2.row);
      OutsideKeepsInv(w, w2);
    }
  }

  lemma PruneKeepsInv(w: World, s: Step, w2: World)
    requires Inv(w) && Enabled(w, s) && s.Prune? && w2 == Apply(w, s)
    ensures Inv(w2)
  {
    assert Rank(w2.row) == Rank(w.row) && RowMoves(w.row, w2.row);
    OutsideKeepsInv(w, w2);
  }

  lemma RetryWriteKeepsInv(w: World, s: Step, w2: World)
    requires Inv(w) && Enabled(w, s) && s.RetryWrite? && w2 == Apply(w, s)
    ensures Inv(w2)
  {
    assert Rank(w2.row) == Rank(w.row) == 2 && RowMoves(w.row, w2.row);
    OutsideKeepsInv(w, w2);
  }

  lemma StepKeepsInv(w: World, s: Step)
    requires Inv(w) && Enabled(w, s) && HonestTask(s)
    ensures Inv(Apply(w, s))
  {
    match s
    case Write(m) => WriteKeepsInv(w, m);
    case Decide(m, now) => DecideKeepsInv(w, m, now);
    case Finish(m) => FinishKeepsInv(w, m);
    case Begin(m, call) => BeginKeepsInv(w, m, call);
    case Read(m) => ReadKeepsInv(w, m);
    case StoreFault(m) => StoreFaultKeepsInv(w, m);
    case Unregister => TablesKeepInv(w, s, Apply(w, s));
    case RecoverAbort(_) => TablesKeepInv(w, s, Apply(w, s));
    case Recover(_, _, _) => RecoverKeepsInv(w, s, Apply(w, s));
    case Prune(_) => PruneKeepsInv(w, s, Apply(w, s));
    case RetryWrite(_) => RetryWriteKeepsInv(w, s, Apply(w, s));
  }

  // ----- theorems over every schedule -----

  lemma {:induction false} PlayKeepsInv(w: World, steps: seq<Step>)
    requires Inv(w) && Honest(steps) && Play(w, steps).Some?
    ensures Inv(Play(w, steps).value)
    decreases |steps|
  {
    if steps != [] {
      StepKeepsInv(w, steps[0]);
      PlayKeepsInv(Apply(w, steps[0]), steps[1..]);
    }
  }

  /**
   * In every interleaving a successful commit point and an accepted cancel exclude each
   * other; a committed operation never ends cancelled, one whose cancel was accepted never
   * ends succeeded, and an operation ends cancelled only if some cancel was accepted.
   */
  lemma CommitExcludesCancel(op: Operation, steps: seq<Step>)
    requires Fresh(op) && Honest(steps) && Play(Initial(op), steps).Some?
    ensures var w := Play(Initial(op), steps).value;
            && !(w.log.committed && w.log.cancelled)
            && (w.log.committed && w.row.Some? ==> !w.row.value.status.Cancelled?)
            && (w.log.cancelled && w.row.Some? ==> !w.row.value.status.Succeeded?)
            && (w.row.Some? && w.row.value.status.Cancelled? ==> w.log.cancelled)
  {
    InitialInv(op);
    PlayKeepsInv(Initial(op), steps);
  }

  /**
   * The terminal write of the executor says cancelled exactly when a cancel was accepted
   * before it, and otherwise says what the task did, however the stage text was overwritten.
   */
  lemma CompletionReportsTheTruth(op: Operation, steps: seq<Step>, m: int)
    requires Fresh(op) && Honest(steps) && Play(Initial(op), steps).Some?
    requires var w := Play(Initial(op), steps).value;
             && Enabled(w, Write(m)) && w.sections[m].call.CompleteCall?
             && ApplyWrite(w, m).sections[m].wait.saved
    ensures var w := Play(Initial(op), steps).value;
            var outcome := w.sections[m].call.outcome;
            var row := ApplyWrite(w, m).row.value;
            && row.status == (if w.log.cancelled then Cancelled else if outcome.Returned? then Succeeded else Failed)
            && (outcome.Returned? ==> row.result == Some(outcome.result))
            && (row.status.Failed? ==> row.error == Some(BoundedText(outcome.message, 2000)))
  {
    InitialInv(op);
    PlayKeepsInv(Initial(op), steps);
    var w := Play(Initial(op), steps).value;
    assert SectionOk(w, m, w.sections[m]);
    WriteReplacesSnapshot(w, m);
    assert CANCELLING != FINALIZING;
  }

  /**
   * Other managers can spoil the saves of one executor call at most twice, one cancel and one
   * recovery, so the give-up branches of commit point and completion are never reached.
   */
  lemma InterferenceIsBounded(op: Operation, steps: seq<Step>)
    requires Fresh(op) && Honest(steps) && Play(Initial(op), steps).Some?
    ensures var w := Play(Initial(op), steps).value;
            && !w.log.completeExhausted && !w.log.commitExhausted
            && (forall m :: m in w.sections && ExecutorCall(w.sections[m].call) ==> w.sections[m].attempt <= 2)
            && (forall m :: m in w.sections && w.sections[m].call.CommitCall? ==>
                  w.sections[m].attempt <= 2 && (w.sections[m].wait.WantWrite? ==> w.sections[m].attempt == 0))
  {
    InitialInv(op);
    PlayKeepsInv(Initial(op), steps);
    var w := Play(Initial(op), steps).value;
    forall m | m in w.sections
      ensures SectionOk(w, m, w.sections[m])
    {
    }
  }

  /** A task is claimed at most once and never once a queued operation was cancelled; records stay coherent. */
  lemma ClaimedAtMostOnce(op: Operation, steps: seq<Step>)
    requires Fresh(op) && Honest(steps) && Play(Initial(op), steps).Some?
    ensures var w := Play(Initial(op), steps).value;
            && w.log.claims <= 1
            && (w.log.queuedCancel ==> w.log.claims == 0)
            && (w.row.Some? ==> Coherent(w.row.value))
  {
    InitialInv(op);
    PlayKeepsInv(Initial(op), steps);
  }

  /** A step leaves the record alone, prunes a terminal one, or stores the next revision of it. */
  lemma StepMovesRow(w: World, s: Step)
    requires Inv(w) && Enabled(w, s)
    ensures RowMoves(w.row, Apply(w, s).row)
  {
    if s.Write? {
      WriteTolerable(w, s.m, Apply(w, s));
    }
  }

  /** Apart from the retry's own write, every step is a lifecycle move of the row. */
  lemma StepIsLifecycleMove(w: World, s: Step)
    requires Inv(w) && Enabled(w, s) && !s.RetryWrite?
    ensures LifecycleMove(w.row, Apply(w, s).row)
  {
    if s.Write? {
      WriteMovesRow(w, s.m, Apply(w, s));
    } else {
      assert s.Recover? || s.Prune? || Apply(w, s).row == w.row;
    }
  }

  /** Once terminal, a record keeps everything but its retry flag for as long as it is stored. */
  lemma {:induction false} TerminalIsFinal(w: World, steps: seq<Step>)
    requires Inv(w) && Honest(steps) && Play(w, steps).Some?
    requires w.row.Some? ==> w.row.value.status.Terminal()
    ensures var w2 := Play(w, steps).value;
            && (w.row.None? ==> w2.row.None?)
            && (w2.row.Some? ==>
                  && w2.row.value.revision >= w.row.value.revision
                  && w2.row.value == w.row.value.(revision := w2.row.value.revision,
                      retryable := w2.row.value.retryable))
    decreases |steps|
  {
    if steps != [] {
      StepMovesRow(w, steps[0]);
      StepKeepsInv(w, steps[0]);
      TerminalIsFinal(Apply(w, steps[0]), steps[1..]);
    }
  }

  // ----- why tasks must not report the reserved words -----

  /** The section of one manager from taking the lock to leaving it after a save. */
  function WholeCall(m: int, call: Call, now: int): seq<Step> {
    [Begin(m, call), Read(m), Decide(m, now)] + [Write(m), Finish(m)]
  }

  function Holding(w: World, m: int, call: Call, wait: Wait): World {
    w.(sections := w.sections[m := Section(call, 0, wait)])
  }

  lemma PlayOne(w: World, s: Step)
    requires Enabled(w, s)
    ensures Play(w, [s]) == Some(Apply(w, s))
  {
    assert [s][1..] == [];
  }

  /** The first three steps of a call that nobody disturbs. */
  lemma ReadAndDecide(w: World, m: int, call: Call, now: int)
    requires Enabled(w, Begin(m, call))
    ensures Play(w, [Begin(m, call), Read(m), Decide(m, now)])
         == Some(ApplyDecision(Holding(w, m, call, HaveRead(w.row)), m, DecideCall(call, w.row, w.aborted, now), w.row))
  {
    var w1, w2 := Holding(w, m, call, WantRead), Holding(w, m, call, HaveRead(w.row));
    assert Apply(w, Begin(m, call)) == w1;
    assert Apply(w1, Read(m)) == w2;
    PlayOne(w, Begin(m, call));
    PlayOne(w1, Read(m));
    PlayOne(w2, Decide(m, now));
    PlayConcat(w1, [Read(m)], [Decide(m, now)]);
    PlayConcat(w, [Begin(m, call)], [Read(m)] + [Decide(m, now)]);
    assert [Begin(m, call), Read(m), Decide(m, now)] == [Begin(m, call)] + ([Read(m)] + [Decide(m, now)]);
  }

  /** The world after an edit of the present record was stored and the call has ended. */
  function Stored(w: World, m: int, call: Call, edited: Operation): World
    requires w.row.Some?
  {
    var next := w.(row := Some(Next(w.row.value, edited)));
    match call
    case CancelCall =>
      next.(aborted := w.aborted || Reaches(w, m),
            log := w.log.(cancelled := true, queuedCancel := w.log.queuedCancel || edited.status.Cancelled?))
    case ClaimCall =>
      next.(claimedBy := Some(m), started := true, registered := true, log := w.log.(claims := w.log.claims + 1))
    case CommitCall => next.(log := w.log.(committed := true))
    case _ => next
  }

  /** A call that finds reason to save and that nobody disturbs. */
  lemma UndisturbedCall(w: World, m: int, call: Call, now: int)
    requires Enabled(w, Begin(m, call)) && w.row.Some? && DecideCall(call, w.row, w.aborted, now).Issue?
    ensures Play(w, WholeCall(m, call, now))
         == Some(Stored(w, m, call, DecideCall(call, w.row, w.aborted, now).edited))
  {
    var d := DecideCall(call, w.row, w.aborted, now);
    var w3 := Holding(w, m, call, WantWrite(w.row.value, d.edited));
    var opening := [Begin(m, call), Read(m), Decide(m, now)];
    ReadAndDecide(w, m, call, now);
    assert ApplyDecision(Holding(w, m, call, HaveRead(w.row)), m, d, w.row) == w3;
    PlayConcat(w, opening, [Write(m), Finish(m)]);
    UndisturbedSave(w, m, call, d.edited, w3);
  }

  lemma UndisturbedSave(w: World, m: int, call: Call, edited: Operation, w3: World)
    requires m !in w.sections && w.row.Some? && w3 == Holding(w, m, call, WantWrite(w.row.value, edited))
    ensures Play(w3, [Write(m), Finish(m)]) == Some(Stored(w, m, call, edited))
  {
    var w4 := Apply(w3, Write(m));
    assert w4.sections == w.sections[m := Section(call, 0, HaveWrite(true))];
    assert w4.row == Some(Next(w.row.value, edited));
    var w5 := Apply(w4, Finish(m));
    assert w5.sections == w.sections;
    assert w5 == Stored(w, m, call, edited);
    PlayOne(w3, Write(m));
    PlayOne(w4, Finish(m));
    PlayConcat(w3, [Write(m)], [Finish(m)]);
    assert [Write(m), Finish(m)] == [Write(m)] + [Finish(m)];
  }

  const UNCANCELLABLE := NewOperation(1, 1, None, 1, None, false, false, 0)
  const REPORTS_CANCELLING := ReportCall(None, CANCELLING)

  function DishonestSchedule(): seq<Step> {
    WholeCall(1, ClaimCall, 0) + WholeCall(1, REPORTS_CANCELLING, 0) + WholeCall(1, CompleteCall(Returned(7)), 0)
  }

  lemma AfterClaim() returns (w: World)
    ensures Play(Initial(UNCANCELLABLE), WholeCall(1, ClaimCall, 0)) == Some(w)
    ensures w.sections == map[] && w.claimedBy == Some(1) && w.started && !w.aborted && !w.log.cancelled
    ensures w.row.Some? && w.row.value.status.Running? && w.row.value.stage == "running" && !w.row.value.cancellable
  {
    UndisturbedCall(Initial(UNCANCELLABLE), 1, ClaimCall, 0);
    w := Stored(Initial(UNCANCELLABLE), 1, ClaimCall, DecideCall(ClaimCall, Some(UNCANCELLABLE), false, 0).edited);
  }

  lemma AfterReport(w: World) returns (w2: World)
    requires w.sections == map[] && w.claimedBy == Some(1) && w.started && !w.aborted && !w.log.cancelled
    requires w.row.Some? && w.row.value.status.Running? && w.row.value.stage == "running" && !w.row.value.cancellable
    ensures Play(w, WholeCall(1, REPORTS_CANCELLING, 0)) == Some(w2)
    ensures w2.sections == map[] && w2.claimedBy == Some(1) && w2.started && !w2.log.cancelled
    ensures w2.row.Some? && w2.row.value.status.Running? && w2.row.value.stage == CANCELLING
  {
    assert "running"[0] != CANCELLING[0];
    UndisturbedCall(w, 1, REPORTS_CANCELLING, 0);
    w2 := Stored(w, 1, REPORTS_CANCELLING, DecideCall(REPORTS_CANCELLING, w.row, w.aborted, 0).edited);
    BoundedCancelling();
  }

  lemma AfterCompletion(w: World) returns (w2: World)
    requires w.sections == map[] && w.claimedBy == Some(1) && w.started && !w.log.cancelled
    requires w.row.Some? && w.row.value.status.Running? && w.row.value.stage == CANCELLING
    ensures Play(w, WholeCall(1, CompleteCall(Returned(7)), 0)) == Some(w2)
    ensures w2.row.Some? && w2.row.value.status.Cancelled? && !w2.log.cancelled
  {
    assert CANCELLING[0] != FINALIZING[0];
    UndisturbedCall(w, 1, CompleteCall(Returned(7)), 0);
    w2 := Stored(w, 1, CompleteCall(Returned(7)), DecideCall(CompleteCall(Returned(7)), w.row, w.aborted, 0).edited);
  }

  /**
   * A task that reports "cancelling" ends cancelled although it was never cancellable and nobody
   * cancelled it, so the demand made by HonestTask cannot be dropped.
   */
  lemma ReservedStageBreaksCompletion()
    ensures Fresh(UNCANCELLABLE) && !UNCANCELLABLE.cancellable
    ensures var end := Play(Initial(UNCANCELLABLE), DishonestSchedule());
            end.Some? && end.value.row.Some? && end.value.row.value.status.Cancelled? && !end.value.log.cancelled
  {
    var w1 := AfterClaim();
    var w2 := AfterReport(w1);
    var w3 := AfterCompletion(w2);
    var first, second := WholeCall(1, ClaimCall, 0), WholeCall(1, REPORTS_CANCELLING, 0);
    PlayConcat(Initial(UNCANCELLABLE), first, second);
    PlayConcat(Initial(UNCANCELLABLE), first + second, WholeCall(1, CompleteCall(Returned(7)), 0));
  }

  lemma BoundedCancelling()
    ensures BoundedText(CANCELLING, 120) == CANCELLING
  {
    assert TrimStart(CANCELLING) == CANCELLING;
  }

  lemma {:induction false} PlayConcat(w: World, a: seq<Step>, b: seq<Step>)
    requires Play(w, a).Some?
    ensures Play(w, a + b) == Play(Play(w, a).value, b)
    decreases |a|
  {
    if a == [] {
      assert a + b == b;
    } else {
      assert (a + b)[1..] == a[1..] + b;
      PlayConcat(Apply(w, a[0]), a[1..], b);
    }
  }
}
