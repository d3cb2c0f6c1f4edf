/** The persisted lease of one proxied connection: a queue of operations with close, failure and touch racing. */
module LeaseSession {
  import opened Common

  datatype Job = HeartbeatJob | TouchJob | CloseJob(at: int)

  /** The store call whose answer the head of the queue waits for. */
  datatype Pending = Renewing(activity: bool, at: int) | Closing

  datatype StoreCall = Renew(activity: bool, at: int) | CloseLease(at: int)

  /** The fields of a session; `calls` lists the store calls issued so far. */
  datatype Session = Session(
    closed: bool,
    failed: bool,
    aborted: bool,
    touchQueued: bool,
    activityTouched: bool,
    lastWrite: int,
    queue: seq<Job>,
    pending: Option<Pending>,
    calls: seq<StoreCall>)

  function Opened(openedAt: int): Session {
    Session(false, false, false, false, false, openedAt, [], None, [])
  }

  predicate WriteDue(s: Session, now: int, interval: int) {
    !s.activityTouched || now - s.lastWrite >= interval
  }

  function Heartbeat(s: Session): Session {
    s.(queue := s.queue + [HeartbeatJob])
  }

  function Touch(s: Session, now: int, interval: int): Session {
    if s.closed || s.failed || !WriteDue(s, now, interval) || s.touchQueued then s
    else s.(touchQueued := true, queue := s.queue + [TouchJob])
  }

  function Close(s: Session, now: int): Session {
    if s.closed then s else s.(closed := true, queue := s.queue + [CloseJob(now)])
  }

  function Failing(s: Session, now: int): Session {
    if s.failed then s else Close(s.(failed := true, aborted := true), now)
  }

  /** The code of a renewal up to its store call. */
  function RenewNow(s: Session, activity: bool, now: int): Session {
    if s.closed || s.failed then s
    else if s.aborted then Failing(s, now)
    else s.(pending := Some(Renewing(activity, now)), calls := s.calls + [Renew(activity, now)])
  }

  /** The head of the queue runs up to its store call; its two clock readings are `dueAt` and then `now`. */
  function RunHead(s: Session, dueAt: int, now: int, interval: int): Session
    requires s.queue != [] && s.pending.None?
  {
    var rest := s.(queue := s.queue[1..]);
    match s.queue[0]
    case HeartbeatJob => RenewNow(rest, false, now)
    case TouchJob =>
      if s.closed || s.failed || !WriteDue(s, dueAt, interval) then rest.(touchQueued := false)
      else
        var renewed := RenewNow(rest, true, now);
        if renewed.pending.None? then renewed.(touchQueued := false) else renewed
    case CloseJob(at) => rest.(pending := Some(Closing), calls := s.calls + [CloseLease(at)])
  }

  function StoreAnswers(s: Session, ok: bool, now: int): Session
    requires s.pending.Some?
  {
    var idle := s.(pending := None);
    match s.pending.value
    case Closing => idle
    case Renewing(activity, at) =>
      if ok then
        (if activity then idle.(activityTouched := true, lastWrite := at, touchQueued := false) else idle)
      else Failing(if activity then idle.(touchQueued := false) else idle, now)
  }

  /** The session object; every method is one stretch of code without an await. */
  class ActivityLeaseSession {
    const interval: int
    var closed: bool
    var failed: bool
    var aborted: bool
    var touchQueued: bool
    var activityTouched: bool
    var lastActivityWriteAt: int
    var operationQueue: seq<Job>
    var pending: Option<Pending>
    ghost var calls: seq<StoreCall>

    constructor (openedAt: int, interval: int)
      ensures View() == Opened(openedAt) && this.interval == interval
    {
      this.interval := interval;
      closed, failed, aborted, touchQueued, activityTouched := false, false, false, false, false;
      lastActivityWriteAt, operationQueue, pending := openedAt, [], None;
      calls := [];
    }

    ghost function View(): Session
      reads this
    {
      Session(closed, failed, aborted, touchQueued, activityTouched, lastActivityWriteAt, operationQueue, pending,
          calls)
    }

    method CallHeartbeat()
      modifies this`operationQueue
      ensures View() == Heartbeat(old(View()))
      ensures operationQueue == old(operationQueue) + [HeartbeatJob]
    {
      operationQueue := operationQueue + [HeartbeatJob];
    }

    /** A touch is queued exactly if the session is open, none waits and the last activity write is long enough ago. */
    method CallTouch(now: int)
      modifies this`touchQueued, this`operationQueue
      ensures View() == Touch(old(View()), now, interval)
      ensures if closed || failed || old(touchQueued) || (activityTouched && now - lastActivityWriteAt < interval)
              then touchQueued == old(touchQueued) && operationQueue == old(operationQueue)
              else touchQueued && operationQueue == old(operationQueue) + [TouchJob]
    {
      if closed || failed { return; }
      if activityTouched && now - lastActivityWriteAt < interval { return; }
      if touchQueued { return; }
      touchQueued := true;
      operationQueue := operationQueue + [TouchJob];
    }

    method CallClose(now: int)
      modifies this`closed, this`operationQueue
      ensures View() == Close(old(View()), now)
      ensures closed && operationQueue == old(operationQueue) + if old(closed) then [] else [CloseJob(now)]
    {
      if closed { return; }
      closed := true;
      operationQueue := operationQueue + [CloseJob(now)];
    }

    /** The first failure aborts the connection and closes the session. */
    method Fail(now: int)
      modifies this`failed, this`aborted, this`closed, this`operationQueue
      ensures View() == Failing(old(View()), now)
      ensures failed && (!old(failed) ==> aborted && closed)
      ensures operationQueue == old(operationQueue) + if old(failed) || old(closed) then [] else [CloseJob(now)]
    {
      if failed { return; }
      failed := true;
      aborted := true;
      CallClose(now);
    }

    method BeginRenewal(activity: bool, now: int)
      modifies this
      ensures View() == RenewNow(old(View()), activity, now)
    {
      if closed || failed { return; }
      if aborted {
        Fail(now);
        return;
      }
      pending := Some(Renewing(activity, now));
      calls := calls + [Renew(activity, now)];
    }

    method RunNext(dueAt: int, now: int)
      requires operationQueue != [] && pending.None?
      modifies this
      ensures View() == RunHead(old(View()), dueAt, now, interval)
      ensures old(operationQueue[0]).CloseJob? ==>
                calls == old(calls) + [CloseLease(old(operationQueue[0]).at)] && pending == Some(Closing)
      ensures old(operationQueue[0]).HeartbeatJob? && !old(closed) && !old(failed) && !old(aborted) ==>
                calls == old(calls) + [Renew(false, now)] && pending == Some(Renewing(false, now))
      ensures old(operationQueue[0]).TouchJob? && !old(closed) && !old(failed) && !old(aborted) ==>
                if old(activityTouched) && dueAt - old(lastActivityWriteAt) < interval
                then calls == old(calls) && pending.None? && !touchQueued
                else calls == old(calls) + [Renew(true, now)] && pending == Some(Renewing(true, now))
      ensures !old(operationQueue[0]).CloseJob? && (old(closed) || old(failed)) ==>
                calls == old(calls) && pending.None? && operationQueue == old(operationQueue[1..])
    {
      var job := operationQueue[0];
      operationQueue := operationQueue[1..];
      match job {
        case HeartbeatJob => BeginRenewal(false, now);
        case TouchJob =>
          if !closed && !failed && (!activityTouched || dueAt - lastActivityWriteAt >= interval) {
            BeginRenewal(true, now);
          }
          if pending.None? {
            touchQueued := false;
          }
        case CloseJob(at) =>
          pending := Some(Closing);
          calls := calls + [CloseLease(at)];
      }
    }

    method ReceiveAnswer(ok: bool, now: int)
      requires pending.Some?
      modifies this
      ensures View() == StoreAnswers(old(View()), ok, now)
      ensures pending.None? && calls == old(calls)
      ensures old(pending).value.Renewing? && old(pending).value.activity ==> !touchQueued
      ensures old(pending).value.Renewing? && !ok ==> failed && (old(failed) || (closed && aborted))
      ensures old(pending).value.Closing? || ok ==>
                failed == old(failed) && closed == old(closed) && operationQueue == old(operationQueue)
      ensures if old(pending).value.Renewing? && old(pending).value.activity && ok
              then activityTouched && lastActivityWriteAt == old(pending).value.at
              else activityTouched == old(activityTouched) && lastActivityWriteAt == old(lastActivityWriteAt)
    {
      var answered := pending.value;
      pending := None;
      if answered.Renewing? {
        if answered.activity {
          touchQueued := false;
        }
        if !ok {
          Fail(now);
        } else if answered.activity {
          activityTouched := true;
          lastActivityWriteAt := answered.at;
        }
      }
    }
  }

  // ----- runs -----

  datatype Step =
    | Beat
    | TouchAt(now: int)
    | CloseAt(now: int)
    | Abort
    | Run(dueAt: int, now: int)
    | Answer(ok: bool, now: int)

  predicate Enabled(s: Session, st: Step) {
    match st
    case Run(dueAt, now) => s.queue != [] && s.pending.None? && dueAt <= now
    case Answer(_, _) => s.pending.Some?
    case _ => true
  }

  function Apply(s: Session, st: Step, interval: int): Session
    requires Enabled(s, st)
  {
    match st
    case Beat => Heartbeat(s)
    case TouchAt(now) => Touch(s, now, interval)
    case CloseAt(now) => Close(s, now)
    case Abort => s.(aborted := true)
    case Run(dueAt, now) => RunHead(s, dueAt, now, interval)
    case Answer(ok, now) => StoreAnswers(s, ok, now)
  }

  function Play(s: Session, steps: seq<Step>, interval: int): Option<Session>
    decreases |steps|
  {
    if steps == [] then Some(s)
    else if Enabled(s, steps[0]) then Play(Apply(s, steps[0], interval), steps[1..], interval)
    else None
  }

  // ----- invariant -----

  /** Renewals, then at most one close, then nothing. */
  predicate Ordered(calls: seq<StoreCall>) {
    forall i :: 0 <= i < |calls| - 1 ==> calls[i].Renew?
  }

  predicate HasClosed(calls: seq<StoreCall>) {
    calls != [] && calls[|calls| - 1].CloseLease?
  }

  predicate Activity(calls: seq<StoreCall>, i: nat) {
    i < |calls| && calls[i].Renew? && calls[i].activity
  }

  /** Any two activity writes are at least the interval apart. */
  ghost predicate Spaced(calls: seq<StoreCall>, interval: int) {
    forall i: nat, j: nat :: i < j && Activity(calls, i) && Activity(calls, j) ==> calls[j].at - calls[i].at >= interval
  }

  predicate OneClose(queue: seq<Job>) {
    forall i, j :: 0 <= i < j < |queue| && queue[i].CloseJob? ==> !queue[j].CloseJob?
  }

  predicate CloseWaits(queue: seq<Job>) {
    exists i :: 0 <= i < |queue| && queue[i].CloseJob?
  }

  ghost predicate Inv(s: Session, interval: int) {
    && Ordered(s.calls) && Spaced(s.calls, interval) && interval >= 0
    && OneClose(s.queue)
    && (HasClosed(s.calls) ==> s.closed && !CloseWaits(s.queue))
    && (CloseWaits(s.queue) ==> s.closed)
    && (s.closed ==> CloseWaits(s.queue) || HasClosed(s.calls))
    && (s.failed ==> s.closed && s.aborted)
    && (s.pending == Some(Closing) ==> HasClosed(s.calls))
    && (s.pending.Some? && s.pending.value.Renewing? ==>
          s.calls != [] && s.calls[|s.calls| - 1] == Renew(s.pending.value.activity, s.pending.value.at))
    && WritesKnown(s)
  }

  /**
   * Every answered activity write is at or before the remembered one; only a pending or failed one is not remembered.
   */
  ghost predicate WritesKnown(s: Session) {
    forall i: nat :: Activity(s.calls, i) ==>
      || s.failed
      || (s.activityTouched && s.calls[i].at <= s.lastWrite)
      || (s.pending.Some? && s.pending.value.Renewing? && s.pending.value.activity && i == |s.calls| - 1)
  }

  lemma CloseKeepsInv(s: Session, now: int, interval: int)
    requires Inv(s, interval)
    ensures Inv(Close(s, now), interval)
  {
    var s2 := Close(s, now);
    if !s.closed {
      assert s2.queue[|s.queue|].CloseJob?;
      assert forall i :: 0 <= i < |s.queue| ==> s2.queue[i] == s.queue[i];
    }
  }

  lemma FailingKeepsInv(s: Session, now: int, interval: int)
    requires Inv(s, interval)
    ensures Inv(Failing(s, now), interval)
  {
    if !s.failed {
      CloseKeepsInv(s, now, interval);
      assert Failing(s, now) == Close(s, now).(failed := true, aborted := true);
    }
  }

  /** A failed activity write stays unremembered, but then nothing more is written. */
  lemma AnswerKeepsInv(s: Session, ok: bool, now: int, interval: int)
    requires Inv(s, interval) && s.pending.Some?
    ensures Inv(StoreAnswers(s, ok, now), interval)
  {
    if s.pending.value.Renewing? && !ok && !s.failed {
      CloseKeepsInv(s, now, interval);
      var idle := if s.pending.value.activity then s.(pending := None, touchQueued := false) else s.(pending := None);
      assert StoreAnswers(s, ok, now) == Close(idle, now).(failed := true, aborted := true);
      assert Close(idle, now).queue == Close(s, now).queue;
    }
  }

  lemma PoppedQueue(queue: seq<Job>)
    requires queue != [] && OneClose(queue)
    ensures OneClose(queue[1..])
    ensures queue[0].CloseJob? ==> !CloseWaits(queue[1..])
    ensures !queue[0].CloseJob? ==> (CloseWaits(queue[1..]) <==> CloseWaits(queue))
  {
    if !queue[0].CloseJob? && CloseWaits(queue) {
      var i :| 0 <= i < |queue| && queue[i].CloseJob?;
      assert queue[1..][i - 1].CloseJob?;
    }
  }

  lemma AnotherRenewal(s: Session, activity: bool, dueAt: int, now: int, interval: int)
    requires Inv(s, interval) && s.pending.None? && !s.closed && !s.failed && !s.aborted
    requires activity ==> WriteDue(s, dueAt, interval) && dueAt <= now
    ensures Inv(RenewNow(s, activity, now), interval)
  {
    var s2 := RenewNow(s, activity, now);
    assert forall i: nat :: i < |s.calls| ==> s2.calls[i] == s.calls[i];
    forall i: nat, j: nat | i < j && Activity(s2.calls, i) && Activity(s2.calls, j)
      ensures s2.calls[j].at - s2.calls[i].at >= interval
    {
      assert Activity(s.calls, i);
      if j < |s.calls| { assert Activity(s.calls, j); }
    }
    forall i: nat | Activity(s2.calls, i)
      ensures (s.activityTouched && s2.calls[i].at <= s.lastWrite) || (activity && i == |s2.calls| - 1)
    {
      if i < |s.calls| { assert Activity(s.calls, i); }
    }
  }

  lemma RunKeepsInv(s: Session, dueAt: int, now: int, interval: int)
    requires Inv(s, interval) && Enabled(s, Run(dueAt, now))
    ensures Inv(RunHead(s, dueAt, now, interval), interval)
  {
    PoppedQueue(s.queue);
    var rest := s.(queue := s.queue[1..]);
    match s.queue[0]
    case CloseJob(at) => CloseIssued(s, at, interval);
    case HeartbeatJob => RenewKeepsInv(rest, false, dueAt, now, interval);
    case TouchJob =>
      if !s.closed && !s.failed && WriteDue(s, dueAt, interval) { RenewKeepsInv(rest, true, dueAt, now, interval); }
  }

  lemma RenewKeepsInv(s: Session, activity: bool, dueAt: int, now: int, interval: int)
    requires Inv(s, interval) && s.pending.None? && dueAt <= now
    requires activity ==> WriteDue(s, dueAt, interval)
    ensures Inv(RenewNow(s, activity, now), interval)
  {
    if !s.closed && !s.failed {
      if s.aborted { FailingKeepsInv(s, now, interval); } else { AnotherRenewal(s, activity, dueAt, now, interval); }
    }
  }

  lemma CloseIssued(s: Session, at: int, interval: int)
    requires Inv(s, interval) && s.pending.None? && s.queue != [] && s.queue[0] == CloseJob(at)
    ensures Inv(s.(queue := s.queue[1..], pending := Some(Closing), calls := s.calls + [CloseLease(at)]), interval)
  {
    PoppedQueue(s.queue);
    var s2 := s.(queue := s.queue[1..], pending := Some(Closing), calls := s.calls + [CloseLease(at)]);
    assert CloseWaits(s.queue);
    assert forall i: nat :: Activity(s2.calls, i) ==>
        i < |s.calls| && Activity(s.calls, i) && s2.calls[i] == s.calls[i];
  }

  lemma EnqueueKeepsInv(s: Session, job: Job, touching: bool, interval: int)
    requires Inv(s, interval) && !job.CloseJob?
    ensures Inv(s.(queue := s.queue + [job], touchQueued := touching), interval)
  {
    var queue := s.queue + [job];
    assert forall i :: 0 <= i < |s.queue| ==> queue[i] == s.queue[i];
    assert CloseWaits(queue) <==> CloseWaits(s.queue);
  }

  lemma StepKeepsInv(s: Session, st: Step, interval: int)
    requires Inv(s, interval) && Enabled(s, st)
    ensures Inv(Apply(s, st, interval), interval)
  {
    match st
    case Beat =>
      EnqueueKeepsInv(s, HeartbeatJob, s.touchQueued, interval);
    case TouchAt(now) =>
      EnqueueKeepsInv(s, TouchJob, true, interval);
    case CloseAt(now) => CloseKeepsInv(s, now, interval);
    case Abort =>
    case Run(dueAt, now) => RunKeepsInv(s, dueAt, now, interval);
    case Answer(ok, now) => AnswerKeepsInv(s, ok, now, interval);
  }

  lemma {:induction false} PlayKeepsInv(s: Session, steps: seq<Step>, interval: int)
    requires Inv(s, interval) && Play(s, steps, interval).Some?
    ensures Inv(Play(s, steps, interval).value, interval)
    decreases |steps|
  {
    if steps != [] {
      StepKeepsInv(s, steps[0], interval);
      PlayKeepsInv(Apply(s, steps[0], interval), steps[1..], interval);
    }
  }

  /**
   * However heartbeat, touch, close and failure race, the store sees renewals followed by at most one close
   * and nothing after it, and any two activity writes are at least the touch interval apart.
   */
  lemma CallsAreOrderedAndSpaced(openedAt: int, interval: int, steps: seq<Step>)
    requires interval > 0 && Play(Opened(openedAt), steps, interval).Some?
    ensures var s := Play(Opened(openedAt), steps, interval).value;
            && (forall i :: 0 <= i < |s.calls| - 1 ==> s.calls[i].Renew?)
            && (forall i, j :: 0 <= i < j < |s.calls| && Activity(s.calls, i) && Activity(s.calls, j) ==>
                  s.calls[j].at - s.calls[i].at >= interval)
  {
    PlayKeepsInv(Opened(openedAt), steps, interval);
    var s := Play(Opened(openedAt), steps, interval).value;
  }

  /** A closed or failed session has its close call issued or waiting in the queue, so it is never forgotten. */
  lemma CloseIsNeverLost(openedAt: int, interval: int, steps: seq<Step>)
    requires interval > 0 && Play(Opened(openedAt), steps, interval).Some?
    ensures var s := Play(Opened(openedAt), steps, interval).value;
            && (s.closed || s.failed ==> CloseWaits(s.queue) || HasClosed(s.calls))
            && (CloseWaits(s.queue) || HasClosed(s.calls) ==> s.closed)
            && !(CloseWaits(s.queue) && HasClosed(s.calls))
  {
    PlayKeepsInv(Opened(openedAt), steps, interval);
  }

  // ----- what waits in the queue gets its turn -----

  lemma PlayThen(s: Session, st: Step, rest: seq<Step>, interval: int)
    requires Enabled(s, st)
    ensures Play(s, [st] + rest, interval) == Play(Apply(s, st, interval), rest, interval)
  {
    assert ([st] + rest)[1..] == rest;
  }

  /** At its turn a heartbeat of an open session renews the lease. */
  lemma HeartbeatRenews(s: Session, now: int, interval: int)
    requires !s.closed && !s.failed && !s.aborted && s.pending.None? && s.queue != [] && s.queue[0].HeartbeatJob?
    ensures Play(s, [Run(now, now)] + ([Answer(true, now)] + []), interval)
         == Some(s.(queue := s.queue[1..], calls := s.calls + [Renew(false, now)]))
  {
    PlayThen(s, Run(now, now), [Answer(true, now)] + [], interval);
    PlayThen(Apply(s, Run(now, now), interval), Answer(true, now), [], interval);
  }

  /** At its turn a touch of an open session writes the activity if it is still due, and is forgotten otherwise. */
  lemma TouchWrites(s: Session, now: int, interval: int)
    requires !s.closed && !s.failed && !s.aborted && s.pending.None? && s.queue != [] && s.queue[0].TouchJob?
    ensures !s.activityTouched || now - s.lastWrite >= interval ==>
              Play(s, [Run(now, now)] + ([Answer(true, now)] + []), interval)
                == Some(s.(queue := s.queue[1..], calls := s.calls + [Renew(true, now)], activityTouched := true,
                           lastWrite := now, touchQueued := false))
    ensures s.activityTouched && now - s.lastWrite < interval ==>
              Play(s, [Run(now, now)] + [], interval) == Some(s.(queue := s.queue[1..], touchQueued := false))
  {
    if !s.activityTouched || now - s.lastWrite >= interval {
      PlayThen(s, Run(now, now), [Answer(true, now)] + [], interval);
      PlayThen(Apply(s, Run(now, now), interval), Answer(true, now), [], interval);
    } else {
      PlayThen(s, Run(now, now), [], interval);
    }
  }

  predicate OnlyRuns(steps: seq<Step>) {
    forall st :: st in steps ==> st.Run? || st.Answer?
  }

  /** A close that waits is issued as soon as the jobs before it have had their turns. */
  lemma {:induction false} WaitingCloseIsIssued(s: Session, now: int, interval: int) returns (steps: seq<Step>)
    requires Inv(s, interval) && CloseWaits(s.queue)
    ensures OnlyRuns(steps) && Play(s, steps, interval).Some? && HasClosed(Play(s, steps, interval).value.calls)
    decreases |s.queue|, s.pending.Some?
  {
    var st := if s.pending.Some? then Answer(true, now) else Run(now, now);
    var next := Apply(s, st, interval);
    StepKeepsInv(s, st, interval);
    PoppedQueue(s.queue);
    var rest := [];
    if !HasClosed(next.calls) { rest := WaitingCloseIsIssued(next, now, interval); }
    PlayThen(s, st, rest, interval);
    steps := [st] + rest;
  }

  /** However its calls raced, a session that was closed or has failed can always get its close through to the store. */
  lemma ClosedSessionsClose(openedAt: int, interval: int, steps: seq<Step>, now: int) returns (rest: seq<Step>)
    requires interval > 0 && Play(Opened(openedAt), steps, interval).Some?
    requires var s := Play(Opened(openedAt), steps, interval).value; s.closed || s.failed
    ensures OnlyRuns(rest)
    ensures var s := Play(Opened(openedAt), steps, interval).value;
            Play(s, rest, interval).Some? && HasClosed(Play(s, rest, interval).value.calls)
  {
    var s := Play(Opened(openedAt), steps, interval).value;
    PlayKeepsInv(Opened(openedAt), steps, interval);
    CloseIsNeverLost(openedAt, interval, steps);
    if HasClosed(s.calls) { rest := []; } else { rest := WaitingCloseIsIssued(s, now, interval); }
  }
}
