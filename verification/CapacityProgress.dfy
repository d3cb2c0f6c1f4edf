/**
 * That the lifecycle gets on: each operation that nothing disturbs does what it was called for, and refuses when full.
 */
module CapacityProgress {
  import opened Common
  import opened Capacity
  import opened CapacitySafety
  import opened CapacityEveryRun

  /** The lock is free and nothing is under way at this container. */
  predicate Idle(w: World, id: int) { w.lock.None? && !Busy(w, id) && id !in w.provisions && id in w.rows }

  /** Where an operation stands while it holds lock and lease of its container. */
  function Holding(w: World, id: int, kind: Kind, phase: Phase): World {
    w.(ops := w.ops[id := Op(kind, phase)], lock := Some(ForContainer(id)))
  }

  lemma EndsQuietly(w: World, id: int, kind: Kind, phase: Phase)
    requires w.lock.None? && !Busy(w, id)
    ensures End(Holding(w, id, kind, phase), id) == w
  {
    assert w.ops[id := Op(kind, phase)] - {id} == w.ops;
  }

  /** The steps of an operation up to its decision, with what the runtime showed stored in between. */
  function Opening(id: int, kind: Kind, rest: seq<Step>): seq<Step> {
    [Begin(id, kind)] + ([TakeLock(id)] + ([Observe(id)] + ([PersistObserved(id, false)] + rest)))
  }

  lemma Opens(w: World, id: int, kind: Kind, row: Row, rest: seq<Step>)
    requires Idle(w, id) && (kind.StartOp? || kind.StopOp?) && !w.rows[id].status.Creating? && id in w.runtime
    requires row == ProjectRow(w.rows[id], w.runtime[id], w.rows[id].stopReason, None, false)
    ensures Play(w, Opening(id, kind, rest))
         == Play(Holding(w.(rows := w.rows[id := row]), id, kind, Settled), rest)
  {
    var w1, w2 := w.(ops := w.ops[id := Op(kind, WantLock)]), Holding(w, id, kind, WantObserve);
    assert Apply(w, Begin(id, kind)) == w1 && Apply(w1, TakeLock(id)) == w2;
    Looks(w, id, kind, row, rest);
    PlayThen(w, Begin(id, kind), [TakeLock(id)] + ([Observe(id)] + ([PersistObserved(id, false)] + rest)));
    PlayThen(w1, TakeLock(id), [Observe(id)] + ([PersistObserved(id, false)] + rest));
  }

  /** An operation that holds the lock stores what the runtime shows. */
  lemma Looks(w: World, id: int, kind: Kind, row: Row, rest: seq<Step>)
    requires Idle(w, id) && !kind.RemoveOp? && !w.rows[id].status.Creating? && id in w.runtime
    requires row == ProjectRow(w.rows[id], w.runtime[id], w.rows[id].stopReason, None, false)
    ensures Play(Holding(w, id, kind, WantObserve), [Observe(id)] + ([PersistObserved(id, false)] + rest))
         == Play(Holding(w.(rows := w.rows[id := row]), id, kind, Settled), rest)
  {
    var w2, w3 := Holding(w, id, kind, WantObserve), Holding(w, id, kind, Observed(w.runtime[id]));
    assert Apply(w2, Observe(id)) == w3;
    assert Apply(w3, PersistObserved(id, false)) == Holding(w.(rows := w.rows[id := row]), id, kind, Settled);
    PlayThen(w2, Observe(id), [PersistObserved(id, false)] + rest);
    PlayThen(w3, PersistObserved(id, false), rest);
  }

  /** Decision, runtime call and store of an operation that may go on. */
  function Closing(id: int, state: State): seq<Step> {
    [Decide(id)] + ([Act(id, state)] + [PersistActed(id)])
  }

  lemma Closes(w: World, id: int, kind: Kind, state: State, row: Row)
    requires Idle(w, id) && (kind.StartOp? || kind.StopOp?)
    requires DecideOp(Holding(w, id, kind, Settled), id) == Holding(w, id, kind, Cleared)
    requires kind.StartOp? || Drifts(w, id, Some(state))
    requires row == ActedRow(w.rows[id], Op(kind, Acted(state)))
    ensures Play(Holding(w, id, kind, Settled), Closing(id, state))
         == Some(w.(rows := w.rows[id := row], runtime := w.runtime[id := state]))
  {
    var w4, w5, w6 := Holding(w, id, kind, Settled), Holding(w, id, kind, Cleared),
        Holding(w.(runtime := w.runtime[id := state]), id, kind, Acted(state));
    var done := w.(rows := w.rows[id := row], runtime := w.runtime[id := state]);
    assert Apply(w4, Decide(id)) == w5 && Apply(w5, Act(id, state)) == w6;
    assert Apply(w6, PersistActed(id)) == End(Holding(done, id, kind, Acted(state)), id);
    EndsQuietly(done, id, kind, Acted(state));
    PlayThen(w4, Decide(id), [Act(id, state)] + [PersistActed(id)]);
    PlayThen(w5, Act(id, state), [PersistActed(id)]);
    PlayOne(w6, PersistActed(id));
  }

  /** An undisturbed start of a stopped container runs it if there is room, and changes nothing otherwise. */
  lemma StartTakesEffect(w: World, id: int) returns (steps: seq<Step>)
    requires Idle(w, id) && w.rows[id].status.Stopped? && id in w.runtime && w.runtime[id].Down?
    ensures |Occupied(w.rows)| < w.limits.maxRunning ==>
              Play(w, steps) == Some(w.(rows := w.rows[id := Row(w.rows[id].user, Running, None)],
                                        runtime := w.runtime[id := Up]))
    ensures |Occupied(w.rows)| >= w.limits.maxRunning ==>
              steps == Opening(id, StartOp, [Decide(id)]) && Play(w, steps) == Some(w)
  {
    var row := w.rows[id];
    assert w.rows[id := row] == w.rows;
    if |Occupied(w.rows)| < w.limits.maxRunning {
      steps := Opening(id, StartOp, Closing(id, Up));
      Opens(w, id, StartOp, row, Closing(id, Up));
      Closes(w, id, StartOp, Up, Row(row.user, Running, None));
    } else {
      steps := Opening(id, StartOp, [Decide(id)]);
      Opens(w, id, StartOp, row, [Decide(id)]);
      EndsQuietly(w, id, StartOp, Settled);
      PlayOne(Holding(w, id, StartOp, Settled), Decide(id));
    }
  }

  /** A start whose runtime call throws although the container came up ends with the row running and counted. */
  lemma ThrowingStartIsCounted(w: World, id: int) returns (steps: seq<Step>)
    requires Idle(w, id) && w.rows[id].status.Stopped? && id in w.runtime && w.runtime[id].Down?
    requires |Occupied(w.rows)| < w.limits.maxRunning
    ensures Play(w, steps) == Some(w.(rows := w.rows[id := Row(w.rows[id].user, Running, None)],
                                      runtime := w.runtime[id := Up]))
  {
    var rest := [StartThrows(id, Some(Up))] + ([Observe(id)] + ([PersistObserved(id, false)] + [Decide(id)]));
    assert w.rows[id := w.rows[id]] == w.rows;
    Opens(w, id, StartOp, w.rows[id], [Decide(id)] + rest);
    assert Apply(Holding(w, id, StartOp, Settled), Decide(id)) == Holding(w, id, StartOp, Cleared);
    PlayThen(Holding(w, id, StartOp, Settled), Decide(id), rest);
    Recovers(w, id);
    steps := Opening(id, StartOp, [Decide(id)] + rest);
  }

  lemma Recovers(w: World, id: int)
    requires Idle(w, id) && !w.rows[id].status.Creating? && id in w.runtime
    ensures Play(Holding(w, id, StartOp, Cleared),
                 [StartThrows(id, Some(Up))] + ([Observe(id)] + ([PersistObserved(id, false)] + [Decide(id)])))
         == Some(w.(rows := w.rows[id := Row(w.rows[id].user, Running, None)], runtime := w.runtime[id := Up]))
  {
    var up := w.(runtime := w.runtime[id := Up]);
    var row := Row(w.rows[id].user, Running, None);
    var w5, w6 := Holding(w, id, StartOp, Cleared), Holding(up, id, RecoverOp, WantObserve);
    var w8 := Holding(up.(rows := w.rows[id := row]), id, RecoverOp, Settled);
    assert Apply(w5, StartThrows(id, Some(Up))) == w6;
    PlayThen(w5, StartThrows(id, Some(Up)), [Observe(id)] + ([PersistObserved(id, false)] + [Decide(id)]));
    Looks(up, id, RecoverOp, row, [Decide(id)]);
    EndsQuietly(up.(rows := w.rows[id := row]), id, RecoverOp, Settled);
    PlayOne(w8, Decide(id));
  }

  /** An undisturbed stop of a running container stops it for the reason given; a stopped one only gets the reason. */
  lemma StopTakesEffect(w: World, id: int, reason: StopReason) returns (steps: seq<Step>)
    requires Idle(w, id) && id in w.runtime
    requires (w.rows[id].status.Running? && w.runtime[id].Up?) || (w.rows[id].status.Stopped? && w.runtime[id].Down?)
    ensures Play(w, steps) == Some(w.(rows := w.rows[id := Row(w.rows[id].user, Stopped, Some(reason))],
                                      runtime := w.runtime[id := Down]))
  {
    var row := if w.rows[id].status.Running? then Row(w.rows[id].user, Running, None) else w.rows[id];
    var w1 := w.(rows := w.rows[id := row]);
    var stopped := Row(row.user, Stopped, Some(reason));
    assert w1.rows[id := stopped] == w.rows[id := stopped];
    if row.status.Running? {
      steps := Opening(id, StopOp(reason), Closing(id, Down));
      Opens(w, id, StopOp(reason), row, Closing(id, Down));
      Closes(w1, id, StopOp(reason), Down, stopped);
    } else {
      steps := Opening(id, StopOp(reason), [Decide(id)]);
      Opens(w, id, StopOp(reason), row, [Decide(id)]);
      EndsQuietly(w.(rows := w.rows[id := stopped]), id, StopOp(reason), Settled);
      PlayOne(Holding(w1, id, StopOp(reason), Settled), Decide(id));
      assert w.runtime[id := Down] == w.runtime;
    }
  }

  /** An undisturbed removal takes container and row away, whatever state they are in. */
  lemma RemoveTakesEffect(w: World, id: int)
    requires Idle(w, id) && !w.rows[id].status.Creating?
    ensures Play(w, [Begin(id, RemoveOp)] + ([TakeLock(id)] + ([Observe(id)] + [RemoveRow(id)])))
         == Some(w.(rows := w.rows - {id}, runtime := w.runtime - {id}))
  {
    var w1, w2 := w.(ops := w.ops[id := Op(RemoveOp, WantLock)]), Holding(w, id, RemoveOp, WantObserve);
    assert Apply(w, Begin(id, RemoveOp)) == w1 && Apply(w1, TakeLock(id)) == w2;
    TakesAway(w, id, w2);
    PlayThen(w, Begin(id, RemoveOp), [TakeLock(id)] + ([Observe(id)] + [RemoveRow(id)]));
    PlayThen(w1, TakeLock(id), [Observe(id)] + [RemoveRow(id)]);
  }

  lemma TakesAway(w: World, id: int, w2: World)
    requires Idle(w, id) && !w.rows[id].status.Creating? && w2 == Holding(w, id, RemoveOp, WantObserve)
    ensures Play(w2, [Observe(id)] + [RemoveRow(id)]) == Some(w.(rows := w.rows - {id}, runtime := w.runtime - {id}))
  {
    var w3 := Holding(w.(runtime := w.runtime - {id}), id, RemoveOp, Settled);
    assert Apply(w2, Observe(id)) == w3;
    PlayThen(w2, Observe(id), [RemoveRow(id)]);
    PlayOne(w3, RemoveRow(id));
    EndsQuietly(w.(rows := w.rows - {id}, runtime := w.runtime - {id}), id, RemoveOp, Settled);
  }

  /** An undisturbed sync of a running row stores what the runtime shows; a container found down is a failure. */
  lemma SyncTakesEffect(w: World, id: int)
    requires !Busy(w, id) && !Locked(w, id) && id in w.rows && id in w.runtime
    requires w.rows[id] == Row(w.rows[id].user, Running, None)
    ensures Play(w, [Begin(id, SyncOp)] + ([Observe(id)] + ([PersistObserved(id, false)] + [Decide(id)])))
         == Some(w.(rows := w.rows[id := match w.runtime[id]
                                         case Up => w.rows[id]
                                         case Coming => Row(w.rows[id].user, Creating, None)
                                         case _ => Row(w.rows[id].user, Failed, Some(Failure))]))
  {
    var row := ProjectRow(w.rows[id], w.runtime[id], None, None, false);
    var w1, w2 := Leased(w, id, WantObserve), Leased(w, id, Observed(w.runtime[id]));
    var w3 := Leased(w.(rows := w.rows[id := row]), id, Settled);
    assert Apply(w, Begin(id, SyncOp)) == w1 && Apply(w1, Observe(id)) == w2;
    StoresObserved(w, id, w2, w3);
    PlayThen(w, Begin(id, SyncOp), [Observe(id)] + ([PersistObserved(id, false)] + [Decide(id)]));
    PlayThen(w1, Observe(id), [PersistObserved(id, false)] + [Decide(id)]);
  }

  /** Where a sync stands while it holds the lease of its container. */
  function Leased(w: World, id: int, phase: Phase): World {
    w.(ops := w.ops[id := Op(SyncOp, phase)])
  }

  lemma StoresObserved(w: World, id: int, w2: World, w3: World)
    requires !Busy(w, id) && !Locked(w, id) && id in w.rows && id in w.runtime && w.rows[id].stopReason.None?
    requires w2 == Leased(w, id, Observed(w.runtime[id]))
    requires w3 == Leased(w.(rows := w.rows[id := ProjectRow(w.rows[id], w.runtime[id], None, None, false)]), id,
                          Settled)
    ensures Play(w2, [PersistObserved(id, false)] + [Decide(id)])
         == Some(w.(rows := w.rows[id := ProjectRow(w.rows[id], w.runtime[id], None, None, false)]))
  {
    assert Apply(w2, PersistObserved(id, false)) == w3;
    PlayThen(w2, PersistObserved(id, false), [Decide(id)]);
    PlayOne(w3, Decide(id));
    assert w3.ops - {id} == w.ops;
  }

  /** A user without a container gets one if limits leave room, and it runs. */
  lemma ProvisionTakesEffect(w: World, user: int, id: int) returns (steps: seq<Step>)
    requires w.lock.None? && !Owned(w.rows, user) && id !in w.used && id !in w.provisions
    requires |w.rows| < w.limits.maxTotal && |Occupied(w.rows)| < w.limits.maxRunning
    ensures Play(w, steps) == Some(w.(rows := w.rows[id := Row(user, Running, None)], runtime := w.runtime[id := Up],
                                      used := w.used + {id}))
  {
    var w1 := Reserved(w, user, id);
    var reserve := [ReserveLocks(user)] + ([ReserveLooks] + ([ReserveCounts] + [ReserveSaves(id)]));
    var provide := [ProvisionAnswers(id, Up)] + [ProvisionPersists(id)];
    ReservedIsReached(w, user, id, w1);
    ProvisionedIsReached(w1, id);
    PlayConcat(w, reserve, provide);
    steps := reserve + provide;
    assert w1.provisions - {id} == w.provisions;
    assert w1.rows[id := Row(user, Running, None)] == w.rows[id := Row(user, Running, None)];
  }

  lemma ProvisionedIsReached(w: World, id: int)
    requires id in w.rows && id in w.provisions && w.provisions[id].Asked? && w.rows[id].status.Creating?
    ensures Play(w, [ProvisionAnswers(id, Up)] + [ProvisionPersists(id)]) == Some(Provisioned(w, id))
  {
    var w2 := Apply(w, ProvisionAnswers(id, Up));
    PlayOne(w2, ProvisionPersists(id));
    PlayThen(w, ProvisionAnswers(id, Up), [ProvisionPersists(id)]);
  }

  /** A user who has a container, or for whom there is no room, gets none, and nothing changes. */
  lemma ProvisionIsRefused(w: World, user: int) returns (steps: seq<Step>)
    requires w.lock.None?
    requires Owned(w.rows, user) || |w.rows| >= w.limits.maxTotal || |Occupied(w.rows)| >= w.limits.maxRunning
    ensures Play(w, steps) == Some(w)
    ensures steps == [ReserveLocks(user)] + [ReserveLooks] ||
        steps == [ReserveLocks(user)] + ([ReserveLooks] + [ReserveCounts])
  {
    var w1 := Apply(w, ReserveLocks(user));
    var w2 := Apply(w1, ReserveLooks);
    if Owned(w.rows, user) {
      PlayOne(w1, ReserveLooks);
      PlayThen(w, ReserveLocks(user), [ReserveLooks]);
      steps := [ReserveLocks(user)] + [ReserveLooks];
    } else {
      PlayOne(w2, ReserveCounts);
      PlayThen(w1, ReserveLooks, [ReserveCounts]);
      PlayThen(w, ReserveLocks(user), [ReserveLooks] + [ReserveCounts]);
      steps := [ReserveLocks(user)] + ([ReserveLooks] + [ReserveCounts]);
    }
  }
}
