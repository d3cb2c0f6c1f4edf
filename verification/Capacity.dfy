/** Instance limits: a `creating` row holds the place while the slow work runs outside the capacity lock. */
module Capacity {
  import opened Common

  datatype Status = Creating | Running | Stopped | Failed
  datatype StopReason = Idle | ManualUser | ManualAdmin | Failure

  datatype Row = Row(user: int, status: Status, stopReason: Option<StopReason>)

  /** What the runtime says of a container. */
  datatype State = Coming | Up | Down | Broken

  function StatusOf(state: State): Status {
    match state case Coming => Creating case Up => Running case Down => Stopped case Broken => Failed
  }

  /** Rows that count against the running limit. */
  predicate Occupies(row: Row) { row.status.Running? || row.status.Creating? }

  predicate Alive(state: State) { state.Up? || state.Coming? }

  /**
   * The stored row after the runtime reported a state: it counts exactly when the container lives.  A container that is
   * down without a reason is a failure if it was running or has just been started; a failed row stays failed until its
   * container lives again or was recovered; any other container that is down is stopped, for the reason handed in.
   */
  function ProjectRow(row: Row, state: State, stopReason: Option<StopReason>, expected: Option<State>,
                      recovered: bool): (r: Row)
    ensures r.user == row.user
    ensures Occupies(r) <==> Alive(state)
    ensures r.status.Failed? ==> r.stopReason == Some(Failure)
    ensures state.Up? ==> r.status.Running? && r.stopReason.None?
    ensures state.Coming? ==> r.status.Creating? && r.stopReason == stopReason
    ensures state.Broken? ==> r.status.Failed?
    ensures state.Down? && expected == Some(Up) ==> r.status.Failed?
    ensures state.Down? && expected.None? && (row.status.Stopped? || row.status.Creating?) ==> r.status.Stopped?
    ensures state.Down? && expected.None? && row.status.Failed? ==> (r.status.Stopped? <==> recovered)
    ensures r.status.Stopped? ==> state.Down? && r.stopReason == stopReason && expected != Some(Up)
    ensures state.Down? && expected.None? && row.status.Running? ==> (r.status.Failed? <==> stopReason.None?)
    ensures state.Down? && row.status.Failed? && expected.None? && !recovered ==> r.status.Failed?
  {
    var unexpectedly := if expected == Some(Up) then state.Down?
                        else expected.None? && row.status.Running? && state.Down? && stopReason.None?;
    var preserve := expected.None? && row.status.Failed? && !recovered && state.Down?;
    Row(row.user,
        if unexpectedly || preserve then Failed else StatusOf(state),
        if unexpectedly || preserve || state.Broken? then Some(Failure) else if state.Up? then None else stopReason)
  }

  datatype Limits = Limits(maxTotal: nat, maxRunning: nat)

  /** `RecoverOp` is a start whose runtime call threw and which now stores what the runtime holds. */
  datatype Kind = SyncOp | StartOp | RecoverOp | StopOp(reason: StopReason) | RemoveOp

  /** Where a maintenance operation of one container stands; it holds the container's lease throughout. */
  datatype Phase = WantLock | WantObserve | Observed(state: State) | Settled | Cleared | Acted(state: State)

  datatype Op = Op(kind: Kind, phase: Phase)

  /** The capacity lock is held by a reservation or by an operation on one container. */
  datatype Holder = Reserving(user: int, unseen: bool, counted: bool) | ForContainer(id: int)

  datatype Provision = Asked | Answered(state: State) | Refused

  datatype World = World(
    limits: Limits,
    rows: map<int, Row>,
    runtime: map<int, State>,
    lock: Option<Holder>,
    ops: map<int, Op>,
    provisions: map<int, Provision>,
    used: set<int>)

  /** One stretch between two awaits. `left` is what a failed runtime call or a crash leaves behind. */
  datatype Step =
    | ReserveLocks(user: int)
    | ReserveLooks
    | ReserveCounts
    | ReserveSaves(id: int)
    | ReserveThrows
    | ProvisionAnswers(id: int, state: State)
    | ProvisionThrows(id: int, left: Option<State>)
    | ProvisionPersists(id: int)
    | ProvisionFails(id: int)
    | Begin(id: int, kind: Kind)
    | TakeLock(id: int)
    | Observe(id: int)
    | PersistObserved(id: int, recovered: bool)
    | Decide(id: int)
    | Act(id: int, state: State)
    | StartThrows(id: int, left: Option<State>)
    | PersistActed(id: int)
    | RemoveRow(id: int)
    | Aborts(id: int)
    | Drift(id: int, left: Option<State>)

  function Occupied(rows: map<int, Row>): set<int> {
    set id | id in rows && Occupies(rows[id])
  }

  /** The user has a row. */
  predicate Owned(rows: map<int, Row>, user: int) {
    exists id :: id in rows && rows[id].user == user
  }

  /** What the runtime shows of a container. */
  function Look(runtime: map<int, State>, id: int): Option<State> {
    if id in runtime then Some(runtime[id]) else None
  }

  predicate Lives(w: World, id: int) { id in w.runtime && Alive(w.runtime[id]) }

  predicate Busy(w: World, id: int) { id in w.ops }

  predicate Locked(w: World, id: int) { w.lock == Some(ForContainer(id)) }

  /** A runtime never brings a container up by itself; one that is coming up may arrive. */
  predicate Drifts(w: World, id: int, left: Option<State>) {
    left.Some? && Alive(left.value) ==>
        id in w.runtime && (w.runtime[id] == left.value || (w.runtime[id].Coming? && left.value.Up?))
  }

  predicate Enabled(w: World, s: Step) {
    match s
    case ReserveLocks(_) => w.lock.None?
    case ReserveLooks => w.lock.Some? && w.lock.value.Reserving? && !w.lock.value.unseen
    case ReserveCounts => w.lock.Some? && w.lock.value.Reserving? && w.lock.value.unseen && !w.lock.value.counted
    case ReserveSaves(id) => w.lock.Some? && w.lock.value.Reserving? && w.lock.value.counted && id !in w.used
    case ReserveThrows => w.lock.Some? && w.lock.value.Reserving?
    case ProvisionAnswers(id, _) => id in w.provisions && w.provisions[id].Asked?
    case ProvisionThrows(id, _) => id in w.provisions && w.provisions[id].Asked?
    case ProvisionPersists(id) => id in w.provisions && w.provisions[id].Answered? && id in w.rows
    case ProvisionFails(id) => id in w.provisions && !w.provisions[id].Asked? && id in w.rows
    case Begin(id, kind) => id in w.rows && !Busy(w, id) && !kind.RecoverOp?
    case TakeLock(id) => Busy(w, id) && w.ops[id].phase.WantLock? && w.lock.None?
    case Observe(id) => Busy(w, id) && w.ops[id].phase.WantObserve? && id in w.rows && !w.rows[id].status.Creating?
    case PersistObserved(id, _) => Busy(w, id) && w.ops[id].phase.Observed? && id in w.rows
    case Decide(id) => Busy(w, id) && w.ops[id].phase.Settled? && id in w.rows
    case Act(id, state) =>
      Busy(w, id) && w.ops[id].phase.Cleared? && (w.ops[id].kind.StartOp? || Drifts(w, id, Some(state)))
    case StartThrows(id, _) => Busy(w, id) && w.ops[id].phase.Cleared? && w.ops[id].kind.StartOp?
    case PersistActed(id) => Busy(w, id) && w.ops[id].phase.Acted? && id in w.rows
    case RemoveRow(id) => Busy(w, id) && w.ops[id].kind.RemoveOp? && w.ops[id].phase.Settled?
    case Aborts(id) => Busy(w, id)
    case Drift(id, left) => id in w.runtime && Drifts(w, id, left)
  }

  /** The operation ends: lease and, if held, lock are released. */
  function End(w: World, id: int): World {
    w.(ops := w.ops - {id}, lock := if Locked(w, id) then None else w.lock)
  }

  function At(w: World, id: int, phase: Phase): World
    requires Busy(w, id)
  {
    w.(ops := w.ops[id := w.ops[id].(phase := phase)])
  }

  function Leave(runtime: map<int, State>, id: int, left: Option<State>): map<int, State> {
    if left.Some? then runtime[id := left.value] else runtime - {id}
  }

  function DecideOp(w: World, id: int): World
    requires Busy(w, id) && id in w.rows
  {
    match w.ops[id].kind
    case SyncOp => End(w, id)
    case RecoverOp => End(w, id)
    case StartOp =>
      if !w.rows[id].status.Stopped? || |Occupied(w.rows)| >= w.limits.maxRunning then End(w, id)
      else At(w, id, Cleared)
    case StopOp(reason) =>
      if w.rows[id].status.Stopped? then End(w.(rows := w.rows[id := w.rows[id].(stopReason := Some(reason))]), id)
      else if !w.rows[id].status.Running? then End(w, id)
      else At(w, id, Cleared)
    case RemoveOp => w
  }

  /** The row an operation stores after its runtime call answered. */
  function ActedRow(row: Row, op: Op): Row
    requires op.phase.Acted?
  {
    if op.kind.StopOp? then ProjectRow(row, op.phase.state, Some(op.kind.reason), None, false)
    else ProjectRow(row, op.phase.state, row.stopReason, Some(Up), false)
  }

  function Apply(w: World, s: Step): World
    requires Enabled(w, s)
  {
    match s
    case ReserveLocks(user) => w.(lock := Some(Reserving(user, false, false)))
    case ReserveLooks =>
      if Owned(w.rows, w.lock.value.user) then w.(lock := None) else w.(lock := Some(w.lock.value.(unseen := true)))
    case ReserveCounts =>
      if |w.rows| >= w.limits.maxTotal || |Occupied(w.rows)| >= w.limits.maxRunning then w.(lock := None)
      else w.(lock := Some(w.lock.value.(counted := true)))
    case ReserveSaves(id) =>
      w.(rows := w.rows[id := Row(w.lock.value.user, Creating, None)], provisions := w.provisions[id := Asked],
         used := w.used + {id}, lock := None)
    case ReserveThrows => w.(lock := None)
    case ProvisionAnswers(id, state) =>
      w.(runtime := w.runtime[id := state], provisions := w.provisions[id := Answered(state)])
    case ProvisionThrows(id, left) =>
      w.(runtime := Leave(w.runtime, id, left), provisions := w.provisions[id := Refused])
    case ProvisionPersists(id) =>
      w.(rows := w.rows[id := ProjectRow(w.rows[id], w.provisions[id].state, None, None, false)],
          provisions := w.provisions - {id})
    case ProvisionFails(id) =>
      w.(rows := w.rows[id := w.rows[id].(status := Failed, stopReason := Some(Failure))],
          provisions := w.provisions - {id})
    case Begin(id, kind) => w.(ops := w.ops[id := Op(kind, if kind.SyncOp? then WantObserve else WantLock)])
    case TakeLock(id) => At(w, id, WantObserve).(lock := Some(ForContainer(id)))
    case Observe(id) =>
      if w.ops[id].kind.RemoveOp? then At(w, id, Settled).(runtime := w.runtime - {id})
      else if id in w.runtime then At(w, id, Observed(w.runtime[id]))
      else End(w, id)
    case PersistObserved(id, recovered) =>
      var row := ProjectRow(w.rows[id], w.ops[id].phase.state, w.rows[id].stopReason, None, recovered);
      At(w, id, Settled).(rows := w.rows[id := row])
    case Decide(id) => DecideOp(w, id)
    case Act(id, state) => At(w, id, Acted(state)).(runtime := w.runtime[id := state])
    case StartThrows(id, left) =>
      w.(ops := w.ops[id := Op(RecoverOp, WantObserve)], runtime := Leave(w.runtime, id, left))
    case PersistActed(id) => End(w.(rows := w.rows[id := ActedRow(w.rows[id], w.ops[id])]), id)
    case RemoveRow(id) => End(w.(rows := w.rows - {id}), id)
    case Aborts(id) => End(w, id)
    case Drift(id, left) => w.(runtime := Leave(w.runtime, id, left))
  }

  function Play(w: World, steps: seq<Step>): Option<World>
    decreases |steps|
  {
    if steps == [] then Some(w)
    else if Enabled(w, steps[0]) then Play(Apply(w, steps[0]), steps[1..])
    else None
  }

  function Empty(limits: Limits): World {
    World(limits, map[], map[], None, map[], map[], {})
  }
}

/** The running limit holds over every interleaving in which no live container is disowned. */
module CapacitySafety {
  import opened Common
  import opened Capacity

  /** A start that saw room and keeps it by holding the lock. */
  predicate Starting(w: World, id: int) {
    && Busy(w, id)
    && (|| (w.ops[id].kind.StartOp? && (w.ops[id].phase.Cleared? || w.ops[id].phase.Acted?))
        || (w.ops[id].kind.RecoverOp? && (w.ops[id].phase.WantObserve? || w.ops[id].phase.Observed?)))
  }

  /**
   * A step gives up a live container when it ends the only record that counts it: a provision marked failed, or a
   * start cut off between the runtime call and the store, while the container runs.
   */
  predicate Disowns(w: World, s: Step) {
    match s
    case ProvisionFails(id) => Lives(w, id)
    case Aborts(id) => Starting(w, id) && Lives(w, id)
    case _ => false
  }

  ghost predicate AllOwned(w: World, steps: seq<Step>)
    decreases |steps|
  {
    steps == [] || (Enabled(w, steps[0]) && !Disowns(w, steps[0]) && AllOwned(Apply(w, steps[0]), steps[1..]))
  }

  /** Room that the holder of the lock has seen and that nobody else can take. */
  predicate HolderOk(w: World) {
    match w.lock
    case None => true
    case Some(Reserving(user, unseen, counted)) =>
      && (unseen ==> !Owned(w.rows, user))
      && (counted ==> unseen && |w.rows| < w.limits.maxTotal && |Occupied(w.rows)| < w.limits.maxRunning)
    case Some(ForContainer(id)) => Busy(w, id)
  }

  /** What an operation saw is still at least as alive as the container. */
  predicate SawEnough(w: World, id: int, op: Op) {
    && (op.phase.Observed? || op.phase.Acted? ==> (Lives(w, id) ==> Alive(op.phase.state)))
    && (op.phase.Settled? && op.kind.RemoveOp? ==> id !in w.runtime)
  }

  predicate OpOk(w: World, id: int, op: Op) {
    && id in w.rows
    && (op.phase.WantLock? ==> !op.kind.SyncOp? && !op.kind.RecoverOp?)
    && (!op.phase.WantLock? && !op.kind.SyncOp? ==> Locked(w, id))
    && (!op.phase.WantLock? && !op.phase.WantObserve? ==> id !in w.provisions)
    && (op.phase.Observed? ==>
        !op.kind.RemoveOp? && (Alive(op.phase.state) ==> Occupies(w.rows[id]) || Starting(w, id)))
    && (op.phase.Cleared? || op.phase.Acted? ==> op.kind.StartOp? || op.kind.StopOp?)
    && (op.kind.StopOp? && (op.phase.Cleared? || op.phase.Acted?) ==> w.rows[id].status.Running?)
    && (Starting(w, id) ==>
          id !in w.provisions && w.rows[id].status.Stopped? && |Occupied(w.rows)| < w.limits.maxRunning)
  }

  /** A live container occupies a counted place, or is being started in the place the start has seen. */
  predicate Counted(w: World, id: int) {
    Lives(w, id) ==> id in w.rows && (Occupies(w.rows[id]) || Starting(w, id))
  }

  predicate ProvisionOk(w: World, id: int)
    requires id in w.provisions
  {
    && id in w.rows && w.rows[id].status.Creating?
    && (w.provisions[id].Answered? && Lives(w, id) ==> Alive(w.provisions[id].state))
  }

  /** All that is demanded of one container. */
  predicate LocalOk(w: World, id: int) {
    && (id in w.rows ==> id in w.used)
    && (id in w.provisions ==> ProvisionOk(w, id))
    && (id in w.ops ==> OpOk(w, id, w.ops[id]) && SawEnough(w, id, w.ops[id]))
    && Counted(w, id)
  }

  ghost predicate OneEach(w: World) {
    forall i, j :: i in w.rows && j in w.rows && w.rows[i].user == w.rows[j].user ==> i == j
  }

  ghost predicate WithinLimits(w: World) {
    |w.rows| <= w.limits.maxTotal && |Occupied(w.rows)| <= w.limits.maxRunning
  }

  ghost predicate Inv(w: World) {
    WithinLimits(w) && OneEach(w) && HolderOk(w) && forall id :: LocalOk(w, id)
  }

  // ----- counting -----

  /** The counted rows are those whose container runs or is being created. */
  lemma OccupiedMeans(rows: map<int, Row>)
    ensures Occupied(rows) == set id | id in rows && (rows[id].status.Running? || rows[id].status.Creating?)
  {
    var counted := set id | id in rows && (rows[id].status.Running? || rows[id].status.Creating?);
    forall id ensures id in Occupied(rows) <==> id in counted {}
  }

  lemma SubsetCounts(small: set<int>, large: set<int>)
    requires small <= large
    ensures |small| <= |large|
  {
    assert large == small + (large - small);
  }

  /** Changing one row adds at most that row to the occupied places, and none unless it newly occupies. */
  lemma OccupiedAfter(rows: map<int, Row>, id: int, row: Row)
    ensures |Occupied(rows[id := row])| <= |Occupied(rows)| + 1
    ensures (id in rows && Occupies(rows[id])) || !Occupies(row) ==> |Occupied(rows[id := row])| <= |Occupied(rows)|
    ensures |rows[id := row]| == if id in rows then |rows| else |rows| + 1
  {
    var after := Occupied(rows[id := row]);
    assert rows[id := row].Keys == rows.Keys + {id};
    SubsetCounts(after, Occupied(rows) + {id});
    if (id in rows && Occupies(rows[id])) || !Occupies(row) {
      SubsetCounts(after, Occupied(rows));
    }
  }

  lemma OccupiedWithout(rows: map<int, Row>, id: int)
    ensures |Occupied(rows - {id})| <= |Occupied(rows)|
    ensures |rows - {id}| <= |rows|
  {
    SubsetCounts(Occupied(rows - {id}), Occupied(rows));
    assert (rows - {id}).Keys == rows.Keys - {id};
    SubsetCounts((rows - {id}).Keys, rows.Keys);
  }

  lemma FewerOwners(rows: map<int, Row>, id: int)
    ensures forall user :: Owned(rows - {id}, user) ==> Owned(rows, user)
  {
    forall user | Owned(rows - {id}, user) ensures Owned(rows, user) {
      var k :| k in rows - {id} && (rows - {id})[k].user == user;
      assert k in rows && rows[k].user == user;
    }
  }

  // ----- every step keeps the invariant -----

  predicate IsReservation(s: Step) {
    s.ReserveLocks? || s.ReserveLooks? || s.ReserveCounts? || s.ReserveSaves? || s.ReserveThrows?
  }

  predicate IsProvision(s: Step) {
    s.ProvisionAnswers? || s.ProvisionThrows? || s.ProvisionPersists? || s.ProvisionFails?
  }

  predicate SameAt(w: World, w2: World, id: int) {
    && (id in w2.rows <==> id in w.rows) && (id in w.rows ==> w2.rows[id] == w.rows[id])
    && (id in w2.runtime <==> id in w.runtime) && (id in w.runtime ==> w2.runtime[id] == w.runtime[id])
    && (id in w2.ops <==> id in w.ops) && (id in w.ops ==> w2.ops[id] == w.ops[id])
    && (id in w2.provisions <==> id in w.provisions) && (id in w.provisions ==> w2.provisions[id] == w.provisions[id])
    && (Locked(w2, id) <==> Locked(w, id))
  }

  /** Nothing but the container `id` and a place in its name may differ. */
  ghost predicate OnlyAt(w: World, w2: World, id: int) {
    && w2.limits == w.limits && w.used <= w2.used
    && forall other :: other != id ==> SameAt(w, w2, other)
  }

  /** Room seen by others is still there: no place more is taken, or only `id` had seen room. */
  ghost predicate RoomStays(w: World, w2: World, id: int) {
    || |Occupied(w2.rows)| <= |Occupied(w.rows)|
    || forall other :: other != id ==> !Starting(w, other)
  }

  /** A step at one container keeps the invariant if it leaves that container, the limits and the lock in order. */
  lemma FrameKeepsInv(w: World, w2: World, id: int)
    requires Inv(w) && OnlyAt(w, w2, id) && RoomStays(w, w2, id)
    requires WithinLimits(w2) && OneEach(w2) && HolderOk(w2) && LocalOk(w2, id)
    ensures Inv(w2)
  {
    forall other ensures LocalOk(w2, other) {
      if other != id { ElsewhereKept(w, w2, id, other); }
    }
  }

  lemma ElsewhereKept(w: World, w2: World, id: int, other: int)
    requires LocalOk(w, other) && SameAt(w, w2, other) && other != id
    requires w2.limits == w.limits && w.used <= w2.used && RoomStays(w, w2, id)
    ensures LocalOk(w2, other)
  {
    assert Starting(w2, other) <==> Starting(w, other);
  }

  /** Another row of the same user keeps the rows one for each user and their number. */
  lemma SameUserKeepsRows(w: World, w2: World, id: int, row: Row)
    requires OneEach(w) && |w.rows| <= w.limits.maxTotal && id in w.rows && row.user == w.rows[id].user
    requires w2.limits == w.limits && w2.rows == w.rows[id := row]
    ensures OneEach(w2) && |w2.rows| <= w2.limits.maxTotal
    ensures forall user :: Owned(w2.rows, user) ==> Owned(w.rows, user)
  {
    OccupiedAfter(w.rows, id, row);
    forall user | Owned(w2.rows, user) ensures Owned(w.rows, user) {
      var k :| k in w2.rows && w2.rows[k].user == user;
      assert k in w.rows && w.rows[k].user == user;
    }
  }

  /** The holder's view survives while rows and occupied places do not grow and no user appears. */
  lemma HolderKept(w: World, w2: World)
    requires HolderOk(w) && w2.lock == w.lock && w2.limits == w.limits && w.ops.Keys <= w2.ops.Keys
    requires |w2.rows| <= |w.rows| && |Occupied(w2.rows)| <= |Occupied(w.rows)|
    requires forall user :: Owned(w2.rows, user) ==> Owned(w.rows, user)
    ensures HolderOk(w2)
  {
  }

  lemma LookingKeepsInv(w: World, s: Step, w2: World)
    requires Inv(w) && Enabled(w, s) && IsReservation(s) && !s.ReserveSaves? && w2 == Apply(w, s)
    ensures Inv(w2)
  {
    assert w2 == w.(lock := w2.lock) && HolderOk(w2);
    forall id ensures LocalOk(w2, id) {
      assert LocalOk(w, id) && SameAt(w, w2, id);
      ElsewhereKept(w, w2, id + 1, id);
    }
  }

  /** Nobody but the reservation saw room, and its user had no row. */
  lemma SavingKeepsInv(w: World, s: Step, w2: World)
    requires Inv(w) && Enabled(w, s) && s.ReserveSaves? && w2 == Apply(w, s)
    ensures Inv(w2)
  {
    var row := Row(w.lock.value.user, Creating, None);
    assert LocalOk(w, s.id);
    OccupiedAfter(w.rows, s.id, row);
    assert OneEach(w2) by {
      forall i | i in w.rows ensures w.rows[i].user != row.user {
        assert !Owned(w.rows, row.user);
      }
    }
    NobodyStarts(w);
    FrameKeepsInv(w, w2, s.id);
  }

  /** While a reservation holds the lock no start has seen room. */
  lemma NobodyStarts(w: World)
    requires Inv(w) && w.lock.Some? && w.lock.value.Reserving?
    ensures forall other :: !Starting(w, other)
  {
    forall other ensures !Starting(w, other) {
      assert LocalOk(w, other);
    }
  }

  lemma AnswerKeepsInv(w: World, s: Step, w2: World)
    requires Inv(w) && Enabled(w, s) && (s.ProvisionAnswers? || s.ProvisionThrows?) && w2 == Apply(w, s)
    ensures Inv(w2)
  {
    assert LocalOk(w, s.id);
    FrameKeepsInv(w, w2, s.id);
  }

  lemma SettlingKeepsInv(w: World, s: Step, w2: World)
    requires Inv(w) && Enabled(w, s) && !Disowns(w, s) && w2 == Apply(w, s)
    requires s.ProvisionPersists? || s.ProvisionFails?
    ensures Inv(w2)
  {
    assert LocalOk(w, s.id);
    OccupiedAfter(w.rows, s.id, w2.rows[s.id]);
    SameUserKeepsRows(w, w2, s.id, w2.rows[s.id]);
    HolderKept(w, w2);
    FrameKeepsInv(w, w2, s.id);
  }

  /** Ending an operation frees its place only when no live container depends on it. */
  lemma EndKeepsInv(w: World, id: int, w2: World)
    requires Inv(w) && Busy(w, id) && !(Starting(w, id) && Lives(w, id)) && w2 == End(w, id)
    ensures Inv(w2)
  {
    assert LocalOk(w, id);
    FrameKeepsInv(w, w2, id);
  }

  lemma BeginKeepsInv(w: World, s: Step, w2: World)
    requires Inv(w) && Enabled(w, s) && w2 == Apply(w, s)
    requires s.Begin? || s.TakeLock?
    ensures Inv(w2)
  {
    assert LocalOk(w, s.id);
    FrameKeepsInv(w, w2, s.id);
  }

  lemma DriftKeepsInv(w: World, s: Step, w2: World)
    requires Inv(w) && Enabled(w, s) && s.Drift? && w2 == Apply(w, s)
    ensures Inv(w2)
  {
    assert LocalOk(w, s.id) && w2 == w.(runtime := Leave(w.runtime, s.id, s.left));
    assert OnlyAt(w, w2, s.id) && LocalOk(w2, s.id);
    FrameKeepsInv(w, w2, s.id);
  }

  lemma ObserveKeepsInv(w: World, s: Step, w2: World)
    requires Inv(w) && Enabled(w, s) && s.Observe? && w2 == Apply(w, s)
    ensures Inv(w2)
  {
    assert LocalOk(w, s.id);
    if !w.ops[s.id].kind.RemoveOp? && s.id !in w.runtime {
      EndKeepsInv(w, s.id, w2);
    } else {
      FrameKeepsInv(w, w2, s.id);
    }
  }

  lemma RuntimeCallKeepsInv(w: World, s: Step, w2: World)
    requires Inv(w) && Enabled(w, s) && w2 == Apply(w, s)
    requires s.Act? || s.StartThrows?
    ensures Inv(w2)
  {
    assert LocalOk(w, s.id);
    FrameKeepsInv(w, w2, s.id);
  }

  /** Noting another reason on a row changes nothing that is counted. */
  lemma ReasonKeepsInv(w: World, id: int, reason: Option<StopReason>, w2: World)
    requires Inv(w) && id in w.rows && w2 == w.(rows := w.rows[id := w.rows[id].(stopReason := reason)])
    ensures Inv(w2)
  {
    assert LocalOk(w, id);
    SameUserKeepsRows(w, w2, id, w2.rows[id]);
    assert Occupied(w2.rows) == Occupied(w.rows);
    HolderKept(w, w2);
    FrameKeepsInv(w, w2, id);
  }

  lemma ClearedKeepsInv(w: World, id: int, w2: World)
    requires Inv(w) && Busy(w, id) && id in w.rows && w.ops[id].phase.Settled? && w2 == At(w, id, Cleared)
    requires w.ops[id].kind.StartOp? ==> w.rows[id].status.Stopped? && |Occupied(w.rows)| < w.limits.maxRunning
    requires w.ops[id].kind.StartOp? || (w.ops[id].kind.StopOp? && w.rows[id].status.Running?)
    ensures Inv(w2)
  {
    assert LocalOk(w, id);
    FrameKeepsInv(w, w2, id);
  }

  lemma DecideKeepsInv(w: World, s: Step, w2: World)
    requires Inv(w) && Enabled(w, s) && s.Decide? && w2 == Apply(w, s)
    ensures Inv(w2)
  {
    assert LocalOk(w, s.id);
    if w2 == End(w, s.id) {
      EndKeepsInv(w, s.id, w2);
    } else if w2 == At(w, s.id, Cleared) {
      ClearedKeepsInv(w, s.id, w2);
    } else if w2 != w {
      var reason := Some(w.ops[s.id].kind.reason);
      var noted := w.(rows := w.rows[s.id := w.rows[s.id].(stopReason := reason)]);
      ReasonKeepsInv(w, s.id, reason, noted);
      EndKeepsInv(noted, s.id, w2);
    }
  }

  /** Only a start that holds the lock turns a row into a counted one. */
  lemma StoredRowKeepsInv(w: World, id: int, row: Row, w2: World)
    requires Inv(w) && Busy(w, id) && id in w.rows && row.user == w.rows[id].user
    requires w2.limits == w.limits && w2.rows == w.rows[id := row] && w2.used == w.used && OnlyAt(w, w2, id)
    requires Occupies(row) ==> Occupies(w.rows[id]) || Starting(w, id)
    requires w2.lock == w.lock || (Locked(w, id) && w2.lock.None?)
    requires w2.lock == w.lock ==> w.ops.Keys <= w2.ops.Keys
    requires LocalOk(w2, id)
    ensures Inv(w2)
  {
    assert LocalOk(w, id);
    OccupiedAfter(w.rows, id, row);
    SameUserKeepsRows(w, w2, id, row);
    if Starting(w, id) {
      forall other | other != id ensures !Starting(w, other) {
        assert LocalOk(w, other);
      }
    } else {
      assert |Occupied(w2.rows)| <= |Occupied(w.rows)|;
      if w2.lock == w.lock { HolderKept(w, w2); }
    }
    FrameKeepsInv(w, w2, id);
  }

  lemma ObservedRowKeepsInv(w: World, s: Step, w2: World)
    requires Inv(w) && Enabled(w, s) && s.PersistObserved? && w2 == Apply(w, s)
    ensures Inv(w2)
  {
    assert LocalOk(w, s.id);
    StoredRowKeepsInv(w, s.id, w2.rows[s.id], w2);
  }

  lemma ActedRowKeepsInv(w: World, s: Step, w2: World)
    requires Inv(w) && Enabled(w, s) && s.PersistActed? && w2 == Apply(w, s)
    ensures Inv(w2)
  {
    assert LocalOk(w, s.id);
    var stored := w.(rows := w.rows[s.id := ActedRow(w.rows[s.id], w.ops[s.id])]);
    assert w2 == End(stored, s.id);
    StoredRowKeepsInv(w, s.id, w2.rows[s.id], w2);
  }

  /** A row without a container and with nothing under way may go. */
  lemma DroppedRowKeepsInv(w: World, id: int, w2: World)
    requires Inv(w) && !Busy(w, id) && !Lives(w, id) && id !in w.provisions
    requires w2 == w.(rows := w.rows - {id})
    ensures Inv(w2)
  {
    OccupiedWithout(w.rows, id);
    assert HolderOk(w2) by {
      FewerOwners(w.rows, id);
      HolderKept(w, w2);
    }
    assert LocalOk(w2, id) by { assert LocalOk(w, id); }
    assert OnlyAt(w, w2, id) by {
      forall other | other != id ensures SameAt(w, w2, other) {}
    }
    assert OneEach(w2);
    FrameKeepsInv(w, w2, id);
  }

  lemma RemovalKeepsInv(w: World, s: Step, w2: World)
    requires Inv(w) && Enabled(w, s) && s.RemoveRow? && w2 == Apply(w, s)
    ensures Inv(w2)
  {
    assert LocalOk(w, s.id);
    EndKeepsInv(w, s.id, End(w, s.id));
    DroppedRowKeepsInv(End(w, s.id), s.id, w2);
  }

  lemma OwningStepKeepsInv(w: World, s: Step)
    requires Inv(w) && Enabled(w, s) && !Disowns(w, s)
    ensures Inv(Apply(w, s))
  {
    var w2 := Apply(w, s);
    match s
    case ReserveLocks(_) => LookingKeepsInv(w, s, w2);
    case ReserveLooks => LookingKeepsInv(w, s, w2);
    case ReserveCounts => LookingKeepsInv(w, s, w2);
    case ReserveThrows => LookingKeepsInv(w, s, w2);
    case ReserveSaves(_) => SavingKeepsInv(w, s, w2);
    case ProvisionAnswers(_, _) => AnswerKeepsInv(w, s, w2);
    case ProvisionThrows(_, _) => AnswerKeepsInv(w, s, w2);
    case ProvisionPersists(_) => SettlingKeepsInv(w, s, w2);
    case ProvisionFails(_) => SettlingKeepsInv(w, s, w2);
    case Begin(_, _) => BeginKeepsInv(w, s, w2);
    case TakeLock(_) => BeginKeepsInv(w, s, w2);
    case Observe(_) => ObserveKeepsInv(w, s, w2);
    case Drift(_, _) => DriftKeepsInv(w, s, w2);
    case PersistObserved(_, _) => ObservedRowKeepsInv(w, s, w2);
    case Decide(_) => DecideKeepsInv(w, s, w2);
    case Act(_, _) => RuntimeCallKeepsInv(w, s, w2);
    case StartThrows(_, _) => RuntimeCallKeepsInv(w, s, w2);
    case PersistActed(_) => ActedRowKeepsInv(w, s, w2);
    case RemoveRow(_) => RemovalKeepsInv(w, s, w2);
    case Aborts(id) => EndKeepsInv(w, id, w2);
  }

  /** Exactly the steps that give up no live container keep every live container counted. */
  lemma StepKeepsInv(w: World, s: Step)
    requires Inv(w) && Enabled(w, s)
    ensures Inv(Apply(w, s)) <==> !Disowns(w, s)
  {
    if Disowns(w, s) {
      var next := Apply(w, s);
      assert !Counted(next, s.id) && !LocalOk(next, s.id) by { assert LocalOk(w, s.id); }
    } else {
      OwningStepKeepsInv(w, s);
    }
  }

  lemma {:induction false} PlayKeepsInv(w: World, steps: seq<Step>)
    requires Inv(w) && Play(w, steps).Some? && AllOwned(w, steps)
    ensures Inv(Play(w, steps).value)
    decreases |steps|
  {
    if steps != [] {
      StepKeepsInv(w, steps[0]);
      PlayKeepsInv(Apply(w, steps[0]), steps[1..]);
    }
  }

  /** The policy of a run never changes. */
  lemma {:induction false} LimitsAreFixed(w: World, steps: seq<Step>)
    requires Play(w, steps).Some?
    ensures Play(w, steps).value.limits == w.limits
    decreases |steps|
  {
    if steps != [] { LimitsAreFixed(Apply(w, steps[0]), steps[1..]); }
  }

  // ----- the promise -----

  ghost function Living(w: World): set<int> {
    set id | id in w.runtime && Alive(w.runtime[id])
  }

  /** Live containers fit into the running limit, the one being started included. */
  lemma LivingFit(w: World)
    requires Inv(w)
    ensures |Living(w)| <= w.limits.maxRunning
  {
    if exists id :: id in w.ops && Starting(w, id) {
      var id :| id in w.ops && Starting(w, id);
      assert LocalOk(w, id);
      forall other | other in Living(w) ensures other in Occupied(w.rows) + {id} {
        assert LocalOk(w, other);
      }
      SubsetCounts(Living(w), Occupied(w.rows) + {id});
    } else {
      forall other | other in Living(w) ensures other in Occupied(w.rows) {
        assert LocalOk(w, other);
      }
      SubsetCounts(Living(w), Occupied(w.rows));
    }
  }

  /**
   * Under every interleaving of provisions, starts, stops, removals, syncs, crashes and failures in which no step
   * disowns a live container, running and creating rows and the containers that really live stay within the running
   * limit.  The total limit and the one container per user need no such demand: see CapacityEveryRun.
   */
  lemma RunningLimitHolds(limits: Limits, steps: seq<Step>)
    requires Play(Empty(limits), steps).Some? && AllOwned(Empty(limits), steps)
    ensures var w := Play(Empty(limits), steps).value;
            && |set id | id in w.rows && (w.rows[id].status.Running? || w.rows[id].status.Creating?)|
                 <= limits.maxRunning
            && |set id | id in w.runtime && (w.runtime[id].Up? || w.runtime[id].Coming?)| <= limits.maxRunning
  {
    EmptyInv(limits);
    PlayKeepsInv(Empty(limits), steps);
    LimitsAreFixed(Empty(limits), steps);
    var w := Play(Empty(limits), steps).value;
    LivingFit(w);
    OccupiedMeans(w.rows);
    LivingMeans(w);
  }

  lemma LivingMeans(w: World)
    ensures Living(w) == set id | id in w.runtime && (w.runtime[id].Up? || w.runtime[id].Coming?)
  {
    var living := set id | id in w.runtime && (w.runtime[id].Up? || w.runtime[id].Coming?);
    forall id ensures id in Living(w) <==> id in living {}
  }

  lemma EmptyInv(limits: Limits)
    ensures Inv(Empty(limits))
  {
    assert Occupied(Empty(limits).rows) == {};
  }

  // ----- without that demand the limit fails -----

  /** The four stretches of a reservation that finds room. */
  function Reserved(w: World, user: int, id: int): (r: World)
    requires w.lock.None? && !Owned(w.rows, user) && id !in w.used
    requires |w.rows| < w.limits.maxTotal && |Occupied(w.rows)| < w.limits.maxRunning
    ensures r == w.(rows := w.rows[id := Row(user, Creating, None)], provisions := w.provisions[id := Asked],
        used := w.used + {id})
  {
    var locked := Apply(w, ReserveLocks(user));
    var looked := Apply(locked, ReserveLooks);
    var counted := Apply(looked, ReserveCounts);
    Apply(counted, ReserveSaves(id))
  }

  /**
   * One place: the runtime call of the first provision throws after its container came up, and the row is marked
   * failed.
   */
  function Disowned(): (w: World)
    ensures w == World(Limits(2, 1), map[1 := Row(1, Failed, Some(Failure))], map[1 := Up], None, map[], map[], {1})
  {
    var empty := Empty(Limits(2, 1));
    assert Occupied(empty.rows) == {};
    Apply(Apply(Reserved(empty, 1, 1), ProvisionThrows(1, Some(Up))), ProvisionFails(1))
  }

  /** The runtime brings a reserved container up and the row is stored. */
  function Provisioned(w: World, id: int): (r: World)
    requires id in w.rows && id in w.provisions && w.provisions[id].Asked? && w.rows[id].status.Creating?
    ensures r == w.(rows := w.rows[id := Row(w.rows[id].user, Running, None)], runtime := w.runtime[id := Up],
                    provisions := w.provisions - {id})
  {
    var answered := Apply(w, ProvisionAnswers(id, Up));
    Apply(answered, ProvisionPersists(id))
  }

  /** A sync of a failed row whose container runs. */
  function Synced(w: World, id: int): (r: World)
    requires id in w.rows && !Busy(w, id) && w.rows[id].status.Failed? && id in w.runtime && w.runtime[id].Up?
    ensures r.rows == w.rows[id := Row(w.rows[id].user, Running, None)] && r.limits == w.limits
  {
    var begun := Apply(w, Begin(id, SyncOp));
    var seen := Apply(begun, Observe(id));
    Apply(seen, PersistObserved(id, false))
  }

  /** A second user takes the place ... */
  function SecondUser(): (w: World)
    ensures w.rows == Disowned().rows[2 := Row(2, Running, None)] && w.limits == Limits(2, 1)
    ensures w.ops == map[] && 1 in w.runtime && w.runtime[1].Up?
  {
    var first := Disowned();
    assert Occupied(first.rows) == {};
    Provisioned(Reserved(first, 2, 2), 2)
  }

  /** ... and a later sync of the first row turns it back to running. */
  function Overbooked(): (w: World)
    ensures w.rows == Disowned().rows[2 := Row(2, Running, None)][1 := Row(1, Running, None)] &&
        w.limits == Limits(2, 1)
  {
    Synced(SecondUser(), 1)
  }

  lemma DisownedContainerOverbooks()
    ensures |Occupied(Overbooked().rows)| == 2 > Overbooked().limits.maxRunning
  {
    assert Occupied(Overbooked().rows) == {1, 2};
  }
}
