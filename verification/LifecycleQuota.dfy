/**
 * The quota ledger beside the capacity lock: reservations are taken and moved only by whoever holds the lock, while a
 * provision that fails gives its reservation back without it.
 */
module LifecycleQuota {
  import opened Common
  import Capacity
  import QuotaLedger
  import QuotaSafety

  /** `undo` is a reservation as it was before the present holder of the lock moved it from running to stopped. */
  datatype World = World(capacity: Capacity.World, ledger: QuotaLedger.Ledger, undo: Option<QuotaLedger.Request>)

  datatype Step = Moves(step: Capacity.Step) | Calls(call: QuotaLedger.Call)

  /** An operation that has taken the lock and not ended. */
  predicate Acting(c: Capacity.World, id: int) {
    Capacity.Busy(c, id) && !c.ops[id].phase.WantLock? && !c.ops[id].kind.SyncOp?
  }

  predicate Enabled(w: World, s: Step) {
    match s
    case Moves(step) => Capacity.Enabled(w.capacity, step)
    case Calls(AdmitCall(_)) => true
    case Calls(SetAvailable(_)) => true
    case Calls(ReleaseCall(_)) => true
    case Calls(ReserveCall(_)) => w.capacity.lock.Some? && w.capacity.lock.value.Reserving?
    case Calls(TransitionCall(id, _)) => Acting(w.capacity, id)
  }

  /** The reservation under the id, if it is held and running. */
  function RunningOne(l: QuotaLedger.Ledger, id: int): Option<QuotaLedger.Request> {
    var i := QuotaLedger.IndexOf(l.reservations, id);
    if i < |l.reservations| && l.reservations[i].running then Some(l.reservations[i]) else None
  }

  function Apply(policy: QuotaLedger.Policy, w: World, s: Step): World
    requires Enabled(w, s)
  {
    match s
    case Moves(step) =>
      var next := Capacity.Apply(w.capacity, step);
      World(next, w.ledger, if next.lock == w.capacity.lock then w.undo else None)
    case Calls(call) =>
      var r := QuotaLedger.Respond(policy, w.ledger, call);
      var undo := if !call.TransitionCall? then w.undo
                  else if call.running then None
                  else if r.1 == QuotaLedger.Found(true) && RunningOne(w.ledger, call.id).Some?
                       then RunningOne(w.ledger, call.id)
                  else w.undo;
      World(w.capacity, r.0, undo)
  }

  function Initial(limits: Capacity.Limits, available: bool): World {
    World(Capacity.Empty(limits), QuotaLedger.Ledger(available, []), None)
  }

  function Play(policy: QuotaLedger.Policy, w: World, steps: seq<Step>): Option<World>
    decreases |steps|
  {
    if steps == [] then Some(w)
    else if Enabled(w, steps[0]) then Play(policy, Apply(policy, w, steps[0]), steps[1..])
    else None
  }

  // ----- invariant -----

  /** Whoever acts holds the lock, so at most one operation acts, and none while a reservation is made. */
  ghost predicate OneActs(c: Capacity.World) {
    forall id :: Acting(c, id) ==> Capacity.Locked(c, id)
  }

  /** What was moved can be moved back, unless it was released meanwhile. */
  ghost predicate UndoOk(policy: QuotaLedger.Policy, w: World) {
    w.undo.Some? ==>
      && Capacity.Locked(w.capacity, w.undo.value.reservationId) && w.undo.value.running
      && (QuotaLedger.Holds(w.ledger.reservations, w.undo.value.reservationId) ==>
            QuotaSafety.RoomFor(policy, w.ledger, w.undo.value))
  }

  ghost predicate Inv(policy: QuotaLedger.Policy, w: World) {
    OneActs(w.capacity) && QuotaSafety.Inv(policy, w.ledger) && UndoOk(policy, w)
  }

  lemma StepKeepsOneActs(c: Capacity.World, s: Capacity.Step, c2: Capacity.World)
    requires OneActs(c) && Capacity.Enabled(c, s) && c2 == Capacity.Apply(c, s)
    ensures OneActs(c2)
  {
    forall id | Acting(c2, id) ensures Capacity.Locked(c2, id) {
      ActingHolds(c, s, c2, id);
    }
  }

  lemma ActingHolds(c: Capacity.World, s: Capacity.Step, c2: Capacity.World, id: int)
    requires OneActs(c) && Capacity.Enabled(c, s) && c2 == Capacity.Apply(c, s) && Acting(c2, id)
    ensures Capacity.Locked(c2, id)
  {
    if s.TakeLock? && s.id == id {
      assert c2.lock == Some(Capacity.ForContainer(id));
    } else {
      assert Acting(c, id);
    }
  }

  /** The holder of the lock moved its running reservation to stopped: there is room to take it back. */
  lemma StopLeavesRoom(policy: QuotaLedger.Policy, l: QuotaLedger.Ledger, id: int)
    requires QuotaSafety.Inv(policy, l) && RunningOne(l, id).Some?
    ensures var next := QuotaLedger.Transitioned(policy, l, id, false);
            next.1 == QuotaLedger.Found(true) ==> QuotaSafety.RoomFor(policy, next.0, RunningOne(l, id).value)
  {
    var i := QuotaLedger.IndexOf(l.reservations, id);
    var next := QuotaLedger.Transitioned(policy, l, id, false);
    if next.1 == QuotaLedger.Found(true) {
      QuotaSafety.NoMoreFits(policy, l.reservations, i, l.reservations[i]);
      QuotaSafety.RoomAfterStop(policy, l, i, next.0);
    }
  }

  /** A release beside a granted stop takes that reservation away or leaves its room. */
  lemma ReleaseKeepsUndo(policy: QuotaLedger.Policy, w: World, id: int, w2: World)
    requires Inv(policy, w) && w2 == Apply(policy, w, Calls(QuotaLedger.ReleaseCall(id)))
    ensures UndoOk(policy, w2)
  {
    var rs := w.ledger.reservations;
    var i := QuotaLedger.IndexOf(rs, id);
    if w.undo.Some? && i < |rs| {
      var held := w.undo.value;
      if id == held.reservationId {
        GoneAfterRelease(rs, i);
      } else if QuotaLedger.Holds(rs, held.reservationId) {
        QuotaSafety.ReleaseKeepsRoom(policy, w.ledger, i, held);
      } else {
        NoneAfterRelease(rs, i, held.reservationId);
      }
    }
  }

  lemma GoneAfterRelease(rs: seq<QuotaLedger.Request>, i: nat)
    requires QuotaLedger.UniqueIds(rs) && i < |rs|
    ensures !QuotaLedger.Holds(QuotaLedger.Removed(rs, i), rs[i].reservationId)
  {
    var after := QuotaLedger.Removed(rs, i);
    forall k | 0 <= k < |after| ensures after[k].reservationId != rs[i].reservationId {
      assert after[k] == rs[if k < i then k else k + 1];
    }
  }

  lemma NoneAfterRelease(rs: seq<QuotaLedger.Request>, i: nat, id: int)
    requires i < |rs| && !QuotaLedger.Holds(rs, id)
    ensures !QuotaLedger.Holds(QuotaLedger.Removed(rs, i), id)
  {
    var after := QuotaLedger.Removed(rs, i);
    forall k | 0 <= k < |after| ensures after[k].reservationId != id {
      assert after[k] == rs[if k < i then k else k + 1];
    }
  }

  /** Only the holder of the lock moves a reservation, and only its own. */
  lemma TransitionKeepsUndo(policy: QuotaLedger.Policy, w: World, id: int, running: bool, w2: World)
    requires Inv(policy, w) && Enabled(w, Calls(QuotaLedger.TransitionCall(id, running)))
    requires w2 == Apply(policy, w, Calls(QuotaLedger.TransitionCall(id, running)))
    ensures UndoOk(policy, w2)
  {
    assert Capacity.Locked(w.capacity, id);
    if !running {
      if RunningOne(w.ledger, id).Some? {
        StopLeavesRoom(policy, w.ledger, id);
      } else {
        assert w2.ledger == w.ledger && w2.undo == w.undo;
      }
    }
  }

  lemma CallKeepsInv(policy: QuotaLedger.Policy, w: World, call: QuotaLedger.Call, w2: World)
    requires Inv(policy, w) && Enabled(w, Calls(call)) && w2 == Apply(policy, w, Calls(call))
    ensures Inv(policy, w2)
  {
    QuotaSafety.RespondKeepsInv(policy, w.ledger, call);
    match call
    case TransitionCall(id, running) => TransitionKeepsUndo(policy, w, id, running, w2);
    case ReleaseCall(id) => ReleaseKeepsUndo(policy, w, id, w2);
    case _ =>
      assert w.undo.Some? ==> !call.ReserveCall? && w2.ledger.reservations == w.ledger.reservations;
  }

  lemma StepKeepsInv(policy: QuotaLedger.Policy, w: World, s: Step)
    requires Inv(policy, w) && Enabled(w, s)
    ensures Inv(policy, Apply(policy, w, s))
  {
    match s
    case Moves(step) => StepKeepsOneActs(w.capacity, step, Capacity.Apply(w.capacity, step));
    case Calls(call) => CallKeepsInv(policy, w, call, Apply(policy, w, s));
  }

  lemma {:induction false} PlayKeepsInv(policy: QuotaLedger.Policy, w: World, steps: seq<Step>)
    requires Inv(policy, w) && Play(policy, w, steps).Some?
    ensures Inv(policy, Play(policy, w, steps).value)
    decreases |steps|
  {
    if steps != [] {
      StepKeepsInv(policy, w, steps[0]);
      PlayKeepsInv(policy, Apply(policy, w, steps[0]), steps[1..]);
    }
  }

  // ----- the promise -----

  /** The ledger with a reservation as it was, in its old place. */
  function Restored(l: QuotaLedger.Ledger, held: QuotaLedger.Request): QuotaLedger.Ledger
    requires QuotaLedger.Holds(l.reservations, held.reservationId)
  {
    l.(reservations := l.reservations[QuotaLedger.IndexOf(l.reservations, held.reservationId) := held])
  }

  /**
   * Under every interleaving of lifecycle operations with the quota calls they make, and of failed provisions giving
   * their reservations back at any time: as long as an operation that moved its reservation from running to stopped
   * still holds the lock, moving it back is granted and restores the very reservation, if the ledger is available and
   * the reservation was not released; if it was, the ledger says so and stays as it is.
   */
  lemma HolderCanUndo(policy: QuotaLedger.Policy, limits: Capacity.Limits, available: bool, steps: seq<Step>)
    requires Play(policy, Initial(limits, available), steps).Some?
    ensures var w := Play(policy, Initial(limits, available), steps).value;
            w.undo.Some? && w.ledger.available ==>
              var id := w.undo.value.reservationId;
              var back := QuotaLedger.Transitioned(policy, w.ledger, id, true);
              && Capacity.Locked(w.capacity, id)
              && (if QuotaLedger.Holds(w.ledger.reservations, id)
                  then back == (Restored(w.ledger, w.undo.value), QuotaLedger.Found(true))
                  else back == (w.ledger, QuotaLedger.Found(false)))
  {
    QuotaSafety.EmptyIsWithin(policy, available);
    PlayKeepsInv(policy, Initial(limits, available), steps);
    var w := Play(policy, Initial(limits, available), steps).value;
    if w.undo.Some? && w.ledger.available && QuotaLedger.Holds(w.ledger.reservations, w.undo.value.reservationId) {
      UndoIsGranted(policy, w.ledger, w.undo.value);
    }
  }

  lemma UndoIsGranted(policy: QuotaLedger.Policy, l: QuotaLedger.Ledger, held: QuotaLedger.Request)
    requires QuotaSafety.RoomFor(policy, l, held) && held.running && l.available
    ensures QuotaLedger.Transitioned(policy, l, held.reservationId, true)
         == (Restored(l, held), QuotaLedger.Found(true))
  {
    QuotaLedger.DeniedIffItDoesNotFit(policy, l.reservations, held, Some(held.reservationId));
  }
}
