/**
 * What holds over every run, disowning steps included: the total limit and one container per user.  And why the running
 * limit does not: whenever there is room for more containers than may run, a disowning step can be followed by others
 * that overbook.
 */
module CapacityEveryRun {
  import opened Common
  import opened Capacity
  import opened CapacitySafety

  /** What the holder of the lock has seen of rows and users. */
  predicate HolderSaw(w: World) {
    match w.lock
    case None => true
    case Some(Reserving(user, unseen, counted)) =>
      (unseen ==> !Owned(w.rows, user)) && (counted ==> unseen && |w.rows| < w.limits.maxTotal)
    case Some(ForContainer(id)) => Busy(w, id)
  }

  predicate OpPlaced(w: World, id: int, op: Op) {
    && id in w.rows
    && (!op.phase.WantLock? && !op.phase.WantObserve? ==> id !in w.provisions)
    && (op.phase.Observed? || op.phase.Cleared? || op.phase.Acted? ==> !op.kind.RemoveOp?)
    && (op.phase.Settled? && op.kind.RemoveOp? ==> id !in w.runtime)
  }

  predicate ProvisionPlaced(w: World, id: int) {
    id in w.rows && w.rows[id].status.Creating?
  }

  /** Every container belongs to a row, and rows stay within the total limit, one for each user. */
  ghost predicate Placed(w: World) {
    && |w.rows| <= w.limits.maxTotal && OneEach(w)
    && w.rows.Keys <= w.used && w.runtime.Keys <= w.rows.Keys
    && (forall id :: id in w.provisions ==> ProvisionPlaced(w, id))
    && (forall id :: id in w.ops ==> OpPlaced(w, id, w.ops[id]))
    && HolderSaw(w)
  }

  lemma RowCount(rows: map<int, Row>, id: int, row: Row)
    ensures |rows[id := row]| == if id in rows then |rows| else |rows| + 1
  {
    assert rows[id := row].Keys == rows.Keys + {id};
  }

  lemma FewerRows(rows: map<int, Row>, id: int)
    ensures |rows - {id}| <= |rows|
  {
    OccupiedWithout(rows, id);
  }

  lemma LookingKeepsPlaced(w: World, s: Step, w2: World)
    requires Placed(w) && Enabled(w, s) && IsReservation(s) && !s.ReserveSaves? && w2 == Apply(w, s)
    ensures Placed(w2)
  {
    assert w2 == w.(lock := w2.lock) && HolderSaw(w2);
    LockChangeKeepsPlaced(w, w2);
  }

  lemma LockChangeKeepsPlaced(w: World, w2: World)
    requires Placed(w) && w2 == w.(lock := w2.lock) && HolderSaw(w2)
    ensures Placed(w2)
  {
    assert forall id :: id in w2.provisions ==> ProvisionPlaced(w, id);
    assert forall id :: id in w2.ops ==> OpPlaced(w, id, w2.ops[id]);
  }

  lemma NewUser(w: World, id: int, row: Row)
    requires OneEach(w) && !Owned(w.rows, row.user) && id !in w.rows
    ensures OneEach(w.(rows := w.rows[id := row]))
  {
  }

  /** A new row of a user who has none, for an id never used. */
  lemma NewRowKeepsPlaced(w: World, id: int, row: Row)
    requires Placed(w) && w.lock.None? && id !in w.used && !Owned(w.rows, row.user) && |w.rows| < w.limits.maxTotal
    requires row.status.Creating?
    ensures Placed(w.(rows := w.rows[id := row], provisions := w.provisions[id := Asked], used := w.used + {id}))
  {
    RowCount(w.rows, id, row);
    NewUser(w, id, row);
  }

  lemma SavingKeepsPlaced(w: World, s: Step)
    requires Placed(w) && Enabled(w, s) && s.ReserveSaves?
    ensures Placed(Apply(w, s))
  {
    NewRowKeepsPlaced(w.(lock := None), s.id, Row(w.lock.value.user, Creating, None));
  }

  lemma ProvisionKeepsPlaced(w: World, s: Step)
    requires Placed(w) && Enabled(w, s) && IsProvision(s)
    ensures Placed(Apply(w, s))
  {
    assert ProvisionPlaced(w, s.id);
    if s.ProvisionPersists? || s.ProvisionFails? { RowCount(w.rows, s.id, Apply(w, s).rows[s.id]); }
  }

  lemma EndKeepsPlaced(w: World, id: int)
    requires Placed(w) && Busy(w, id)
    ensures Placed(End(w, id))
  {
  }

  /** A row that keeps its user and is not being created may change. */
  lemma RowChangeKeepsPlaced(w: World, id: int, row: Row)
    requires Placed(w) && id in w.rows && id !in w.provisions && row.user == w.rows[id].user
    ensures Placed(w.(rows := w.rows[id := row]))
  {
    RowCount(w.rows, id, row);
  }

  lemma ObserveKeepsPlaced(w: World, s: Step)
    requires Placed(w) && Enabled(w, s)
    requires s.Begin? || s.TakeLock? || s.Observe? || s.Drift?
    ensures Placed(Apply(w, s))
  {
    if s.Observe? && !w.ops[s.id].kind.RemoveOp? && s.id !in w.runtime { EndKeepsPlaced(w, s.id); }
  }

  lemma CallKeepsPlaced(w: World, s: Step)
    requires Placed(w) && Enabled(w, s)
    requires s.Act? || s.StartThrows?
    ensures Placed(Apply(w, s))
  {
    assert OpPlaced(w, s.id, w.ops[s.id]);
  }

  lemma DecideKeepsPlaced(w: World, s: Step)
    requires Placed(w) && Enabled(w, s) && s.Decide?
    ensures Placed(Apply(w, s))
  {
    assert OpPlaced(w, s.id, w.ops[s.id]);
    var next := Apply(w, s);
    if next == End(w, s.id) {
      EndKeepsPlaced(w, s.id);
    } else if next != At(w, s.id, Cleared) && next != w {
      var noted := w.rows[s.id].(stopReason := Some(w.ops[s.id].kind.reason));
      RowChangeKeepsPlaced(w, s.id, noted);
      EndKeepsPlaced(w.(rows := w.rows[s.id := noted]), s.id);
    }
  }

  lemma StoreKeepsPlaced(w: World, s: Step)
    requires Placed(w) && Enabled(w, s)
    requires s.PersistObserved? || s.PersistActed?
    ensures Placed(Apply(w, s))
  {
    assert OpPlaced(w, s.id, w.ops[s.id]);
    var row := Apply(w, s).rows[s.id];
    RowChangeKeepsPlaced(w, s.id, row);
    if s.PersistActed? { EndKeepsPlaced(w.(rows := w.rows[s.id := row]), s.id); }
  }

  lemma RemovalKeepsPlaced(w: World, s: Step)
    requires Placed(w) && Enabled(w, s) && s.RemoveRow?
    ensures Placed(Apply(w, s))
  {
    assert OpPlaced(w, s.id, w.ops[s.id]);
    FewerRows(w.rows, s.id);
  }

  lemma StepKeepsPlaced(w: World, s: Step)
    requires Placed(w) && Enabled(w, s)
    ensures Placed(Apply(w, s))
  {
    if s.ReserveSaves? { SavingKeepsPlaced(w, s); }
    else if IsReservation(s) { LookingKeepsPlaced(w, s, Apply(w, s)); }
    else if IsProvision(s) { ProvisionKeepsPlaced(w, s); }
    else if s.Begin? || s.TakeLock? || s.Observe? || s.Drift? { ObserveKeepsPlaced(w, s); }
    else if s.PersistObserved? || s.PersistActed? { StoreKeepsPlaced(w, s); }
    else if s.Decide? { DecideKeepsPlaced(w, s); }
    else if s.Act? || s.StartThrows? { CallKeepsPlaced(w, s); }
    else if s.RemoveRow? { RemovalKeepsPlaced(w, s); }
    else { EndKeepsPlaced(w, s.id); }
  }

  lemma {:induction false} PlayKeepsPlaced(w: World, steps: seq<Step>)
    requires Placed(w) && Play(w, steps).Some?
    ensures Placed(Play(w, steps).value)
    decreases |steps|
  {
    if steps != [] {
      StepKeepsPlaced(w, steps[0]);
      PlayKeepsPlaced(Apply(w, steps[0]), steps[1..]);
    }
  }

  /**
   * Over every run whatsoever, failed and disowning steps included: rows and containers stay within the total limit,
   * every container belongs to the row of its user, and no user has two rows or two containers.
   */
  lemma TotalLimitHolds(limits: Limits, steps: seq<Step>)
    requires Play(Empty(limits), steps).Some?
    ensures var w := Play(Empty(limits), steps).value;
            && |w.rows| <= limits.maxTotal && |w.runtime| <= limits.maxTotal
            && w.runtime.Keys <= w.rows.Keys
            && (forall i, j :: i in w.rows && j in w.rows && w.rows[i].user == w.rows[j].user ==> i == j)
            && (limits.maxTotal <= limits.maxRunning ==>
                  |set id | id in w.rows && (w.rows[id].status.Running? || w.rows[id].status.Creating?)|
                    <= limits.maxRunning)
  {
    PlayKeepsPlaced(Empty(limits), steps);
    LimitsAreFixed(Empty(limits), steps);
    var w := Play(Empty(limits), steps).value;
    SubsetCounts(w.runtime.Keys, w.rows.Keys);
    SubsetCounts(Occupied(w.rows), w.rows.Keys);
    OccupiedMeans(w.rows);
  }

  // ----- how a disowning step can be followed by overbooking -----

  lemma {:induction false} PlayConcat(w: World, a: seq<Step>, b: seq<Step>)
    requires Play(w, a).Some?
    ensures Play(w, a + b) == Play(Play(w, a).value, b)
    decreases |a|
  {
    if a == [] {
      assert a + b == b;
    } else {
      assert (a + b)[1..] == a[1..] + b;
      PlayConcat(Apply(w, a[0]), a[1..], b);
    }
  }

  lemma PlayOne(w: World, s: Step)
    requires Enabled(w, s)
    ensures Play(w, [s]) == Some(Apply(w, s))
  {
    assert [s][1..] == [];
  }

  lemma PlayThen(w: World, s: Step, rest: seq<Step>)
    requires Enabled(w, s)
    ensures Play(w, [s] + rest) == Play(Apply(w, s), rest)
  {
    assert ([s] + rest)[1..] == rest;
  }

  /** Nobody holds the lock and no operation is under way. */
  predicate Quiet(w: World) { w.lock.None? && w.ops == map[] }

  /** Every operation under way may be cut off, and a reservation may throw. */
  lemma {:induction false} Quieten(w: World) returns (steps: seq<Step>)
    requires Placed(w)
    ensures Play(w, steps) == Some(w.(lock := None, ops := map[]))
    decreases w.ops.Keys, w.lock.Some?
  {
    if w.lock.Some? && w.lock.value.Reserving? {
      PlayOne(w, ReserveThrows);
      StepKeepsPlaced(w, ReserveThrows);
      var rest := Quieten(Apply(w, ReserveThrows));
      PlayConcat(w, [ReserveThrows], rest);
      steps := [ReserveThrows] + rest;
    } else if exists id :: id in w.ops {
      var id :| id in w.ops;
      var next := Apply(w, Aborts(id));
      assert next.ops.Keys == w.ops.Keys - {id};
      PlayOne(w, Aborts(id));
      StepKeepsPlaced(w, Aborts(id));
      var rest := Quieten(next);
      PlayConcat(w, [Aborts(id)], rest);
      steps := [Aborts(id)] + rest;
    } else {
      assert w.ops == map[];
      steps := [];
    }
  }

  /** A removal that nothing disturbs. */
  lemma Remove(w: World, id: int) returns (steps: seq<Step>)
    requires w.lock.None? && !Busy(w, id) && id in w.rows && !w.rows[id].status.Creating?
    ensures Play(w, steps) == Some(w.(rows := w.rows - {id}, runtime := w.runtime - {id}))
  {
    var w1 := Apply(w, Begin(id, RemoveOp));
    var w2 := Apply(w1, TakeLock(id));
    var w3 := Apply(w2, Observe(id));
    var w4 := Apply(w3, RemoveRow(id));
    assert w4.ops == w.ops;
    PlayOne(w3, RemoveRow(id));
    PlayThen(w2, Observe(id), [RemoveRow(id)]);
    PlayThen(w1, TakeLock(id), [Observe(id)] + [RemoveRow(id)]);
    PlayThen(w, Begin(id, RemoveOp), [TakeLock(id)] + ([Observe(id)] + [RemoveRow(id)]));
    steps := [Begin(id, RemoveOp)] + ([TakeLock(id)] + ([Observe(id)] + [RemoveRow(id)]));
  }

  function Idle(rows: map<int, Row>, kept: int): set<int> {
    set id | id in rows && id != kept && !Occupies(rows[id])
  }

  /** All rows that occupy no place can be removed, but the kept one. */
  lemma {:induction false} ClearOut(w: World, kept: int) returns (steps: seq<Step>, w2: World)
    requires Placed(w) && Quiet(w) && kept in w.rows
    ensures Play(w, steps) == Some(w2) && Placed(w2) && Quiet(w2) && w2.limits == w.limits
    ensures kept in w2.rows && w2.rows[kept] == w.rows[kept] && Look(w2.runtime, kept) == Look(w.runtime, kept)
    ensures Idle(w2.rows, kept) == {} && Occupied(w2.rows) == Occupied(w.rows)
    decreases Idle(w.rows, kept)
  {
    if Idle(w.rows, kept) == {} {
      steps, w2 := [], w;
    } else {
      var id :| id in Idle(w.rows, kept);
      var first := Remove(w, id);
      var next := w.(rows := w.rows - {id}, runtime := w.runtime - {id});
      PlayKeepsPlaced(w, first);
      assert Idle(next.rows, kept) == Idle(w.rows, kept) - {id};
      assert Occupied(next.rows) == Occupied(w.rows);
      var rest;
      rest, w2 := ClearOut(next, kept);
      PlayConcat(w, first, rest);
      steps := first + rest;
    }
  }

  lemma NewcomerTo(w: World) returns (user: int)
    ensures !Owned(w.rows, user)
  {
    var users := set id | id in w.rows :: w.rows[id].user;
    user := Beyond(users);
    assert forall id :: id in w.rows ==> w.rows[id].user in users;
  }

  /** A reservation that nothing disturbs. */
  lemma Reserve(w: World) returns (steps: seq<Step>, id: int, w2: World)
    requires Placed(w) && Quiet(w) && |w.rows| < w.limits.maxTotal && |Occupied(w.rows)| < w.limits.maxRunning
    ensures Play(w, steps) == Some(w2) && id !in w.rows && w2.rows.Keys == w.rows.Keys + {id} && Occupies(w2.rows[id])
    ensures forall other :: other in w.rows ==> w2.rows[other] == w.rows[other]
    ensures w2.runtime == w.runtime && w2.limits == w.limits && Quiet(w2)
  {
    id := Beyond(w.used);
    var user := NewcomerTo(w);
    w2 := Reserved(w, user, id);
    ReservedIsReached(w, user, id, w2);
    steps := [ReserveLocks(user)] + ([ReserveLooks] + ([ReserveCounts] + [ReserveSaves(id)]));
  }

  lemma ReservedIsReached(w: World, user: int, id: int, w2: World)
    requires w.lock.None? && !Owned(w.rows, user) && id !in w.used
    requires |w.rows| < w.limits.maxTotal && |Occupied(w.rows)| < w.limits.maxRunning && w2 == Reserved(w, user, id)
    ensures Play(w, [ReserveLocks(user)] + ([ReserveLooks] + ([ReserveCounts] + [ReserveSaves(id)]))) == Some(w2)
  {
    var w1 := Apply(w, ReserveLocks(user));
    var looked := Apply(w1, ReserveLooks);
    var counted := Apply(looked, ReserveCounts);
    PlayOne(counted, ReserveSaves(id));
    PlayThen(looked, ReserveCounts, [ReserveSaves(id)]);
    PlayThen(w1, ReserveLooks, [ReserveCounts] + [ReserveSaves(id)]);
    PlayThen(w, ReserveLocks(user), [ReserveLooks] + ([ReserveCounts] + [ReserveSaves(id)]));
  }

  lemma OneMoreOccupied(before: map<int, Row>, after: map<int, Row>, id: int)
    requires id !in before && after.Keys == before.Keys + {id} && Occupies(after[id])
    requires forall other :: other in before ==> after[other] == before[other]
    ensures Occupied(after) == Occupied(before) + {id} && |Occupied(after)| == |Occupied(before)| + 1
  {
    forall other | other in Occupied(after) ensures other in Occupied(before) + {id} {
    }
    forall other | other in Occupied(before) + {id} ensures other in Occupied(after) {
    }
    assert Occupied(after) == Occupied(before) + {id};
  }

  lemma NoMoreIdle(before: map<int, Row>, after: map<int, Row>, id: int, kept: int)
    requires id !in before && after.Keys == before.Keys + {id} && Occupies(after[id])
    requires forall other :: other in before ==> after[other] == before[other]
    ensures Idle(after, kept) <= Idle(before, kept)
  {
  }

  /** All places can be taken while the kept row occupies none. */
  lemma {:induction false} FillUp(w: World, kept: int) returns (steps: seq<Step>, w2: World)
    requires Placed(w) && Quiet(w) && kept in w.rows && !Occupies(w.rows[kept]) && Idle(w.rows, kept) == {}
    requires |Occupied(w.rows)| <= w.limits.maxRunning < w.limits.maxTotal
    ensures Play(w, steps) == Some(w2) && Quiet(w2) && w2.limits == w.limits
    ensures kept in w2.rows && w2.rows[kept] == w.rows[kept] && Look(w2.runtime, kept) == Look(w.runtime, kept)
    ensures |Occupied(w2.rows)| == w.limits.maxRunning
    decreases w.limits.maxRunning - |Occupied(w.rows)|
  {
    if |Occupied(w.rows)| == w.limits.maxRunning {
      steps, w2 := [], w;
    } else {
      assert w.rows.Keys == Occupied(w.rows) + {kept};
      var first, id, next := Reserve(w);
      PlayKeepsPlaced(w, first);
      OneMoreOccupied(w.rows, next.rows, id);
      NoMoreIdle(w.rows, next.rows, id, kept);
      var rest;
      rest, w2 := FillUp(next, kept);
      PlayConcat(w, first, rest);
      steps := first + rest;
    }
  }

  /** A sync that nothing disturbs makes the row of a live container occupy a place again, counted or not. */
  lemma SyncBack(w: World, id: int) returns (steps: seq<Step>, w2: World)
    requires Quiet(w) && id in w.rows && !Occupies(w.rows[id]) && Lives(w, id)
    ensures Play(w, steps) == Some(w2) && Occupied(w2.rows) == Occupied(w.rows) + {id}
  {
    var w1 := Apply(w, Begin(id, SyncOp));
    var seen := Apply(w1, Observe(id));
    w2 := Apply(seen, PersistObserved(id, false));
    PlayOne(seen, PersistObserved(id, false));
    PlayThen(w1, Observe(id), [PersistObserved(id, false)]);
    PlayThen(w, Begin(id, SyncOp), [Observe(id)] + [PersistObserved(id, false)]);
    steps := [Begin(id, SyncOp)] + ([Observe(id)] + [PersistObserved(id, false)]);
  }

  /** A container that lives without occupying a place can be overbooked. */
  lemma UncountedCanOverbook(w: World, id: int) returns (steps: seq<Step>)
    requires Placed(w) && id in w.rows && !Occupies(w.rows[id]) && Lives(w, id)
    requires |Occupied(w.rows)| <= w.limits.maxRunning < w.limits.maxTotal
    ensures Play(w, steps).Some? && |Occupied(Play(w, steps).value.rows)| == w.limits.maxRunning + 1
  {
    var calm := Quieten(w);
    var w1 := w.(lock := None, ops := map[]);
    PlayKeepsPlaced(w, calm);
    var clear, w2 := ClearOut(w1, id);
    var fill, w3 := FillUp(w2, id);
    var back, w4 := SyncBack(w3, id);
    PlayConcat(w2, fill, back);
    PlayConcat(w1, clear, fill + back);
    PlayConcat(w, calm, clear + (fill + back));
    steps := calm + (clear + (fill + back));
    assert id !in Occupied(w3.rows);
  }

  /**
   * The demand of RunningLimitHolds is exact.  When fewer containers may run than may exist, any first disowning step
   * of a run can be followed by steps after which more rows count than may run; otherwise the running limit is never
   * exceeded at all.
   */
  lemma DisowningCanOverbook(limits: Limits, before: seq<Step>, s: Step) returns (after: seq<Step>)
    requires Play(Empty(limits), before).Some? && AllOwned(Empty(limits), before)
    requires var w := Play(Empty(limits), before).value; Enabled(w, s) && Disowns(w, s)
    requires limits.maxRunning < limits.maxTotal
    ensures Play(Empty(limits), before + [s] + after).Some?
    ensures |Occupied(Play(Empty(limits), before + [s] + after).value.rows)| > limits.maxRunning
  {
    var w := Play(Empty(limits), before).value;
    EmptyInv(limits);
    PlayKeepsInv(Empty(limits), before);
    PlayKeepsPlaced(Empty(limits), before);
    LimitsAreFixed(Empty(limits), before);
    StepKeepsPlaced(w, s);
    var w1 := Apply(w, s);
    DisownedIsUncounted(w, s);
    after := UncountedCanOverbook(w1, s.id);
    PlayOne(w, s);
    PlayConcat(Empty(limits), before, [s]);
    PlayConcat(Empty(limits), before + [s], after);
  }

  lemma DisownedIsUncounted(w: World, s: Step)
    requires Inv(w) && Enabled(w, s) && Disowns(w, s)
    ensures var w1 := Apply(w, s);
            s.id in w1.rows && !Occupies(w1.rows[s.id]) && Lives(w1, s.id) &&
                |Occupied(w1.rows)| <= w1.limits.maxRunning
  {
    if s.ProvisionFails? {
      assert LocalOk(w, s.id);
      OccupiedAfter(w.rows, s.id, Apply(w, s).rows[s.id]);
    } else {
      assert LocalOk(w, s.id);
    }
  }
}
