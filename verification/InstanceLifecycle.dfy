/**
 * The lifecycle's calls as they run from start to end without interference, over the rows they update.  What the
 * runtime answers is a parameter; waiting for a row that nobody finishes creating ends in `NotReady`.  How such calls
 * interleave is the matter of CapacitySafety.
 */
module InstanceLifecycle {
  import opened Common
  import opened Capacity
  import opened CapacitySafety

  datatype Ending =
    | Done(row: Row)
    | Existing(id: int)
    | NotFound
    | NotReady
    | NotAllowed
    | TotalLimitReached
    | RunningLimitReached
    | QuotaRefused
    | RuntimeFailed

  /** A runtime call answers a state, or throws and leaves the container as `left` says. */
  datatype Answer = Answered(state: State) | Threw(left: Option<State>)

  function Left(answer: Answer): Option<State> {
    match answer case Answered(state) => Some(state) case Threw(left) => left
  }

  predicate LeavesAlive(answer: Answer) {
    answer.Threw? && answer.left.Some? && Alive(answer.left.value)
  }

  /** The row after a look at the runtime. */
  function SyncedRow(row: Row, seen: Option<State>, recovered: bool): Row {
    if seen.Some? then ProjectRow(row, seen.value, row.stopReason, None, recovered) else row
  }

  /** The row a start stores: the answer, or what is seen after the call threw. */
  function Started(row: Row, answer: Answer): Row {
    match answer
    case Answered(state) => ProjectRow(row, state, row.stopReason, Some(Up), false)
    case Threw(left) => SyncedRow(row, left, false)
  }

  /** Nothing can be said of a container that the runtime does not show, unless its row has failed already. */
  predicate Observable(rows: map<int, Row>, runtime: map<int, State>, id: int)
    requires id in rows
  {
    id in runtime || rows[id].status.Failed?
  }

  lemma OccupiedSplits(rows: map<int, Row>, seen: set<int>, id: int)
    requires seen <= rows.Keys && id in rows && id !in seen
    ensures |Among(rows, seen + {id})| == |Among(rows, seen)| + if Occupies(rows[id]) then 1 else 0
  {
    assert Among(rows, seen + {id}) == Among(rows, seen) + if Occupies(rows[id]) then {id} else {};
  }

  /** The occupying rows among some of them. */
  function Among(rows: map<int, Row>, ids: set<int>): set<int> {
    set id | id in ids && id in rows && Occupies(rows[id])
  }

  /** Both limits hold, a user has one row, and every live container is counted. */
  ghost predicate Sound(limits: Limits, rows: map<int, Row>, runtime: map<int, State>) {
    && |rows| <= limits.maxTotal && |Occupied(rows)| <= limits.maxRunning
    && (forall i, j :: i in rows && j in rows && rows[i].user == rows[j].user ==> i == j)
    && (forall id :: id in runtime && Alive(runtime[id]) ==> id in rows && Occupies(rows[id]))
  }

  /** A row stored with what the runtime then holds keeps all in order exactly if it counts a live container. */
  lemma StoringKeepsSound(limits: Limits, rows: map<int, Row>, runtime: map<int, State>, id: int, row: Row,
                          left: Option<State>)
    requires Sound(limits, rows, runtime) && id in rows && row.user == rows[id].user
    requires Occupies(row) && !Occupies(rows[id]) ==> |Occupied(rows)| < limits.maxRunning
    ensures Sound(limits, rows[id := row], Leave(runtime, id, left)) <==>
            (left.Some? && Alive(left.value) ==> Occupies(row))
    ensures Occupies(rows[id]) || !Occupies(row) ==> |Occupied(rows[id := row])| <= |Occupied(rows)|
  {
    OccupiedAfter(rows, id, row);
    var rows2, runtime2 := rows[id := row], Leave(runtime, id, left);
    if left.Some? && Alive(left.value) && !Occupies(row) {
      assert id in runtime2 && Alive(runtime2[id]) && !Occupies(rows2[id]);
    } else {
      forall other | other in runtime2 && Alive(runtime2[other]) ensures other in rows2 && Occupies(rows2[other]) {
        assert other != id ==> other in runtime && runtime2[other] == runtime[other];
      }
      assert forall i :: i in rows2 ==> rows2[i].user == rows[i].user;
    }
  }

  class InstanceLifecycleManager {
    const limits: Limits
    var rows: map<int, Row>
    var runtime: map<int, State>

    ghost predicate Valid()
      reads this
    {
      Sound(limits, rows, runtime)
    }

    constructor (limits: Limits)
      ensures Valid() && this.limits == limits && rows == map[] && runtime == map[]
    {
      this.limits := limits;
      this.rows := map[];
      this.runtime := map[];
      new;
      assert Occupied(rows) == {};
    }

    /** Counts the rows that are running or creating. */
    method CountOccupied() returns (n: nat)
      ensures n == |Occupied(rows)|
      ensures n == |set id | id in rows && (rows[id].status.Running? || rows[id].status.Creating?)|
    {
      n := 0;
      var rest := rows.Keys;
      assert Among(rows, {}) == {};
      while rest != {}
        invariant rest <= rows.Keys && n == |Among(rows, rows.Keys - rest)|
        decreases rest
      {
        var id := Pick(rest);
        OccupiedSplits(rows, rows.Keys - rest, id);
        assert rows.Keys - (rest - {id}) == rows.Keys - rest + {id};
        rest := rest - {id};
        if rows[id].status.Running? || rows[id].status.Creating? { n := n + 1; }
      }
      assert Among(rows, rows.Keys - {}) == Occupied(rows);
      OccupiedMeans(rows);
    }

    method FindForUser(user: int) returns (found: Option<int>)
      ensures found.Some? ==> found.value in rows && rows[found.value].user == user
      ensures found.None? ==> !Owned(rows, user)
    {
      var rest := rows.Keys;
      while rest != {}
        invariant rest <= rows.Keys && forall id :: id in rows.Keys - rest ==> rows[id].user != user
        decreases rest
      {
        var id := Pick(rest);
        rest := rest - {id};
        if rows[id].user == user { return Some(id); }
      }
      return None;
    }

    /**
     * A `creating` row is stored exactly if the user has none, may have one, and both limits and the quota leave room.
     * `allowed` stands for the checks of live workspace and authorisation, `quota` for the ledger's answer.
     */
    method ReserveProvision(user: int, id: int, allowed: bool, quota: bool) returns (ending: Ending)
      requires Valid() && id !in rows && id !in runtime
      modifies this`rows
      ensures Valid()
      ensures ending.Existing? ==> ending.id in rows && rows[ending.id].user == user
      ensures ending.Existing? <==> Owned(old(rows), user)
      ensures ending.NotAllowed? <==> !Owned(old(rows), user) && !allowed
      ensures ending.TotalLimitReached? <==> !Owned(old(rows), user) && allowed && |old(rows)| >= limits.maxTotal
      ensures ending.RunningLimitReached? <==>
                && !Owned(old(rows), user) && allowed && |old(rows)| < limits.maxTotal
                && |Occupied(old(rows))| >= limits.maxRunning
      ensures ending.Done? <==>
                && !Owned(old(rows), user) && allowed && quota
                && |old(rows)| < limits.maxTotal && |Occupied(old(rows))| < limits.maxRunning
      ensures ending.Done? || ending.Existing? || ending.NotAllowed? || ending.TotalLimitReached?
              || ending.RunningLimitReached? || ending.QuotaRefused?
      ensures rows == if ending.Done? then old(rows)[id := Row(user, Creating, None)] else old(rows)
      ensures ending.Done? ==> ending.row == Row(user, Creating, None)
    {
      var found := FindForUser(user);
      if found.Some? { return Existing(found.value); }
      if !allowed { return NotAllowed; }
      if |rows| >= limits.maxTotal { return TotalLimitReached; }
      var occupied := CountOccupied();
      if occupied >= limits.maxRunning { return RunningLimitReached; }
      if !quota { return QuotaRefused; }
      OccupiedAfter(rows, id, Row(user, Creating, None));
      rows := rows[id := Row(user, Creating, None)];
      ending := Done(rows[id]);
    }

    /**
     * Stores the runtime's answer to a reservation; a call that threw leaves a failed row and whatever it left
     * running.
     */
    method Settle(id: int, answer: Answer) returns (row: Row)
      requires Valid() && id in rows && rows[id] == Row(rows[id].user, Creating, None) && id !in runtime
      modifies this
      ensures Valid() <==> !LeavesAlive(answer)
      ensures row.user == old(rows[id]).user &&
          row.status == if answer.Answered? then StatusOf(answer.state) else Failed
      ensures answer == Answer.Answered(Up) ==> row == Row(row.user, Running, None)
      ensures answer == Answer.Answered(Coming) ==> row == Row(row.user, Creating, None)
      ensures answer == Answer.Answered(Down) ==> row == Row(row.user, Stopped, None)
      ensures answer == Answer.Answered(Broken) || answer.Threw? ==> row == Row(row.user, Failed, Some(Failure))
      ensures rows == old(rows)[id := row] && runtime == Leave(old(runtime), id, Left(answer))
    {
      row := if answer.Answered? then ProjectRow(rows[id], answer.state, None, None, false)
             else rows[id].(status := Failed, stopReason := Some(Failure));
      StoringKeepsSound(limits, rows, runtime, id, row, Left(answer));
      runtime := Leave(runtime, id, Left(answer));
      rows := rows[id := row];
    }

    /**
     * Reserves, asks the runtime and stores what it says; all stays valid unless a call that threw left a container
     * alive.
     */
    method Provision(user: int, id: int, allowed: bool, quota: bool, answer: Answer) returns (ending: Ending)
      requires Valid() && id !in rows && id !in runtime
      modifies this
      ensures Valid() <==> !(ending.RuntimeFailed? && LeavesAlive(answer))
      ensures ending.Done? || ending.RuntimeFailed? <==>
                && !Owned(old(rows), user) && allowed && quota
                && |old(rows)| < limits.maxTotal && |Occupied(old(rows))| < limits.maxRunning
      ensures ending.Done? ==>
          answer.Answered? && ending.row.user == user && ending.row.status == StatusOf(answer.state)
                               && rows == old(rows)[id := ending.row]
      ensures ending.RuntimeFailed? ==> answer.Threw? && id in rows && rows[id].user == user && rows[id].status.Failed?
                                        && rows == old(rows)[id := rows[id]]
      ensures !Owned(old(rows), user) && allowed && quota && |old(rows)| < limits.maxTotal &&
              |Occupied(old(rows))| < limits.maxRunning ==>
                && (ending.Done? <==> answer.Answered?) && (ending.RuntimeFailed? <==> answer.Threw?)
                && (answer == Answer.Answered(Up) ==>
                      ending == Done(Row(user, Running, None)) && runtime == old(runtime)[id := Up])
      ensures ending.Done? || ending.RuntimeFailed? ==> runtime == Leave(old(runtime), id, Left(answer))
      ensures !ending.Done? && !ending.RuntimeFailed? ==> rows == old(rows) && runtime == old(runtime)
    {
      ending := ReserveProvision(user, id, allowed, quota);
      if ending.Done? {
        var row := Settle(id, answer);
        ending := if answer.Answered? then Done(row) else RuntimeFailed;
      }
    }

    /**
     * Looks at the runtime and stores what it holds; an unobservable container that has not failed is left alone.  A
     * stopped row whose container is down stays exactly as it is, a running one without a stop reason has failed.
     */
    method SyncRecord(id: int, recovered: bool) returns (ending: Ending)
      requires Valid() && id in rows && !rows[id].status.Creating?
      modifies this`rows
      ensures Valid()
      ensures rows == old(rows)[id := SyncedRow(old(rows[id]), Look(runtime, id), recovered)]
      ensures ending == if Observable(old(rows), runtime, id) then Done(rows[id]) else RuntimeFailed
      ensures id !in runtime || (old(rows[id]).status.Stopped? && runtime[id].Down?) ==> rows == old(rows)
      ensures rows == old(rows)[id := rows[id]] && rows[id].user == old(rows[id]).user
      ensures id in runtime && runtime[id].Up? ==> rows[id].status.Running? && rows[id].stopReason.None?
      ensures id in runtime && runtime[id].Coming? ==>
          rows[id].status.Creating? && rows[id].stopReason == old(rows[id]).stopReason
      ensures id in runtime && runtime[id].Broken? ==> rows[id].status.Failed? && rows[id].stopReason == Some(Failure)
      ensures id in runtime && runtime[id].Down? && old(rows[id]).status.Running? ==>
                rows[id].status == if old(rows[id]).stopReason.None? then Failed else Stopped
      ensures id in runtime && runtime[id].Down? && old(rows[id]).status.Failed? ==>
                rows[id].status == if recovered then Stopped else Failed
      ensures |Occupied(rows)| <= |Occupied(old(rows))|
    {
      if id !in runtime {
        assert rows == rows[id := rows[id]];
        return if rows[id].status.Failed? then Done(rows[id]) else RuntimeFailed;
      }
      var row := ProjectRow(rows[id], runtime[id], rows[id].stopReason, None, recovered);
      assert rows[id].status.Stopped? && runtime[id].Down? ==> row == rows[id] && rows[id := row] == rows;
      StoringKeepsSound(limits, rows, runtime, id, row, Look(runtime, id));
      assert Leave(runtime, id, Look(runtime, id)) == runtime;
      rows := rows[id := row];
      ending := Done(row);
    }

    /**
     * A stopped container starts if limit and quota leave room.  A runtime call that throws is followed by a look at
     * what it left, so that a container it brought up all the same is counted.
     */
    method Start(id: int, quota: bool, answer: Answer) returns (ending: Ending)
      requires Valid()
      modifies this
      ensures Valid()
      ensures id !in old(rows) <==> ending.NotFound?
      ensures ending.NotFound? ==> rows == old(rows) && runtime == old(runtime)
      ensures id in old(rows) && old(rows[id]).status.Creating? ==>
          ending.NotReady? && rows == old(rows) && runtime == old(runtime)
      ensures id in old(rows) && !old(rows[id]).status.Creating? && !Observable(old(rows), old(runtime), id) ==>
                ending.RuntimeFailed? && rows == old(rows) && runtime == old(runtime)
      ensures id in old(rows) && !old(rows[id]).status.Creating? && Observable(old(rows), old(runtime), id) ==>
                var synced := SyncedRow(old(rows[id]), Look(old(runtime), id), false);
                var room := |Occupied(old(rows)[id := synced])| < limits.maxRunning;
                var called := synced.status.Stopped? && room && quota;
                var row := if !called then synced
                           else if answer.Answered?
                               then ProjectRow(synced, answer.state, synced.stopReason, Some(Up), false)
                           else SyncedRow(synced, answer.left, false);
                && rows == old(rows)[id := row]
                && runtime == (if called then Leave(old(runtime), id, Left(answer)) else old(runtime))
                && ending == (if synced.status.Running? || (called && answer.Answered?) then Done(row)
                              else if !synced.status.Stopped? then NotReady
                              else if !room then RunningLimitReached
                              else if !quota then QuotaRefused
                              else RuntimeFailed)
      ensures id in old(rows) && old(rows[id]).status.Stopped? && Look(old(runtime), id) == Some(Down) ==>
                var user := old(rows[id]).user;
                if |Occupied(old(rows))| >= limits.maxRunning then
                  ending == RunningLimitReached && rows == old(rows) && runtime == old(runtime)
                else if !quota then ending == QuotaRefused && rows == old(rows) && runtime == old(runtime)
                else
                  && (answer == Answer.Answered(Up) ==>
                        && ending == Done(Row(user, Running, None)) && runtime == old(runtime)[id := Up]
                        && rows == old(rows)[id := Row(user, Running, None)])
                  && (answer == Answer.Answered(Down) ==> ending == Done(Row(user, Failed, Some(Failure))))
                  && (answer == Threw(Some(Up)) ==>
                        ending == RuntimeFailed && rows == old(rows)[id := Row(user, Running, None)])
                  && (answer == Threw(Some(Down)) ==> ending == RuntimeFailed && rows == old(rows))
      ensures id in old(rows) && old(rows[id]).status.Running? && Look(old(runtime), id) == Some(Up) ==>
                ending == Done(Row(old(rows[id]).user, Running, None)) && runtime == old(runtime)
      ensures id in old(rows) && old(rows[id]).status.Failed? && Look(old(runtime), id) == Some(Down) ==>
                ending == NotReady && rows[id].status.Failed? && runtime == old(runtime)
    {
      if id !in rows { return NotFound; }
      if rows[id].status.Creating? { return NotReady; }
      ending := SyncRecord(id, false);
      if !ending.Done? || ending.row.status.Running? { return; }
      if !ending.row.status.Stopped? { return NotReady; }
      var occupied := CountOccupied();
      if occupied >= limits.maxRunning { return RunningLimitReached; }
      if !quota { return QuotaRefused; }
      var row := Started(rows[id], answer);
      StoringKeepsSound(limits, rows, runtime, id, row, Left(answer));
      runtime := Leave(runtime, id, Left(answer));
      rows := rows[id := row];
      ending := if answer.Answered? then Done(row) else RuntimeFailed;
    }

    /** A running container is stopped; one that already stopped only gets the new reason. */
    method Stop(id: int, reason: StopReason, answer: Option<State>) returns (ending: Ending)
      requires Valid()
      requires answer.Some? && Alive(answer.value) ==> id in runtime && Alive(runtime[id])
      modifies this
      ensures Valid()
      ensures id !in old(rows) <==> ending.NotFound?
      ensures ending.NotFound? ==> rows == old(rows)
      ensures id in old(rows) && old(rows[id]).status.Creating? ==>
          ending.NotReady? && rows == old(rows) && runtime == old(runtime)
      ensures id in old(rows) && !old(rows[id]).status.Creating? && !Observable(old(rows), old(runtime), id) ==>
                ending.RuntimeFailed? && rows == old(rows)
      ensures id in old(rows) && !old(rows[id]).status.Creating? && Observable(old(rows), old(runtime), id) ==>
                var synced := SyncedRow(old(rows[id]), Look(old(runtime), id), false);
                var stopped := synced.status.Running? && answer.Some?;
                var row := if stopped then ProjectRow(synced, answer.value, Some(reason), None, false)
                           else if synced.status.Stopped? then synced.(stopReason := Some(reason)) else synced;
                && rows == old(rows)[id := row]
                && runtime == (if stopped then old(runtime)[id := answer.value] else old(runtime))
                && ending == (if stopped || synced.status.Stopped? then Done(row)
                              else if synced.status.Running? then RuntimeFailed else NotReady)
      ensures |Occupied(rows)| <= |Occupied(old(rows))|
      ensures id in old(rows) && old(rows[id]).status.Running? && Look(old(runtime), id) == Some(Up) ==>
                var user := old(rows[id]).user;
                && (answer == Some(Down) ==>
                      && ending == Done(Row(user, Stopped, Some(reason))) && runtime == old(runtime)[id := Down]
                      && rows == old(rows)[id := Row(user, Stopped, Some(reason))])
                && (answer.None? ==> ending == RuntimeFailed && rows == old(rows)[id := Row(user, Running, None)])
      ensures id in old(rows) && old(rows[id]).status.Stopped? && Look(old(runtime), id) == Some(Down) ==>
                && ending == Done(Row(old(rows[id]).user, Stopped, Some(reason))) && runtime == old(runtime)
                && rows == old(rows)[id := ending.row]
    {
      if id !in rows { return NotFound; }
      if rows[id].status.Creating? { return NotReady; }
      ending := SyncRecord(id, false);
      if !ending.Done? { return; }
      if ending.row.status.Stopped? {
        var noted := rows[id].(stopReason := Some(reason));
        StoringKeepsSound(limits, rows, runtime, id, noted, Look(runtime, id));
        assert Leave(runtime, id, Look(runtime, id)) == runtime;
        rows := rows[id := noted];
        return Done(noted);
      }
      if !ending.row.status.Running? { return NotReady; }
      if answer.None? { return RuntimeFailed; }
      var row := ProjectRow(rows[id], answer.value, Some(reason), None, false);
      StoringKeepsSound(limits, rows, runtime, id, row, answer);
      runtime := Leave(runtime, id, answer);
      rows := rows[id := row];
      ending := Done(row);
    }

    /**
     * Container first, row second: afterwards neither is left and the user may provision again.  A runtime call that
     * throws keeps the row; it brings nothing up.
     */
    method Remove(id: int, answer: Option<Answer>) returns (ending: Ending)
      requires Valid()
      requires answer.Some? ==>
          answer.value.Threw? && (LeavesAlive(answer.value) ==> id in runtime && Alive(runtime[id]))
      modifies this
      ensures Valid()
      ensures ending.NotFound? <==> id !in old(rows)
      ensures ending.NotReady? <==> id in old(rows) && old(rows[id]).status.Creating?
      ensures ending.RuntimeFailed? <==> id in old(rows) && !old(rows[id]).status.Creating? && answer.Some?
      ensures ending.RuntimeFailed? ==> rows == old(rows) && runtime == Leave(old(runtime), id, answer.value.left)
      ensures ending.NotFound? || ending.NotReady? ==> rows == old(rows) && runtime == old(runtime)
      ensures ending.Done? ==>
          rows == old(rows) - {id} && runtime == old(runtime) - {id} && !Owned(rows, ending.row.user)
      ensures ending.NotFound? || ending.NotReady? || ending.RuntimeFailed? || ending.Done?
    {
      if id !in rows { return NotFound; }
      if rows[id].status.Creating? { return NotReady; }
      if answer.Some? {
        runtime := Leave(runtime, id, answer.value.left);
        return RuntimeFailed;
      }
      var row := rows[id];
      OccupiedWithout(rows, id);
      runtime := runtime - {id};
      rows := rows - {id};
      ending := Done(row);
    }
  }
}
