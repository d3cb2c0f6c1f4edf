/** The in-memory store of durable operations, updated in place. */
module OperationStore {
  import opened Common
  import opened OperationRecords

  function Row(ops: map<int, Operation>, id: int): Option<Operation> {
    if id in ops then Some(ops[id]) else None
  }

  predicate SameKey(a: Operation, b: Operation) {
    a.idempotencyKey.Some? && a.actor == b.actor && a.idempotencyKey == b.idempotencyKey
  }

  ghost predicate Indexed(ops: map<int, Operation>) {
    forall id :: id in ops ==> ops[id].id == id && Coherent(ops[id])
  }

  ghost predicate KeysUnique(ops: map<int, Operation>) {
    forall i, j :: i in ops && j in ops && SameKey(ops[i], ops[j]) ==> i == j
  }

  /** Rows that keep their identity keep idempotency keys unique. */
  lemma KeysStayUnique(before: map<int, Operation>, after: map<int, Operation>)
    requires KeysUnique(before)
    requires forall id :: id in after ==> id in before && SameIdentity(before[id], after[id])
    ensures KeysUnique(after)
  {
    forall i, j | i in after && j in after && SameKey(after[i], after[j])
      ensures i == j
    {
      assert SameKey(before[i], before[j]);
    }
  }

  function Recovered(op: Operation, cutoff: int, at: int): Operation {
    if Stale(op, cutoff) then RecoverEdit(op, at) else op
  }

  /** What recovery does to a record: it fails one that waits or runs and has shown no sign of life since the cutoff. */
  lemma RecoveredMeans(op: Operation, cutoff: int, at: int)
    ensures Stale(op, cutoff) <==>
              (op.status.Queued? || op.status.Running?) &&
              op.heartbeatAt.GetOr(op.startedAt.GetOr(op.createdAt)) <= cutoff
    ensures Recovered(op, cutoff, at)
         == if Stale(op, cutoff)
            then op.(revision := op.revision + 1, status := Failed, stage := "interrupted",
                     error := Some("portal_restarted"), cancellable := false, retryable := false,
                     heartbeatAt := Some(at), finishedAt := Some(at))
            else op
  {
  }

  /** All rows but those of `rest` have been looked at. */
  ghost predicate RecoveredBut(before: map<int, Operation>, now: map<int, Operation>, rest: set<int>, cutoff: int,
                               at: int) {
    && now.Keys == before.Keys
    && forall id :: id in before ==> now[id] == if id in rest then before[id] else Recovered(before[id], cutoff, at)
  }

  ghost predicate ListedBut(before: map<int, Operation>, recovered: seq<int>, rest: set<int>, cutoff: int) {
    forall id :: id in recovered <==> id in before && id !in rest && Stale(before[id], cutoff)
  }

  lemma OneMoreLookedAt(before: map<int, Operation>, now: map<int, Operation>, rest: set<int>, id: int,
                        recovered: seq<int>, cutoff: int, at: int)
    requires RecoveredBut(before, now, rest, cutoff, at) && ListedBut(before, recovered, rest, cutoff)
    requires id in rest && rest <= before.Keys
    ensures id !in recovered && now[id] == before[id]
    ensures if Stale(before[id], cutoff)
            then && RecoveredBut(before, now[id := RecoverEdit(before[id], at)], rest - {id}, cutoff, at)
                 && ListedBut(before, recovered + [id], rest - {id}, cutoff)
            else RecoveredBut(before, now, rest - {id}, cutoff, at) && ListedBut(before, recovered, rest - {id}, cutoff)
  {
    if Stale(before[id], cutoff) {
      forall k ensures k in recovered + [id] <==> k in recovered || k == id {}
    }
  }

  lemma AllRecovered(before: map<int, Operation>, now: map<int, Operation>, recovered: seq<int>, cutoff: int, at: int)
    requires RecoveredBut(before, now, {}, cutoff, at) && ListedBut(before, recovered, {}, cutoff)
    ensures forall id :: Row(now, id) == RecoverRow(Row(before, id), cutoff, at)
    ensures forall id :: id in recovered <==>
              && id in before && (before[id].status.Queued? || before[id].status.Running?)
              && before[id].heartbeatAt.GetOr(before[id].startedAt.GetOr(before[id].createdAt)) <= cutoff
    ensures forall id :: id in recovered ==>
              id in now &&
              now[id] == before[id].(revision := before[id].revision + 1, status := Failed, stage := "interrupted",
                                     error := Some("portal_restarted"), cancellable := false, retryable := false,
                                     heartbeatAt := Some(at), finishedAt := Some(at))
    ensures forall id :: id !in recovered ==> Row(now, id) == Row(before, id)
  {
    forall id | id in before { RecoveredMeans(before[id], cutoff, at); }
  }

  lemma RecoveryKeepsIndex(before: map<int, Operation>, after: map<int, Operation>, cutoff: int, at: int)
    requires Indexed(before) && after.Keys == before.Keys
    requires forall id :: id in before ==> after[id] == Recovered(before[id], cutoff, at)
    ensures Indexed(after)
    ensures forall id :: id in before ==> SameIdentity(before[id], after[id])
  {
  }

  class MemoryOperationStore {
    var operations: map<int, Operation>

    /** Ids match their keys, records are coherent, and an idempotency key names one record of an actor. */
    ghost predicate Valid()
      reads this
    {
      Indexed(operations) && KeysUnique(operations)
    }

    constructor ()
      ensures Valid() && operations == map[]
    {
      operations := map[];
    }

    /** A second create with the same actor and key answers the first record and stores nothing. */
    method CreateOperation(op: Operation) returns (stored: Operation, created: bool)
      requires Valid()
      modifies this
      ensures op.id !in old(operations) && Coherent(op) ==> Valid()
      ensures created <==> forall id :: id in old(operations) ==> !SameKey(op, old(operations[id]))
      ensures !created <==>
                && op.idempotencyKey.Some?
                && exists id :: id in old(operations) && old(operations[id]).actor == op.actor &&
                                old(operations[id]).idempotencyKey == op.idempotencyKey
      ensures created ==> stored == op && operations == old(operations)[op.id := op]
      ensures !created ==>
                && operations == old(operations)
                && SameKey(op, stored) && stored.id in operations && operations[stored.id] == stored
    {
      if op.idempotencyKey.Some? {
        var rest: set<int> := operations.Keys;
        while rest != {}
          invariant operations == old(operations) && rest <= operations.Keys
          invariant forall id :: id in operations.Keys - rest ==> !SameKey(op, operations[id])
          decreases |rest|
        {
          var id := Pick(rest);
          if operations[id].actor == op.actor && operations[id].idempotencyKey == op.idempotencyKey {
            return operations[id], false;
          }
          rest := rest - {id};
        }
      }
      operations := operations[op.id := op];
      return op, true;
    }

    /** The store checks nothing but the revision; a coherent edit of the same record keeps it valid. */
    method CompareAndSave(op: Operation, expectedRevision: nat) returns (updated: Option<Operation>)
      requires Valid()
      modifies this
      ensures Coherent(op) && (op.id in old(operations) ==> SameIdentity(op, old(operations[op.id]))) ==> Valid()
      ensures updated.Some? <==> op.id in old(operations) && old(operations[op.id]).revision == expectedRevision
      ensures updated.Some? ==> updated.value == op.(revision := expectedRevision + 1)
      ensures operations == if updated.Some? then old(operations)[op.id := updated.value] else old(operations)
      ensures forall id :: Row(operations, id) ==
                (if id == op.id then SaveRow(Row(old(operations), id), op, expectedRevision)
                    else Row(old(operations), id))
    {
      if op.id !in operations || operations[op.id].revision != expectedRevision {
        return None;
      }
      ghost var before := operations;
      updated := Some(op.(revision := expectedRevision + 1));
      operations := operations[op.id := updated.value];
      if SameIdentity(op, before[op.id]) { KeysStayUnique(before, operations); }
    }

    /**
     * Exactly the queued and running rows whose last sign of life, a heartbeat, a start or else the creation, is not
     * after the cutoff fail and are listed once; every other row keeps its record.
     */
    method RecoverStaleOperations(cutoff: int, finishedAt: int) returns (recovered: seq<int>)
      requires Valid()
      modifies this
      ensures Valid()
      ensures forall id :: Row(operations, id) == RecoverRow(Row(old(operations), id), cutoff, finishedAt)
      ensures forall id :: id in recovered <==>
                && id in old(operations) && (old(operations[id]).status.Queued? || old(operations[id]).status.Running?)
                && old(operations[id]).heartbeatAt.GetOr(
                     old(operations[id]).startedAt.GetOr(old(operations[id]).createdAt)) <= cutoff
      ensures forall id :: id in recovered ==>
                id in operations &&
                operations[id] == old(operations[id]).(
                  revision := old(operations[id]).revision + 1, status := Failed, stage := "interrupted",
                  error := Some("portal_restarted"), cancellable := false, retryable := false,
                  heartbeatAt := Some(finishedAt), finishedAt := Some(finishedAt))
      ensures forall id :: id !in recovered ==> Row(operations, id) == Row(old(operations), id)
      ensures Distinct(recovered)
    {
      recovered := [];
      ghost var before := operations;
      var rest: set<int> := operations.Keys;
      while rest != {}
        invariant rest <= before.Keys && RecoveredBut(before, operations, rest, cutoff, finishedAt)
        invariant ListedBut(before, recovered, rest, cutoff) && Distinct(recovered)
        decreases rest
      {
        var id := Pick(rest);
        var current := operations[id];
        OneMoreLookedAt(before, operations, rest, id, recovered, cutoff, finishedAt);
        if (current.status.Queued? || current.status.Running?) && LastSign(current) <= cutoff {
          operations := operations[id := RecoverEdit(current, finishedAt)];
          recovered := recovered + [id];
        }
        rest := rest - {id};
      }
      RecoveryKeepsIndex(before, operations, cutoff, finishedAt);
      KeysStayUnique(before, operations);
      AllRecovered(before, operations, recovered, cutoff, finishedAt);
    }

    /** Exactly the terminal rows finished before the cutoff disappear, and they are counted. */
    method PruneFinishedOperations(cutoff: int) returns (removed: nat)
      requires Valid()
      modifies this
      ensures Valid()
      ensures forall id :: Row(operations, id) == PruneRow(Row(old(operations), id), cutoff)
      ensures operations.Keys <= old(operations.Keys) &&
          forall id :: id in old(operations) ==>
            (id !in operations <==>
              && old(operations[id]).status.Terminal()
              && old(operations[id]).finishedAt.GetOr(old(operations[id]).createdAt) < cutoff)
      ensures removed == |old(operations)| - |operations|
    {
      removed := 0;
      ghost var before := operations;
      var rest: set<int> := operations.Keys;
      while rest != {}
        invariant rest <= operations.Keys <= old(operations.Keys)
        invariant forall id :: id in operations ==> operations[id] == old(operations[id])
        invariant forall id :: id in old(operations.Keys) - rest ==>
            (id in operations <==> !Expired(old(operations[id]), cutoff))
        invariant |operations| + removed == |old(operations)|
        decreases |rest|
      {
        var id := Pick(rest);
        rest := rest - {id};
        if Expired(operations[id], cutoff) {
          ghost var keys := operations.Keys;
          operations := operations - {id};
          assert operations.Keys == keys - {id};
          removed := removed + 1;
        }
      }
      KeysStayUnique(before, operations);
    }
  }
}
