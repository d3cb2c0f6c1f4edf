/**
 * Retries over all operations of one store.  Each retry holds the store's per-id retry lock
 * from its first read to its last write; retries of different ids, new starts, lifecycle
 * moves of the records and the loss of in-process tasks interleave freely.
 */
module OperationRetry {
  import opened Common
  import opened OperationRecords

  /** `took` is the retry flag that the section removed from the record and now carries. */
  datatype Phase =
    | WantRead
    | HaveRead(read: Option<Operation>)
    | WantForfeit(snap: Operation)
    | WantTake(snap: Operation)
    | Starting(taken: Operation, took: bool)
    | WantReread(taken: Operation, took: bool)
    | WantReturn(taken: Operation, snap: Operation, took: bool)

  datatype Section = Section(manager: int, explicitTask: bool, phase: Phase)

  /** One created operation; `carried` says that its creation used up a retry flag. */
  datatype Birth = Birth(id: int, retryOf: Option<int>, explicitTask: bool, carried: bool)

  datatype World = World(
    ops: map<int, Operation>,
    births: seq<Birth>,
    tasks: set<(int, int)>,
    locks: map<int, Section>)

  datatype Step =
    | Start(m: int, op: Operation)
    | Lifecycle(id: int, after: Option<Operation>)
    | ForgetTask(m: int, id: int)
    | Begin(m: int, id: int, explicitTask: bool)
    | Read(id: int)
    | Decide(id: int)
    | Forfeit(id: int)
    | Take(id: int)
    | Child(id: int, op: Operation)
    | ChildFails(id: int)
    | Reread(id: int)
    | Return(id: int)
    | StoreFault(id: int)

  function Row(w: World, id: int): Option<Operation> {
    if id in w.ops then Some(w.ops[id]) else None
  }

  predicate Born(w: World, id: int) {
    exists i :: 0 <= i < |w.births| && w.births[i].id == id
  }

  predicate Retryable(op: Operation) {
    op.status.Failed? || op.status.Cancelled?
  }

  function WithRow(w: World, id: int, row: Option<Operation>): World {
    if row.Some? then w.(ops := w.ops[id := row.value]) else w.(ops := w.ops - {id})
  }

  predicate In(w: World, id: int) { id in w.locks }

  predicate Enabled(w: World, s: Step) {
    match s
    case Start(m, op) =>
      !Born(w, op.id) && op.revision == 1 && op.status.Queued? && Coherent(op) && op.retryOf.None?
    case Lifecycle(id, after) => LifecycleMove(Row(w, id), after) && (after.Some? ==> after.value.id == id)
    case ForgetTask(_, _) => true
    case Begin(m, id, _) => !In(w, id)
    case Read(id) => In(w, id) && w.locks[id].phase.WantRead?
    case Decide(id) => In(w, id) && w.locks[id].phase.HaveRead?
    case Forfeit(id) => In(w, id) && w.locks[id].phase.WantForfeit?
    case Take(id) => In(w, id) && w.locks[id].phase.WantTake?
    case Child(id, op) =>
      && In(w, id) && w.locks[id].phase.Starting?
      && !Born(w, op.id) && op.revision == 1 && op.status.Queued? && Coherent(op)
      && op.retryOf == Some(id) && op.retryable == w.locks[id].phase.took
    case ChildFails(id) => In(w, id) && w.locks[id].phase.Starting?
    case Reread(id) => In(w, id) && w.locks[id].phase.WantReread?
    case Return(id) => In(w, id) && w.locks[id].phase.WantReturn?
    case StoreFault(id) => In(w, id) && !w.locks[id].phase.HaveRead? && !w.locks[id].phase.Starting?
  }

  function At(w: World, id: int, phase: Phase): World
    requires id in w.locks
  {
    w.(locks := w.locks[id := w.locks[id].(phase := phase)])
  }

  function Unlock(w: World, id: int): World {
    w.(locks := w.locks - {id})
  }

  /** The code between reading the record and its next save. */
  function DecideRetry(w: World, id: int, read: Option<Operation>): World
    requires id in w.locks
  {
    var sec := w.locks[id];
    if read.None? || !Retryable(read.value) then Unlock(w, id)
    else if !read.value.retryable && !sec.explicitTask then Unlock(w, id)
    else if !sec.explicitTask && (sec.manager, id) !in w.tasks then At(w, id, WantForfeit(read.value))
    else At(w, id, WantTake(read.value))
  }

  function Apply(w: World, s: Step): World
    requires Enabled(w, s)
  {
    match s
    case Start(m, op) =>
      w.(ops := w.ops[op.id := op],
         births := w.births + [Birth(op.id, None, true, false)],
         tasks := if op.retryable then w.tasks + {(m, op.id)} else w.tasks)
    case Lifecycle(id, after) => WithRow(w, id, after)
    case ForgetTask(m, id) => w.(tasks := w.tasks - {(m, id)})
    case Begin(m, id, explicitTask) => w.(locks := w.locks[id := Section(m, explicitTask, WantRead)])
    case Read(id) => At(w, id, HaveRead(Row(w, id)))
    case Decide(id) => DecideRetry(w, id, w.locks[id].phase.read)
    case Forfeit(id) =>
      var snap := w.locks[id].phase.snap;
      Unlock(WithRow(w, id, SaveRow(Row(w, id), snap.(retryable := false), snap.revision)), id)
    case Take(id) =>
      var snap := w.locks[id].phase.snap;
      var row := SaveRow(Row(w, id), snap.(retryable := false), snap.revision);
      if row == Row(w, id) then Unlock(w, id)
      else At(WithRow(w, id, row), id, Starting(row.value, snap.retryable))
    case Child(id, op) =>
      var sec := w.locks[id];
      Unlock(w.(ops := w.ops[op.id := op],
                births := w.births + [Birth(op.id, Some(id), sec.explicitTask, sec.phase.took)],
                tasks := (if op.retryable then w.tasks + {(sec.manager, op.id)} else w.tasks) - {(sec.manager, id)}),
                    id)
    case ChildFails(id) =>
      var phase := w.locks[id].phase;
      At(w, id, WantReread(phase.taken, phase.took))
    case Reread(id) =>
      var phase := w.locks[id].phase;
      if id !in w.ops || w.ops[id].retryable then Unlock(w, id)
      else At(w, id, WantReturn(phase.taken, w.ops[id], phase.took))
    case Return(id) =>
      var phase := w.locks[id].phase;
      Unlock(WithRow(w, id, SaveRow(Row(w, id), phase.snap.(retryable := phase.took), phase.snap.revision)), id)
    case StoreFault(id) => Unlock(w, id)
  }

  const EMPTY := World(map[], [], {}, map[])

  function Play(w: World, steps: seq<Step>): Option<World>
    decreases |steps|
  {
    if steps == [] then Some(w)
    else if Enabled(w, steps[0]) then Play(Apply(w, steps[0]), steps[1..])
    else None
  }

  // ----- the retry flag is never duplicated -----

  predicate Holds(phase: Phase) {
    (phase.Starting? || phase.WantReread? || phase.WantReturn?) && phase.took
  }

  predicate InRecord(w: World, id: int) { id in w.ops && w.ops[id].retryable }

  predicate InSection(w: World, id: int) { id in w.locks && Holds(w.locks[id].phase) }

  predicate CarriedBy(w: World, i: nat, id: int) {
    i < |w.births| && w.births[i].retryOf == Some(id) && w.births[i].carried
  }

  /** The flag of an operation is in its record, with the section that took it, or in one child: never in two places. */
  ghost predicate FlagOnce(w: World, id: int) {
    && !(InRecord(w, id) && InSection(w, id))
    && (forall i: nat :: CarriedBy(w, i, id) ==> !InRecord(w, id) && !InSection(w, id))
    && (forall i: nat, j: nat :: CarriedBy(w, i, id) && CarriedBy(w, j, id) ==> i == j)
  }

  /** Sections that took the flag still face the record exactly as they left it, unless it was pruned. */
  predicate SectionOk(w: World, id: int, sec: Section) {
    match sec.phase
    case HaveRead(read) => read.None? || (read.value.id == id && Born(w, id) && Older(read.value, Row(w, id)))
    case WantForfeit(snap) => Born(w, id) && snap.id == id && Retryable(snap) && Older(snap, Row(w, id))
    case WantTake(snap) =>
      && Born(w, id) && snap.id == id && Retryable(snap) && Older(snap, Row(w, id))
      && (sec.explicitTask || snap.retryable)
    case Starting(taken, took) => TakenOk(w, id, sec, taken, took)
    case WantReread(taken, took) => TakenOk(w, id, sec, taken, took)
    case WantReturn(taken, snap, took) => TakenOk(w, id, sec, taken, took) && snap == taken
    case _ => true
  }

  predicate Older(snap: Operation, row: Option<Operation>) {
    row.Some? ==> snap.revision <= row.value.revision && (snap.revision == row.value.revision ==> snap == row.value)
  }

  predicate TakenOk(w: World, id: int, sec: Section, taken: Operation, took: bool) {
    && Born(w, id) && taken.id == id && Retryable(taken) && !taken.retryable && (sec.explicitTask || took)
    && (Row(w, id).None? || Row(w, id) == Some(taken))
  }

  predicate BirthsOk(w: World) {
    && (forall i, j :: 0 <= i < j < |w.births| ==> w.births[i].id != w.births[j].id)
    && (forall i :: 0 <= i < |w.births| && w.births[i].retryOf.Some? ==>
          exists k :: 0 <= k < i && w.births[k].id == w.births[i].retryOf.value)
    && (forall i :: 0 <= i < |w.births| && !w.births[i].explicitTask ==> w.births[i].carried)
  }

  ghost predicate Inv(w: World) {
    && (forall id :: id in w.ops ==> w.ops[id].id == id && Born(w, id))
    && BirthsOk(w)
    && (forall id :: FlagOnce(w, id))
    && (forall id :: id in w.locks ==> SectionOk(w, id, w.locks[id]))
  }

  // ----- preservation -----

  /** Another id's section and flag do not notice a change of this id's record or section. */
  ghost predicate Frame(w: World, w2: World, id: int) {
    && (forall k :: k != id ==> Row(w2, k) == Row(w, k) && (k in w2.locks <==> k in w.locks))
    && (forall k :: k != id && k in w.locks ==> w2.locks[k] == w.locks[k])
    && w2.births == w.births
  }

  lemma FrameKeepsInv(w: World, w2: World, id: int)
    requires Inv(w) && Frame(w, w2, id)
    requires id in w2.ops ==> w2.ops[id].id == id && Born(w, id)
    requires FlagOnce(w2, id) && (id in w2.locks ==> SectionOk(w2, id, w2.locks[id]))
    ensures Inv(w2)
  {
    forall k
      ensures FlagOnce(w2, k) && (k in w2.ops ==> w2.ops[k].id == k && Born(w2, k))
    {
      if k != id {
        assert FlagOnce(w, k);
        assert Row(w2, k) == Row(w, k);
        assert forall i: nat :: CarriedBy(w2, i, k) <==> CarriedBy(w, i, k);
      }
    }
    forall k | k in w2.locks
      ensures SectionOk(w2, k, w2.locks[k])
    {
      if k != id {
        assert SectionOk(w, k, w.locks[k]);
        assert Row(w2, k) == Row(w, k);
      }
    }
  }

  /** A birth leaves every earlier operation alone, except that it may use up the flag its parent's section holds. */
  lemma BirthKeepsInv(w: World, w2: World, birth: Birth, op: Operation)
    requires Inv(w) && !Born(w, op.id) && birth.id == op.id
    requires w2.ops == w.ops[op.id := op] && w2.births == w.births + [birth]
    requires w2.locks == if birth.retryOf.Some? then w.locks - {birth.retryOf.value} else w.locks
    requires birth.retryOf.Some? ==> Born(w, birth.retryOf.value)
    requires birth.carried ==> birth.retryOf.Some? && InSection(w, birth.retryOf.value)
    requires !birth.explicitTask ==> birth.carried
    ensures Inv(w2)
  {
    assert w2.births[|w.births|].id == op.id;
    forall id | Born(w, id)
      ensures Born(w2, id) && id != op.id
    {
      var i :| 0 <= i < |w.births| && w.births[i].id == id;
      assert w2.births[i].id == id;
    }
    BirthOrderKept(w, w2, birth);
    forall id
      ensures FlagOnce(w2, id)
    {
      assert FlagOnce(w, id);
      assert forall i: nat :: i < |w.births| ==> (CarriedBy(w2, i, id) <==> CarriedBy(w, i, id));
      if id == op.id {
        NoChildrenBeforeBirth(w, id);
        assert !InSection(w2, id) by {
          if id in w2.locks {
            assert SectionOk(w, id, w.locks[id]);
          }
        }
      }
    }
    forall id | id in w2.locks
      ensures SectionOk(w2, id, w2.locks[id])
    {
      assert SectionOk(w, id, w.locks[id]);
    }
  }

  lemma NoChildrenBeforeBirth(w: World, id: int)
    requires BirthsOk(w) && !Born(w, id)
    ensures forall i: nat :: !CarriedBy(w, i, id)
  {
  }

  lemma BirthOrderKept(w: World, w2: World, birth: Birth)
    requires BirthsOk(w) && !Born(w, birth.id) && w2.births == w.births + [birth]
    requires birth.retryOf.Some? ==> Born(w, birth.retryOf.value)
    requires !birth.explicitTask ==> birth.carried
    ensures BirthsOk(w2)
  {
    forall i | 0 <= i < |w2.births| && w2.births[i].retryOf.Some?
      ensures exists k :: 0 <= k < i && w2.births[k].id == w2.births[i].retryOf.value
    {
      if i < |w.births| {
        var k :| 0 <= k < i && w.births[k].id == w.births[i].retryOf.value;
        assert w2.births[k].id == w2.births[i].retryOf.value;
      } else {
        var k :| 0 <= k < |w.births| && w.births[k].id == birth.retryOf.value;
        assert w2.births[k].id == w2.births[i].retryOf.value;
      }
    }
  }

  lemma LifecycleKeepsInv(w: World, s: Step)
    requires Inv(w) && Enabled(w, s) && s.Lifecycle?
    ensures Inv(Apply(w, s))
  {
    var w2 := Apply(w, s);
    assert FlagOnce(w, s.id);
    assert forall i: nat :: CarriedBy(w2, i, s.id) <==> CarriedBy(w, i, s.id);
    if s.id in w.locks {
      assert SectionOk(w, s.id, w.locks[s.id]);
    }
    FrameKeepsInv(w, w2, s.id);
  }

  lemma ReadingKeepsInv(w: World, s: Step)
    requires Inv(w) && Enabled(w, s)
    requires s.Begin? || s.Read? || s.ChildFails? || s.Reread? || s.StoreFault?
    ensures Inv(Apply(w, s))
  {
    var w2 := Apply(w, s);
    assert FlagOnce(w, s.id);
    assert forall i: nat :: CarriedBy(w2, i, s.id) <==> CarriedBy(w, i, s.id);
    if s.id in w.locks {
      assert SectionOk(w, s.id, w.locks[s.id]);
    }
    FrameKeepsInv(w, w2, s.id);
  }

  lemma DecidingKeepsInv(w: World, s: Step)
    requires Inv(w) && Enabled(w, s)
    requires s.Decide?
    ensures Inv(Apply(w, s))
  {
    var w2 := Apply(w, s);
    assert FlagOnce(w, s.id);
    assert forall i: nat :: CarriedBy(w2, i, s.id) <==> CarriedBy(w, i, s.id);
    if s.id in w.locks {
      assert SectionOk(w, s.id, w.locks[s.id]);
    }
    FrameKeepsInv(w, w2, s.id);
  }

  lemma WritingKeepsInv(w: World, s: Step)
    requires Inv(w) && Enabled(w, s)
    requires s.Forfeit? || s.Take? || s.Return?
    ensures Inv(Apply(w, s))
  {
    var w2 := Apply(w, s);
    assert FlagOnce(w, s.id);
    assert forall i: nat :: CarriedBy(w2, i, s.id) <==> CarriedBy(w, i, s.id);
    if s.id in w.locks {
      assert SectionOk(w, s.id, w.locks[s.id]);
    }
    FrameKeepsInv(w, w2, s.id);
  }

  lemma StepKeepsInv(w: World, s: Step)
    requires Inv(w) && Enabled(w, s)
    ensures Inv(Apply(w, s))
  {
    match s
    case Start(m, op) => BirthKeepsInv(w, Apply(w, s), Birth(op.id, None, true, false), op);
    case Child(id, op) =>
      assert SectionOk(w, id, w.locks[id]);
      BirthKeepsInv(w, Apply(w, s), Birth(op.id, Some(id), w.locks[id].explicitTask, w.locks[id].phase.took), op);
    case Lifecycle(_, _) => LifecycleKeepsInv(w, s);
    case ForgetTask(_, _) =>
      var w2 := Apply(w, s);
      assert forall id :: FlagOnce(w, id) ==> FlagOnce(w2, id) by {
        assert forall i: nat, id :: CarriedBy(w2, i, id) <==> CarriedBy(w, i, id);
      }
    case Decide(_) => DecidingKeepsInv(w, s);
    case Forfeit(_) => WritingKeepsInv(w, s);
    case Take(_) => WritingKeepsInv(w, s);
    case Return(_) => WritingKeepsInv(w, s);
    case _ => ReadingKeepsInv(w, s);
  }

  lemma {:induction false} PlayKeepsInv(w: World, steps: seq<Step>)
    requires Inv(w) && Play(w, steps).Some?
    ensures Inv(Play(w, steps).value)
    decreases |steps|
  {
    if steps != [] {
      StepKeepsInv(w, steps[0]);
      PlayKeepsInv(Apply(w, steps[0]), steps[1..]);
    }
  }

  // ----- theorems -----

  predicate Implicit(w: World, i: nat, id: int) {
    i < |w.births| && w.births[i].retryOf == Some(id) && !w.births[i].explicitTask
  }

  /** However retries interleave, an operation gets at most one child from retries without a task argument. */
  lemma AtMostOneRetryChild(steps: seq<Step>, id: int, i: nat, j: nat)
    requires Play(EMPTY, steps).Some?
    requires Implicit(Play(EMPTY, steps).value, i, id) && Implicit(Play(EMPTY, steps).value, j, id)
    ensures i == j
    ensures var w := Play(EMPTY, steps).value; id in w.ops ==> !w.ops[id].retryable
  {
    PlayKeepsInv(EMPTY, steps);
    var w := Play(EMPTY, steps).value;
    assert FlagOnce(w, id);
    assert CarriedBy(w, i, id) && CarriedBy(w, j, id);
  }

  /** Where the parent of birth i stands; it is always earlier, so the links have no cycle. */
  function Parent(births: seq<Birth>, i: nat): (k: Option<nat>)
    requires i < |births|
    ensures k.Some? ==> k.value < i && births[i].retryOf == Some(births[k.value].id)
  {
    if births[i].retryOf.None? then None else Position(births, births[i].retryOf.value, i)
  }

  function Position(births: seq<Birth>, id: int, end: nat): (k: Option<nat>)
    requires end <= |births|
    ensures k.Some? ==> k.value < end && births[k.value].id == id
    ensures k.None? ==> forall j :: 0 <= j < end ==> births[j].id != id
  {
    if end == 0 then None
    else if births[end - 1].id == id then Some(end - 1)
    else Position(births, id, end - 1)
  }

  /** The operation a chain of retries goes back to, and how many retries lie between. */
  function Origin(births: seq<Birth>, i: nat): (r: (nat, nat))
    requires i < |births|
    ensures r.0 <= i && Parent(births, r.0).None?
    decreases i
  {
    match Parent(births, i)
    case None => (i, 0)
    case Some(k) => (Origin(births, k).0, Origin(births, k).1 + 1)
  }

  ghost predicate OnlyImplicitRetries(w: World) {
    forall i :: 0 <= i < |w.births| && w.births[i].retryOf.Some? ==> !w.births[i].explicitTask
  }

  /**
   * Without task arguments the retry links form disjoint chains: every retry has its parent among
   * the earlier operations, and two operations equally far from the same origin are the same one.
   */
  lemma {:induction false} RetriesFormChains(steps: seq<Step>, i: nat, j: nat)
    requires Play(EMPTY, steps).Some? && OnlyImplicitRetries(Play(EMPTY, steps).value)
    requires i < |Play(EMPTY, steps).value.births| && j < |Play(EMPTY, steps).value.births|
    ensures var births := Play(EMPTY, steps).value.births;
            && (births[i].retryOf.Some? ==> Parent(births, i).Some?)
            && (Origin(births, i) == Origin(births, j) ==> i == j)
    decreases i
  {
    PlayKeepsInv(EMPTY, steps);
    var w := Play(EMPTY, steps).value;
    var births := w.births;
    ParentExists(w, i);
    ParentExists(w, j);
    if Origin(births, i) == Origin(births, j) && Parent(births, i).Some? {
      var p, q := Parent(births, i).value, Parent(births, j).value;
      RetriesFormChains(steps, p, q);
      AtMostOneRetryChild(steps, births[p].id, i, j);
    }
  }

  lemma ParentExists(w: World, i: nat)
    requires BirthsOk(w) && i < |w.births|
    ensures w.births[i].retryOf.Some? ==> Parent(w.births, i).Some?
  {
    if w.births[i].retryOf.Some? {
      var k :| 0 <= k < i && w.births[k].id == w.births[i].retryOf.value;
    }
  }

  /**
   * A retry whose start fails gives the retry right back: from the moment it took the flag the record
   * stays as it was taken, and the last save restores it, unless retention pruned the record meanwhile.
   */
  lemma FailedRetryGivesBack(steps: seq<Step>, id: int)
    requires Play(EMPTY, steps).Some?
    requires Enabled(Play(EMPTY, steps).value, Return(id))
    ensures var w := Play(EMPTY, steps).value;
            var phase := w.locks[id].phase;
            var w2 := Apply(w, Return(id));
            && id !in w2.locks
            && (id in w.ops ==>
                  && w.ops[id] == phase.taken
                  && w2.ops == w.ops[id := phase.taken.(revision := phase.taken.revision + 1, retryable := phase.took)])
            && (id !in w.ops ==> id !in w2.ops)
  {
    PlayKeepsInv(EMPTY, steps);
    var w := Play(EMPTY, steps).value;
    assert SectionOk(w, id, w.locks[id]);
  }

  /** Taking the flag is what the later give-back undoes: the section carries exactly the flag it removed. */
  lemma TakingCarriesTheFlag(steps: seq<Step>, id: int)
    requires Play(EMPTY, steps).Some?
    requires Enabled(Play(EMPTY, steps).value, Take(id))
    ensures var w := Play(EMPTY, steps).value;
            var w2 := Apply(w, Take(id));
            id in w2.locks ==>
              && id in w.ops && w.ops[id].id == id && Retryable(w.ops[id])
              && w2.locks[id].phase == Starting(w2.ops[id], w.ops[id].retryable)
              && w2.ops[id] == w.ops[id].(revision := w.ops[id].revision + 1, retryable := false)
  {
    PlayKeepsInv(EMPTY, steps);
    var w := Play(EMPTY, steps).value;
    assert SectionOk(w, id, w.locks[id]);
  }

  /**
   * A start that fails always reaches that last save: the reread finds the record as it was taken, or pruned, and in
   * every other case the section waits with exactly the taken record to store.
   */
  lemma FailedStartReachesGiveBack(steps: seq<Step>, id: int)
    requires Play(EMPTY, steps).Some?
    requires Enabled(Play(EMPTY, steps).value, Reread(id))
    ensures var w := Play(EMPTY, steps).value;
            var phase := w.locks[id].phase;
            var w2 := Apply(w, Reread(id));
            && (id in w.ops ==> w.ops[id] == phase.taken && Enabled(w2, Return(id))
                                && w2.locks[id].phase == WantReturn(phase.taken, phase.taken, phase.took))
            && (id !in w.ops ==> id !in w2.locks && id !in w2.ops)
  {
    PlayKeepsInv(EMPTY, steps);
    var w := Play(EMPTY, steps).value;
    assert SectionOk(w, id, w.locks[id]);
  }

  // ----- retries take effect -----

  lemma PlayThen(w: World, s: Step, rest: seq<Step>)
    requires Enabled(w, s)
    ensures Play(w, [s] + rest) == Play(Apply(w, s), rest)
  {
    assert ([s] + rest)[1..] == rest;
  }

  function Locked(w: World, m: int, id: int, explicitTask: bool, phase: Phase): World {
    w.(locks := w.locks[id := Section(m, explicitTask, phase)])
  }

  /** A retry that reads the record and decides on it. */
  lemma DecidesOnRecord(w: World, m: int, id: int, explicitTask: bool, rest: seq<Step>)
    requires !In(w, id)
    ensures Play(w, [Begin(m, id, explicitTask)] + ([Read(id)] + ([Decide(id)] + rest)))
         == Play(DecideRetry(Locked(w, m, id, explicitTask, HaveRead(Row(w, id))), id, Row(w, id)), rest)
  {
    var w1, w2 := Locked(w, m, id, explicitTask, WantRead), Locked(w, m, id, explicitTask, HaveRead(Row(w, id)));
    assert Apply(w, Begin(m, id, explicitTask)) == w1 && Apply(w1, Read(id)) == w2;
    PlayThen(w, Begin(m, id, explicitTask), [Read(id)] + ([Decide(id)] + rest));
    PlayThen(w1, Read(id), [Decide(id)] + rest);
    PlayThen(w2, Decide(id), rest);
  }

  /** A retry of a record that is missing, not finished without success or not retryable changes nothing. */
  lemma RetryIsRefused(w: World, m: int, id: int, explicitTask: bool)
    requires !In(w, id)
    requires id !in w.ops || (!w.ops[id].status.Failed? && !w.ops[id].status.Cancelled?) ||
        (!w.ops[id].retryable && !explicitTask)
    ensures Play(w, [Begin(m, id, explicitTask)] + ([Read(id)] + ([Decide(id)] + []))) == Some(w)
  {
    DecidesOnRecord(w, m, id, explicitTask, []);
    UnlocksAgain(w, m, id, explicitTask, HaveRead(Row(w, id)));
  }

  lemma UnlocksAgain(w: World, m: int, id: int, explicitTask: bool, phase: Phase)
    requires !In(w, id)
    ensures Unlock(Locked(w, m, id, explicitTask, phase), id) == w
  {
    assert Locked(w, m, id, explicitTask, phase).locks - {id} == w.locks;
  }

  /** The retry may go on: it was given a task, or flag and task are still there. */
  predicate MayRetry(w: World, m: int, id: int, explicitTask: bool) {
    && !In(w, id) && id in w.ops && (w.ops[id].status.Failed? || w.ops[id].status.Cancelled?)
    && (explicitTask || (w.ops[id].retryable && (m, id) in w.tasks))
  }

  function TakenRecord(op: Operation): Operation { op.(revision := op.revision + 1, retryable := false) }

  lemma TakesFlag(w: World, m: int, id: int, explicitTask: bool, rest: seq<Step>)
    requires MayRetry(w, m, id, explicitTask)
    ensures Play(w, [Begin(m, id, explicitTask)] + ([Read(id)] + ([Decide(id)] + ([Take(id)] + rest))))
         == Play(Locked(w.(ops := w.ops[id := TakenRecord(w.ops[id])]), m, id, explicitTask,
                        Starting(TakenRecord(w.ops[id]), w.ops[id].retryable)), rest)
  {
    DecidesOnRecord(w, m, id, explicitTask, [Take(id)] + rest);
    var w3 := Locked(w, m, id, explicitTask, WantTake(w.ops[id]));
    assert DecideRetry(Locked(w, m, id, explicitTask, HaveRead(Row(w, id))), id, Row(w, id)) == w3;
    TakeStep(w, m, id, explicitTask, w3);
    PlayThen(w3, Take(id), rest);
  }

  lemma TakeStep(w: World, m: int, id: int, explicitTask: bool, w3: World)
    requires MayRetry(w, m, id, explicitTask) && w3 == Locked(w, m, id, explicitTask, WantTake(w.ops[id]))
    ensures Apply(w3, Take(id)) == Locked(w.(ops := w.ops[id := TakenRecord(w.ops[id])]), m, id, explicitTask,
                                          Starting(TakenRecord(w.ops[id]), w.ops[id].retryable))
  {
    var op, taken := w.ops[id], TakenRecord(w.ops[id]);
    assert SaveRow(Row(w3, id), op.(retryable := false), op.revision) == Some(taken) != Row(w3, id);
    assert Apply(w3, Take(id)) == At(WithRow(w3, id, Some(taken)), id, Starting(taken, op.retryable));
  }

  /** An undisturbed retry starts a child that carries the flag on, and the record no longer has it. */
  lemma RetryTakesEffect(w: World, m: int, id: int, explicitTask: bool, child: Operation)
    requires Inv(w) && MayRetry(w, m, id, explicitTask) && !Born(w, child.id)
    requires child.revision == 1 && child.status.Queued? && Coherent(child)
    requires child.retryOf == Some(id) && child.retryable == w.ops[id].retryable
    ensures var end := Play(w, [Begin(m, id, explicitTask)] + ([Read(id)] + ([Decide(id)] + ([Take(id)]
                               + ([Child(id, child)] + [])))));
            && end.Some? && end.value.locks == w.locks
            && end.value.ops == w.ops[id := TakenRecord(w.ops[id])][child.id := child]
            && end.value.births == w.births + [Birth(child.id, Some(id), explicitTask, w.ops[id].retryable)]
            && (child.retryable ==> (m, child.id) in end.value.tasks)
  {
    TakesFlag(w, m, id, explicitTask, [Child(id, child)] + []);
    var w4 := Locked(w.(ops := w.ops[id := TakenRecord(w.ops[id])]), m, id, explicitTask,
                     Starting(TakenRecord(w.ops[id]), w.ops[id].retryable));
    PlayThen(w4, Child(id, child), []);
    assert Born(w, id) && child.id != id;
    assert w4.locks - {id} == w.locks;
  }

  /** An undisturbed retry whose start fails leaves the record as it was, but for its revision. */
  lemma FailedRetryTakesNothing(w: World, m: int, id: int, explicitTask: bool)
    requires MayRetry(w, m, id, explicitTask)
    ensures Play(w, [Begin(m, id, explicitTask)] + ([Read(id)] + ([Decide(id)] + ([Take(id)]
                    + ([ChildFails(id)] + ([Reread(id)] + ([Return(id)] + [])))))))
         == Some(w.(ops := w.ops[id := w.ops[id].(revision := w.ops[id].revision + 2)]))
  {
    TakesFlag(w, m, id, explicitTask, [ChildFails(id)] + ([Reread(id)] + ([Return(id)] + [])));
    FailedStartGivesBack(w, m, id, explicitTask);
  }

  lemma FailedStartGivesBack(w: World, m: int, id: int, explicitTask: bool)
    requires MayRetry(w, m, id, explicitTask)
    ensures Play(Locked(w.(ops := w.ops[id := TakenRecord(w.ops[id])]), m, id, explicitTask,
                        Starting(TakenRecord(w.ops[id]), w.ops[id].retryable)),
                 [ChildFails(id)] + ([Reread(id)] + ([Return(id)] + [])))
         == Some(w.(ops := w.ops[id := w.ops[id].(revision := w.ops[id].revision + 2)]))
  {
    var op := w.ops[id];
    GivesFlagBack(w.(ops := w.ops[id := TakenRecord(op)]), m, id, explicitTask, TakenRecord(op), op.retryable);
    TwiceStored(w.ops, id);
  }

  lemma TwiceStored(ops: map<int, Operation>, id: int)
    requires id in ops
    ensures ops[id := TakenRecord(ops[id])][id := TakenRecord(ops[id]).(revision := TakenRecord(ops[id]).revision + 1,
                                                                        retryable := ops[id].retryable)]
         == ops[id := ops[id].(revision := ops[id].revision + 2)]
  {
  }

  lemma GivesFlagBack(w: World, m: int, id: int, explicitTask: bool, taken: Operation, took: bool)
    requires !In(w, id) && id in w.ops && w.ops[id] == taken && !taken.retryable
    ensures Play(Locked(w, m, id, explicitTask, Starting(taken, took)),
                 [ChildFails(id)] + ([Reread(id)] + ([Return(id)] + [])))
         == Some(w.(ops := w.ops[id := taken.(revision := taken.revision + 1, retryable := took)]))
  {
    var w4, w5, w6 := Locked(w, m, id, explicitTask, Starting(taken, took)),
        Locked(w, m, id, explicitTask, WantReread(taken, took)),
        Locked(w, m, id, explicitTask, WantReturn(taken, taken, took));
    assert Apply(w4, ChildFails(id)) == w5 && Apply(w5, Reread(id)) == w6;
    PlayThen(w4, ChildFails(id), [Reread(id)] + ([Return(id)] + []));
    PlayThen(w5, Reread(id), [Return(id)] + []);
    PlayThen(w6, Return(id), []);
    var stored := taken.(revision := taken.revision + 1, retryable := took);
    assert SaveRow(Row(w6, id), taken.(retryable := took), taken.revision) == Some(stored);
    UnlocksAgain(w.(ops := w.ops[id := stored]), m, id, explicitTask, WantReturn(taken, taken, took));
  }
}
