/** The forwarding policy cache: what each piece of code between two awaits does to its fields. */
module ForwardingCache {
  import opened Common

  datatype Policy = Policy(target: int, hosts: seq<int>, enabled: bool, updatedBy: int)

  /** The mutable fields of one manager. */
  datatype Cache = Cache(current: Option<Policy>, loadedAt: Option<int>, revision: Option<nat>, generation: nat)

  datatype Settings = Settings(ttl: int, hasRevisions: bool, default: Policy)

  datatype Phase =
    | WantBefore
    | HaveBefore
    | WantList
    | HaveList(stored: Option<Policy>)
    | WantAfter(stored: Option<Policy>)
    | HaveAfter(stored: Option<Policy>, after: Option<nat>)

  /** The local variables of one running `get`. */
  datatype Get = Get(now: int, generation: nat, before: Option<nat>, attempt: nat, phase: Phase)

  datatype Outcome = Answer(policy: Policy) | Continue(get: Get) | Fail

  predicate Superseded(c: Cache, g: Get) {
    g.generation != c.generation && c.current.Some?
  }

  function BeginGet(s: Settings, c: Cache, now: int): Outcome {
    if c.current.Some? && c.loadedAt.Some? && now - c.loadedAt.value < s.ttl then Answer(c.current.value)
    else Continue(Get(now, c.generation, None, 0, if s.hasRevisions then WantBefore else HaveBefore))
  }

  function AfterBefore(c: Cache, g: Get): (Cache, Outcome) {
    if Superseded(c, g) then (c, Answer(c.current.value))
    else if c.current.Some? && g.before.Some? && c.revision == g.before then
      (c.(loadedAt := Some(g.now)), Answer(c.current.value))
    else (c, Continue(g.(phase := WantList)))
  }

  function AfterList(s: Settings, c: Cache, g: Get): Outcome
    requires g.phase.HaveList?
  {
    if Superseded(c, g) then Answer(c.current.value)
    else Continue(g.(phase := if s.hasRevisions then WantAfter(g.phase.stored) else HaveAfter(g.phase.stored, None)))
  }

  function AfterAfter(s: Settings, c: Cache, g: Get): (Cache, Outcome)
    requires g.phase.HaveAfter?
  {
    if Superseded(c, g) then (c, Answer(c.current.value))
    else if g.before != g.phase.after then
      (c, if g.attempt + 1 < 5 then Continue(g.(before := g.phase.after, attempt := g.attempt + 1, phase := WantList))
          else Fail)
    else
      var next := g.phase.stored.GetOr(s.default);
      (Cache(Some(next), Some(g.now), g.phase.after, c.generation), Answer(next))
  }

  function Publish(s: Settings, c: Cache, updated: Policy, now: int): Cache {
    Cache(Some(updated), Some(now), if s.hasRevisions then c.revision else None, c.generation + 1)
  }

  /** The manager's fields and the code that edits them, one method per stretch without an await. */
  class ForwardingPolicyManager {
    const settings: Settings
    var current: Option<Policy>
    var loadedAt: Option<int>
    var revision: Option<nat>
    var cacheGeneration: nat

    constructor (settings: Settings)
      ensures this.settings == settings && View() == Cache(None, None, None, 0)
    {
      this.settings := settings;
      current, loadedAt, revision, cacheGeneration := None, None, None, 0;
    }

    function View(): Cache
      reads this
    {
      Cache(current, loadedAt, revision, cacheGeneration)
    }

    /** A cached policy younger than the time-to-live is answered at once; else a read of this generation begins. */
    method Begin(now: int) returns (outcome: Outcome)
      ensures outcome == BeginGet(settings, View(), now)
      ensures outcome.Answer? <==> current.Some? && loadedAt.Some? && now - loadedAt.value < settings.ttl
      ensures outcome.Answer? ==> current == Some(outcome.policy)
      ensures outcome.Answer? || outcome.Continue?
      ensures outcome.Continue? ==>
                && outcome.get.now == now && outcome.get.generation == cacheGeneration && outcome.get.before.None?
                && outcome.get.attempt == 0
                && outcome.get.phase == if settings.hasRevisions then WantBefore else HaveBefore
    {
      if current.Some? && loadedAt.Some? {
        if now - loadedAt.value < settings.ttl {
          return Answer(current.value);
        }
      }
      return Continue(Get(now, cacheGeneration, None, 0, if settings.hasRevisions then WantBefore else HaveBefore));
    }

    /**
     * A call that an update has overtaken answers the update's policy; one that finds the cached revision unchanged
     * answers the cached policy and renews its age; any other goes on to read the policy.
     */
    method RevisionBeforeRead(g: Get) returns (outcome: Outcome)
      modifies this`loadedAt
      ensures (View(), outcome) == AfterBefore(old(View()), g)
      ensures current.Some? && g.generation != cacheGeneration ==>
                outcome == Answer(current.value) && loadedAt == old(loadedAt)
      ensures current.Some? && g.generation == cacheGeneration && g.before.Some? && revision == g.before ==>
                outcome == Answer(current.value) && loadedAt == Some(g.now)
      ensures current.None? || (g.generation == cacheGeneration && (g.before.None? || revision != g.before)) ==>
                outcome == Continue(g.(phase := WantList)) && loadedAt == old(loadedAt)
    {
      if g.generation != cacheGeneration && current.Some? {
        return Answer(current.value);
      }
      if current.Some? && g.before.Some? && revision == g.before {
        loadedAt := Some(g.now);
        return Answer(current.value);
      }
      return Continue(g.(phase := WantList));
    }

    /** The policy was read: a call that an update has overtaken answers the update's policy, any other goes on. */
    method ListRead(g: Get) returns (outcome: Outcome)
      requires g.phase.HaveList?
      ensures outcome == AfterList(settings, View(), g)
      ensures outcome == if current.Some? && g.generation != cacheGeneration then Answer(current.value)
                         else Continue(g.(phase := if settings.hasRevisions then WantAfter(g.phase.stored)
                                                   else HaveAfter(g.phase.stored, None)))
    {
      if g.generation != cacheGeneration && current.Some? {
        return Answer(current.value);
      }
      if settings.hasRevisions {
        return Continue(g.(phase := WantAfter(g.phase.stored)));
      }
      return Continue(g.(phase := HaveAfter(g.phase.stored, None)));
    }

    /**
     * A call that an update has overtaken answers the update's policy.  If the revision is the same on both sides of
     * the read, the policy read, or without one the default, is cached and answered; else the read starts over, and a
     * call fails only when that happens for the fifth time.
     */
    method RevisionAfterRead(g: Get) returns (outcome: Outcome)
      requires g.phase.HaveAfter?
      modifies this
      ensures (View(), outcome) == AfterAfter(settings, old(View()), g)
      ensures old(current).Some? && g.generation != cacheGeneration ==>
                outcome == Answer(old(current).value) && View() == old(View())
      ensures old(current).None? || g.generation == cacheGeneration ==>
                if g.before == g.phase.after then
                  && outcome == Answer(if g.phase.stored.Some? then g.phase.stored.value else settings.default)
                  && current == Some(outcome.policy) && loadedAt == Some(g.now) && revision == g.phase.after
                else
                  && View() == old(View())
                  && (outcome == Fail <==> g.attempt >= 4)
                  && (g.attempt < 4 ==>
                        outcome == Continue(g.(before := g.phase.after, attempt := g.attempt + 1, phase := WantList)))
      ensures cacheGeneration == old(cacheGeneration)
    {
      if g.generation != cacheGeneration && current.Some? {
        return Answer(current.value);
      }
      if g.before != g.phase.after {
        if g.attempt + 1 >= 5 {
          return Fail;
        }
        return Continue(g.(before := g.phase.after, attempt := g.attempt + 1, phase := WantList));
      }
      var next := settings.default;
      if g.phase.stored.Some? {
        next := g.phase.stored.value;
      }
      current := Some(next);
      loadedAt := Some(g.now);
      revision := g.phase.after;
      return Answer(next);
    }

    method UpdateWritten(updated: Policy, now: int)
      modifies this
      ensures View() == Publish(settings, old(View()), updated, now)
      ensures current == Some(updated) && loadedAt == Some(now) && cacheGeneration == old(cacheGeneration) + 1
    {
      cacheGeneration := cacheGeneration + 1;
      current := Some(updated);
      loadedAt := Some(now);
      if !settings.hasRevisions {
        revision := None;
      }
    }

    method UpdateRevisionRead(read: Option<nat>)
      modifies this`revision
      ensures View() == old(View()).(revision := read)
    {
      revision := read;
    }

    method Invalidate()
      modifies this`loadedAt
      ensures View() == old(View()).(loadedAt := None)
    {
      loadedAt := None;
    }
  }
}

/**
 * Any number of concurrent `get`s and `update`s on one manager, with other processes writing the
 * same durable row.  The history keeps what was durable after every step.
 */
module ForwardingRuns {
  import opened Common
  import opened ForwardingCache

  datatype Moment = Moment(time: int, policy: Option<Policy>, revision: Option<nat>)

  /** A running `get` and the moments of its start and of its reads. */
  datatype Getting = Getting(get: Get, started: nat, beforeAt: nat, listAt: nat, afterAt: nat)

  datatype UpdatePhase = Wrote | WantRevision | HaveRevision(read: Option<nat>)

  /** A running `update` and the moments of its publication and of its revision read. */
  datatype Updating = Updating(policy: Policy, phase: UpdatePhase, publishedAt: nat, readAt: nat)

  /** What a finished `get` answered, when it began and ended, and a moment at which that policy was durable. */
  datatype Answered = Answered(policy: Policy, now: int, started: nat, answeredAt: nat, durableAt: nat)

  /** `currentAt` and `generationAt` remember when the cached policy was durable and when the last update published. */
  datatype World = World(
    settings: Settings,
    history: seq<Moment>,
    cache: Cache,
    gets: map<int, Getting>,
    updates: map<int, Updating>,
    answers: map<int, Answered>,
    currentAt: nat,
    generationAt: nat)

  datatype Step =
    | OtherWrite(policy: Policy)
    | GetBegin(g: int)
    | GetReadsBefore(g: int)
    | GetAfterBefore(g: int)
    | GetReadsList(g: int)
    | GetAfterList(g: int)
    | GetReadsAfter(g: int)
    | GetAfterAfter(g: int)
    | GetFails(g: int)
    | UpdateWrites(u: int, next: Policy)
    | UpdatePublishes(u: int)
    | UpdateReadsRevision(u: int)
    | UpdateFinishes(u: int)
    | UpdateFails(u: int)
    | Invalidates

  datatype Timed = Timed(time: int, step: Step)

  function Now(w: World): Moment
    requires w.history != []
  {
    w.history[|w.history| - 1]
  }

  /** An update between its durable write and its own read of the revision. */
  predicate InWindow(up: Updating) { up.phase.Wrote? || up.phase.WantRevision? }

  predicate In(w: World, g: int) { g in w.gets }

  /** The steps the code can take, with no demand on other writers. */
  predicate Possible(w: World, ts: Timed) {
    && w.history != [] && Now(w).time <= ts.time
    && match ts.step
       case OtherWrite(_) => true
       case GetBegin(g) => !In(w, g) && g !in w.answers
       case GetReadsBefore(g) => In(w, g) && w.gets[g].get.phase.WantBefore?
       case GetAfterBefore(g) => In(w, g) && w.gets[g].get.phase.HaveBefore?
       case GetReadsList(g) => In(w, g) && w.gets[g].get.phase.WantList?
       case GetAfterList(g) => In(w, g) && w.gets[g].get.phase.HaveList?
       case GetReadsAfter(g) => In(w, g) && w.gets[g].get.phase.WantAfter?
       case GetAfterAfter(g) => In(w, g) && w.gets[g].get.phase.HaveAfter?
       case GetFails(g) => In(w, g)
       case UpdateWrites(u, _) => u !in w.updates
       case UpdatePublishes(u) => u in w.updates && w.updates[u].phase.Wrote?
       case UpdateReadsRevision(u) => u in w.updates && w.updates[u].phase.WantRevision?
       case UpdateFinishes(u) => u in w.updates && w.updates[u].phase.HaveRevision?
       case UpdateFails(u) => u in w.updates && !w.updates[u].phase.Wrote?
       case Invalidates => true
  }

  predicate Writes(s: Step) { s.OtherWrite? || s.UpdateWrites? }

  function Written(s: Step): Policy
    requires Writes(s)
  {
    if s.OtherWrite? then s.policy else s.next
  }

  /** While an update is between its write and its own revision read, nobody writes another policy than its own. */
  predicate Undisturbed(w: World, s: Step) {
    Writes(s) ==> forall u :: u in w.updates && InWindow(w.updates[u]) ==> w.updates[u].policy == Written(s)
  }

  function Bumped(revision: Option<nat>): Option<nat> {
    Some(revision.GetOr(0) + 1)
  }

  function Max(a: nat, b: nat): nat { if a < b then b else a }

  /** The durable row after the step; every write bumps the revision. */
  function Durable(w: World, ts: Timed): Moment
    requires w.history != []
  {
    match ts.step
    case OtherWrite(p) => Moment(ts.time, Some(p), Bumped(Now(w).revision))
    case UpdateWrites(_, p) => Moment(ts.time, Some(p), Bumped(Now(w).revision))
    case _ => Now(w).(time := ts.time)
  }

  function Visible(w: World): Option<nat>
    requires w.history != []
  {
    if w.settings.hasRevisions then Now(w).revision else None
  }

  function WithGet(w: World, g: int, getting: Getting): World {
    w.(gets := w.gets[g := getting])
  }

  /** Ends or continues a `get`; `at` is the moment its answer was durable. */
  function Concluded(w: World, g: int, outcome: Outcome, at: nat): World
    requires In(w, g) && w.history != []
  {
    match outcome
    case Continue(get) => WithGet(w, g, w.gets[g].(get := get))
    case Fail => w.(gets := w.gets - {g})
    case Answer(p) =>
      w.(gets := w.gets - {g},
          answers := w.answers[g := Answered(p, w.gets[g].get.now, w.gets[g].started, |w.history| - 1, at)])
  }

  function Apply(w: World, ts: Timed): World
    requires Possible(w, ts)
  {
    var here := |w.history|;
    var v := w.(history := w.history + [Durable(w, ts)]);
    match ts.step
    case OtherWrite(_) => v
    case GetBegin(g) =>
      (match BeginGet(w.settings, w.cache, ts.time)
       case Continue(get) => WithGet(v, g, Getting(get, here, here, here, here))
       case Answer(p) => v.(answers := v.answers[g := Answered(p, ts.time, here, here, w.currentAt)])
       case Fail => v)
    case GetReadsBefore(g) =>
      var x := w.gets[g];
      WithGet(v, g, x.(get := x.get.(before := Visible(w), phase := HaveBefore), beforeAt := here))
    case GetAfterBefore(g) =>
      var x := w.gets[g];
      var r := AfterBefore(w.cache, x.get);
      var at := if Superseded(w.cache, x.get) then w.currentAt else Max(w.currentAt, x.beforeAt);
      Concluded(v, g, r.1, at).(cache := r.0, currentAt := if r.1.Answer? then at else w.currentAt)
    case GetReadsList(g) =>
      var x := w.gets[g];
      WithGet(v, g, x.(get := x.get.(phase := HaveList(Now(w).policy)), listAt := here))
    case GetAfterList(g) => Concluded(v, g, AfterList(w.settings, w.cache, w.gets[g].get), w.currentAt)
    case GetReadsAfter(g) =>
      var x := w.gets[g];
      WithGet(v, g, x.(get := x.get.(phase := HaveAfter(x.get.phase.stored, Visible(w))), afterAt := here))
    case GetAfterAfter(g) =>
      var x := w.gets[g];
      var r := AfterAfter(w.settings, w.cache, x.get);
      var at := if r.1.Answer? && !Superseded(w.cache, x.get) then x.listAt else w.currentAt;
      var y := Concluded(v, g, r.1, at).(cache := r.0, currentAt := at);
      if r.1.Continue? then WithGet(y, g, y.gets[g].(beforeAt := x.afterAt)) else y
    case GetFails(g) => v.(gets := v.gets - {g})
    case UpdateWrites(u, p) => v.(updates := v.updates[u := Updating(p, Wrote, here, here)])
    case UpdatePublishes(u) =>
      v.(cache := Publish(w.settings, w.cache, w.updates[u].policy, ts.time),
         updates := if w.settings.hasRevisions
                    then v.updates[u := Updating(w.updates[u].policy, WantRevision, here, here)]
                    else v.updates - {u},
         currentAt := here, generationAt := here)
    case UpdateReadsRevision(u) =>
      v.(updates := v.updates[u := w.updates[u].(phase := HaveRevision(Visible(w)), readAt := here)])
    case UpdateFinishes(u) =>
      v.(cache := w.cache.(revision := w.updates[u].phase.read), updates := v.updates - {u},
         currentAt := Max(w.currentAt, w.updates[u].readAt))
    case UpdateFails(u) => v.(updates := v.updates - {u})
    case Invalidates => v.(cache := w.cache.(loadedAt := None))
  }

  function Initial(settings: Settings, durable: Moment): World {
    World(settings, [durable], Cache(None, None, None, 0), map[], map[], map[], 0, 0)
  }

  function Play(w: World, steps: seq<Timed>): Option<World>
    decreases |steps|
  {
    if steps == [] then Some(w)
    else if Possible(w, steps[0]) && Undisturbed(w, steps[0].step) then Play(Apply(w, steps[0]), steps[1..])
    else None
  }

  // ----- invariant -----

  function Rev(r: Option<nat>): int { if r.Some? then r.value else -1 }

  function ViewOf(w: World, m: nat): Policy
    requires m < |w.history|
  {
    w.history[m].policy.GetOr(w.settings.default)
  }

  /** Time and revision never fall, and one revision has one policy. */
  predicate HistoryOk(history: seq<Moment>) {
    && history != []
    && (forall i, j :: 0 <= i <= j < |history| ==>
          && history[i].time <= history[j].time
          && Rev(history[i].revision) <= Rev(history[j].revision)
          && (history[i].revision == history[j].revision ==> history[i].policy == history[j].policy))
  }

  predicate CacheOk(w: World) {
    && w.generationAt <= w.currentAt < |w.history|
    && (w.cache.generation > 0 ==> w.cache.current.Some?)
    && (w.cache.current.Some? ==> w.cache.current.value == ViewOf(w, w.currentAt))
    && (w.cache.current.Some? && w.cache.loadedAt.Some? ==> w.history[w.currentAt].time >= w.cache.loadedAt.value)
    && (w.cache.current.None? ==> w.cache.revision.None? && w.cache.loadedAt.None?)
    && (w.cache.revision.Some? ==>
        w.settings.hasRevisions && w.cache.revision.value <= Rev(w.history[w.currentAt].revision))
  }

  predicate GetOk(w: World, x: Getting) {
    && x.started <= x.beforeAt < |w.history| && x.started <= x.listAt < |w.history| &&
        x.started <= x.afterAt < |w.history|
    && x.get.now == w.history[x.started].time
    && x.get.generation <= w.cache.generation
    && (x.get.generation == w.cache.generation ==> w.generationAt <= x.started)
    && (x.get.generation < w.cache.generation ==> x.started <= w.generationAt)
    && (x.get.before.Some? ==> w.settings.hasRevisions && x.get.before == w.history[x.beforeAt].revision)
    && (x.get.phase.HaveList? ==> x.beforeAt <= x.listAt && x.get.phase.stored == w.history[x.listAt].policy)
    && (x.get.phase.WantAfter? ==> x.beforeAt <= x.listAt && x.get.phase.stored == w.history[x.listAt].policy)
    && (x.get.phase.HaveAfter? ==>
          && x.beforeAt <= x.listAt && x.get.phase.stored == w.history[x.listAt].policy
          && (x.get.phase.after.Some? ==>
                w.settings.hasRevisions && x.listAt <= x.afterAt && x.get.phase.after == w.history[x.afterAt].revision))
  }

  predicate UpdateOk(w: World, up: Updating) {
    && up.publishedAt < |w.history|
    && (InWindow(up) ==> Now(w).policy == Some(up.policy))
    && (!up.phase.Wrote? ==> w.settings.hasRevisions && up.publishedAt <= w.generationAt && w.cache.current.Some?)
    && (up.phase.WantRevision? ==> Durably(w.history, up.policy, up.publishedAt, |w.history|))
    && (up.phase.HaveRevision? ==>
          && up.publishedAt <= up.readAt < |w.history| && up.phase.read == w.history[up.readAt].revision
          && Durably(w.history, up.policy, up.publishedAt, up.readAt + 1))
  }

  /** The policy was the durable one at all moments of a stretch of the history. */
  predicate Durably(history: seq<Moment>, policy: Policy, from: nat, to: nat)
    requires to <= |history|
  {
    forall m :: from <= m < to ==> history[m].policy == Some(policy)
  }

  /** The answer was durable during the call or within the time-to-live before it. */
  predicate Justified(w: World, a: Answered) {
    && a.durableAt < |w.history| && a.started < |w.history|
    && a.started <= a.answeredAt && a.durableAt <= a.answeredAt
    && a.policy == ViewOf(w, a.durableAt)
    && a.now == w.history[a.started].time
    && (a.started <= a.durableAt || w.history[a.durableAt].time > a.now - w.settings.ttl)
  }

  ghost predicate Inv(w: World) {
    && HistoryOk(w.history) && CacheOk(w)
    && (forall g :: g in w.gets ==> GetOk(w, w.gets[g]) && g !in w.answers)
    && (forall u :: u in w.updates ==> UpdateOk(w, w.updates[u]))
    && (forall g :: g in w.answers ==> Justified(w, w.answers[g]))
  }

  // ----- preservation -----

  /** A longer history keeps every fact about earlier moments. */
  predicate Extends(w: World, w2: World) {
    && w.history != [] && |w2.history| == |w.history| + 1 && w.history <= w2.history
    && w2.settings == w.settings
  }

  lemma HistoryGrows(w: World, ts: Timed)
    requires HistoryOk(w.history) && Possible(w, ts)
    ensures HistoryOk(w.history + [Durable(w, ts)])
  {
  }

  lemma StepExtends(w: World, ts: Timed, w2: World)
    requires HistoryOk(w.history) && Possible(w, ts) && w2 == Apply(w, ts)
    ensures Extends(w, w2) && HistoryOk(w2.history) && Now(w2) == Durable(w, ts)
  {
    HistoryGrows(w, ts);
    assert w2.history == w.history + [Durable(w, ts)] && w2.settings == w.settings;
  }

  lemma AnswersKept(w: World, w2: World)
    requires Inv(w) && Extends(w, w2)
    ensures forall g :: g in w.answers ==> Justified(w2, w.answers[g])
  {
    forall g | g in w.answers
      ensures Justified(w2, w.answers[g])
    {
      assert Justified(w, w.answers[g]);
    }
  }

  lemma GetKept(w: World, w2: World, x: Getting)
    requires GetOk(w, x) && Extends(w, w2)
    requires w2.cache.generation == w.cache.generation && w2.generationAt == w.generationAt
    ensures GetOk(w2, x)
  {
  }

  lemma UpdateKept(w: World, w2: World, up: Updating)
    requires UpdateOk(w, up) && Extends(w, w2)
    requires w2.generationAt >= w.generationAt && (w.cache.current.Some? ==> w2.cache.current.Some?)
    requires InWindow(up) ==> Now(w2).policy == Now(w).policy
    ensures UpdateOk(w2, up)
  {
  }

  /** What every finished stretch of a `get` hands on: an answer that was durable in time, and a sound cache. */
  lemma BeforeStretch(w: World, g: int)
    requires Inv(w) && In(w, g) && w.gets[g].get.phase.HaveBefore?
    ensures var x := w.gets[g];
            var r := AfterBefore(w.cache, x.get);
            var at := if Superseded(w.cache, x.get) then w.currentAt else Max(w.currentAt, x.beforeAt);
            && (r.1.Answer? ==>
                  && CacheOk(w.(cache := r.0, currentAt := at))
                  && Justified(w, Answered(r.1.policy, x.get.now, x.started, |w.history|, at)))
            && (!r.1.Answer? ==> r.0 == w.cache)
  {
    var x := w.gets[g];
    assert GetOk(w, x);
    if !Superseded(w.cache, x.get) && w.currentAt < x.beforeAt && w.cache.current.Some? && x.get.before.Some? &&
        w.cache.revision == x.get.before {
      assert Rev(w.history[w.currentAt].revision) == Rev(w.history[x.beforeAt].revision);
      assert w.history[w.currentAt].policy == w.history[x.beforeAt].policy;
    }
  }

  lemma AfterStretch(w: World, g: int)
    requires Inv(w) && In(w, g) && w.gets[g].get.phase.HaveAfter?
    ensures var x := w.gets[g];
            var r := AfterAfter(w.settings, w.cache, x.get);
            var at := if r.1.Answer? && !Superseded(w.cache, x.get) then x.listAt else w.currentAt;
            && CacheOk(w.(cache := r.0, currentAt := at))
            && r.0.generation == w.cache.generation && (w.cache.current.Some? ==> r.0.current.Some?)
            && (r.1.Answer? ==> Justified(w, Answered(r.1.policy, x.get.now, x.started, |w.history|, at)))
  {
    var x := w.gets[g];
    assert GetOk(w, x);
    var at := if !Superseded(w.cache, x.get) && x.get.before == x.get.phase.after then x.listAt else w.currentAt;
    if at == x.listAt && x.get.phase.after.Some? {
      assert Rev(w.history[x.beforeAt].revision) <= Rev(w.history[x.listAt].revision);
      assert Rev(w.history[x.listAt].revision) <= Rev(w.history[x.afterAt].revision);
    }
  }

  /** Only the call `g`, its answer and the cached fields other than the generation may differ. */
  ghost predicate OnlyGetMoved(w: World, w2: World, g: int)
    requires w.history != [] && w2.history != []
  {
    && Now(w2).policy == Now(w).policy && Now(w2).revision == Now(w).revision
    && w2.cache.generation == w.cache.generation && w2.generationAt == w.generationAt
    && (w.cache.current.Some? ==> w2.cache.current.Some?)
    && w2.updates == w.updates
    && (forall k :: k in w2.gets && k != g ==> k in w.gets && w2.gets[k] == w.gets[k])
    && (forall k :: k in w2.answers && k != g ==> k in w.answers && w2.answers[k] == w.answers[k])
    && (g in w2.gets ==> g !in w2.answers)
  }

  /** A step of one `get` that leaves the durable row and every other call alone. */
  lemma GetReplaced(w: World, w2: World, g: int)
    requires Inv(w) && w.history != [] && w2.history != [] && OnlyGetMoved(w, w2, g)
    requires Extends(w, w2) && HistoryOk(w2.history) && CacheOk(w2)
    requires g in w2.gets ==> GetOk(w2, w2.gets[g])
    requires g in w2.answers ==> Justified(w2, w2.answers[g])
    ensures Inv(w2)
  {
    AnswersKept(w, w2);
    forall k | k in w2.gets
      ensures GetOk(w2, w2.gets[k]) && k !in w2.answers
    {
      if k != g { GetKept(w, w2, w.gets[k]); }
    }
    forall u | u in w2.updates
      ensures UpdateOk(w2, w2.updates[u])
    {
      UpdateKept(w, w2, w.updates[u]);
    }
  }

  /** A step of one `update` that leaves the durable row, the generation and every other call alone. */
  lemma UpdateReplaced(w: World, w2: World, u: int)
    requires Inv(w) && Extends(w, w2) && HistoryOk(w2.history) && CacheOk(w2)
    requires Now(w2).policy == Now(w).policy && Now(w2).revision == Now(w).revision
    requires w2.cache.generation == w.cache.generation && w2.generationAt == w.generationAt
    requires w2.cache.current == w.cache.current && w2.gets == w.gets && w2.answers == w.answers
    requires forall k :: k in w2.updates && k != u ==> k in w.updates && w2.updates[k] == w.updates[k]
    requires u in w2.updates ==> UpdateOk(w2, w2.updates[u])
    ensures Inv(w2)
  {
    AnswersKept(w, w2);
    forall k | k in w2.gets ensures GetOk(w2, w2.gets[k]) && k !in w2.answers {
      GetKept(w, w2, w.gets[k]);
    }
    forall k | k in w2.updates ensures UpdateOk(w2, w2.updates[k]) {
      if k != u { UpdateKept(w, w2, w.updates[k]); }
    }
  }

  lemma AnsweredLater(w: World, w2: World, a: Answered)
    requires Justified(w, a) && Extends(w, w2)
    ensures Justified(w2, a)
  {
  }

  lemma CacheLater(w: World, w2: World)
    requires CacheOk(w) && Extends(w, w2)
    requires w2.cache == w.cache && w2.currentAt == w.currentAt && w2.generationAt == w.generationAt
    ensures CacheOk(w2)
  {
  }

  lemma GetBeginSound(w: World, ts: Timed, w2: World)
    requires Inv(w) && Possible(w, ts) && ts.step.GetBegin? && w2 == Apply(w, ts)
    ensures CacheOk(w2)
    ensures ts.step.g in w2.answers ==> Justified(w2, w2.answers[ts.step.g])
    ensures ts.step.g in w2.gets ==> GetOk(w2, w2.gets[ts.step.g])
  {
    StepExtends(w, ts, w2);
    CacheLater(w, w2);
    assert w2.history[w.currentAt] == w.history[w.currentAt];
  }

  lemma GetBeginMoves(w: World, ts: Timed, w2: World)
    requires Inv(w) && Possible(w, ts) && ts.step.GetBegin? && w2 == Apply(w, ts)
    ensures w2.history != [] && OnlyGetMoved(w, w2, ts.step.g)
  {
    StepExtends(w, ts, w2);
  }

  lemma GetBeginKeepsInv(w: World, ts: Timed, w2: World)
    requires Inv(w) && Possible(w, ts) && ts.step.GetBegin? && w2 == Apply(w, ts)
    ensures Inv(w2)
  {
    StepExtends(w, ts, w2);
    GetBeginSound(w, ts, w2);
    GetBeginMoves(w, ts, w2);
    GetReplaced(w, w2, ts.step.g);
  }

  lemma GetReadsKeepInv(w: World, ts: Timed, w2: World)
    requires Inv(w) && Possible(w, ts) && w2 == Apply(w, ts)
    requires ts.step.GetReadsBefore? || ts.step.GetReadsList? || ts.step.GetReadsAfter? || ts.step.GetFails?
    ensures Inv(w2)
  {
    StepExtends(w, ts, w2);
    assert GetOk(w, w.gets[ts.step.g]);
    CacheLater(w, w2);
    GetReplaced(w, w2, ts.step.g);
  }

  /** A call goes on, or leaves with an answer or without one. */
  lemma ConcludedMoves(w: World, g: int, outcome: Outcome, at: nat)
    requires In(w, g) && w.history != []
    ensures var y := Concluded(w, g, outcome, at);
            && y == w.(gets := y.gets, answers := y.answers)
            && (forall k :: k in y.gets && k != g ==> k in w.gets && y.gets[k] == w.gets[k])
            && (forall k :: k in y.answers && k != g ==> k in w.answers && y.answers[k] == w.answers[k])
            && (g !in w.answers && g in y.gets ==> g !in y.answers)
  {
  }

  /** The stretch after the first revision read leaves a sound cache and an answer that was durable in time. */
  lemma AfterBeforeSound(w: World, ts: Timed, w2: World)
    requires Inv(w) && Possible(w, ts) && ts.step.GetAfterBefore? && w2 == Apply(w, ts)
    ensures CacheOk(w2)
    ensures ts.step.g in w2.answers ==> Justified(w2, w2.answers[ts.step.g])
  {
    var g := ts.step.g;
    StepExtends(w, ts, w2);
    BeforeStretch(w, g);
    CacheLater(w.(cache := w2.cache, currentAt := w2.currentAt), w2);
    if g in w2.answers { AnsweredLater(w, w2, w2.answers[g]); }
  }

  lemma ListNextOk(w: World, ts: Timed, w2: World)
    requires Inv(w) && Possible(w, ts) && ts.step.GetAfterBefore? && w2 == Apply(w, ts) && ts.step.g in w2.gets
    ensures GetOk(w2, w2.gets[ts.step.g])
  {
    var x, y := w.gets[ts.step.g], w2.gets[ts.step.g];
    StepExtends(w, ts, w2);
    GetKept(w, w2, x);
    assert y == x.(get := x.get.(phase := WantList));
  }

  lemma AfterBeforeMoves(w: World, ts: Timed, w2: World)
    requires Inv(w) && Possible(w, ts) && ts.step.GetAfterBefore? && w2 == Apply(w, ts)
    ensures w2.history != [] && OnlyGetMoved(w, w2, ts.step.g)
  {
    var g := ts.step.g;
    StepExtends(w, ts, w2);
    var v := w.(history := w2.history);
    var outcome := AfterBefore(w.cache, w.gets[g].get).1;
    ConcludedMoves(v, g, outcome, w2.currentAt);
    assert w2.cache.generation == w.cache.generation && w2.cache.current == w.cache.current;
  }

  lemma AfterBeforeKeepsInv(w: World, ts: Timed, w2: World)
    requires Inv(w) && Possible(w, ts) && ts.step.GetAfterBefore? && w2 == Apply(w, ts)
    ensures Inv(w2)
  {
    StepExtends(w, ts, w2);
    AfterBeforeMoves(w, ts, w2);
    AfterBeforeSound(w, ts, w2);
    if ts.step.g in w2.gets { ListNextOk(w, ts, w2); }
    GetReplaced(w, w2, ts.step.g);
  }

  lemma AfterListKeepsInv(w: World, ts: Timed, w2: World)
    requires Inv(w) && Possible(w, ts) && ts.step.GetAfterList? && w2 == Apply(w, ts)
    ensures Inv(w2)
  {
    StepExtends(w, ts, w2);
    assert GetOk(w, w.gets[ts.step.g]);
    CacheLater(w, w2);
    GetReplaced(w, w2, ts.step.g);
  }

  /** A `get` whose two revision reads differ starts over from the second one. */
  lemma NextAttemptOk(w: World, ts: Timed, w2: World)
    requires Inv(w) && Possible(w, ts) && ts.step.GetAfterAfter? && w2 == Apply(w, ts) && ts.step.g in w2.gets
    ensures GetOk(w2, w2.gets[ts.step.g])
  {
    var x := w.gets[ts.step.g];
    assert GetOk(w, x);
    StepExtends(w, ts, w2);
    var y := w2.gets[ts.step.g];
    assert y.started == x.started && y.beforeAt == x.afterAt && y.get.before == x.get.phase.after &&
        y.get.phase.WantList?;
    assert w2.cache == w.cache && w2.generationAt == w.generationAt;
  }

  /** The last stretch of a `get` leaves a sound cache and an answer that was durable in time. */
  lemma AfterAfterSound(w: World, ts: Timed, w2: World)
    requires Inv(w) && Possible(w, ts) && ts.step.GetAfterAfter? && w2 == Apply(w, ts)
    ensures CacheOk(w2)
    ensures ts.step.g in w2.answers ==> Justified(w2, w2.answers[ts.step.g])
  {
    var g := ts.step.g;
    StepExtends(w, ts, w2);
    AfterStretch(w, g);
    CacheLater(w.(cache := w2.cache, currentAt := w2.currentAt), w2);
    if g in w2.answers { AnsweredLater(w, w2, w2.answers[g]); }
  }

  lemma AfterAfterMoves(w: World, ts: Timed, w2: World)
    requires Inv(w) && Possible(w, ts) && ts.step.GetAfterAfter? && w2 == Apply(w, ts)
    ensures w2.history != [] && OnlyGetMoved(w, w2, ts.step.g)
  {
    var g := ts.step.g;
    StepExtends(w, ts, w2);
    AfterStretch(w, g);
    var v := w.(history := w2.history);
    var outcome := AfterAfter(w.settings, w.cache, w.gets[g].get).1;
    ConcludedMoves(v, g, outcome, w2.currentAt);
    var y := Concluded(v, g, outcome, w2.currentAt);
    assert w2.answers == y.answers;
    assert w2.gets == if outcome.Continue? then y.gets[g := w2.gets[g]] else y.gets;
  }

  lemma AfterAfterKeepsInv(w: World, ts: Timed, w2: World)
    requires Inv(w) && Possible(w, ts) && ts.step.GetAfterAfter? && w2 == Apply(w, ts)
    ensures Inv(w2)
  {
    var g := ts.step.g;
    StepExtends(w, ts, w2);
    AfterAfterMoves(w, ts, w2);
    AfterAfterSound(w, ts, w2);
    if g in w2.gets { NextAttemptOk(w, ts, w2); }
    GetReplaced(w, w2, g);
  }

  lemma WritesKeepInv(w: World, ts: Timed, w2: World)
    requires Inv(w) && Possible(w, ts) && Undisturbed(w, ts.step) && w2 == Apply(w, ts)
    requires ts.step.OtherWrite? || ts.step.UpdateWrites?
    ensures Inv(w2)
  {
    StepExtends(w, ts, w2);
    AnswersKept(w, w2);
    CacheLater(w, w2);
    forall k | k in w2.gets ensures GetOk(w2, w2.gets[k]) && k !in w2.answers {
      GetKept(w, w2, w.gets[k]);
    }
    forall u | u in w2.updates ensures UpdateOk(w2, w2.updates[u]) {
      if u in w.updates { UpdateKept(w, w2, w.updates[u]); }
    }
  }

  /** A call from before the publication is an old one afterwards. */
  lemma GetOutdated(w: World, w2: World, x: Getting)
    requires GetOk(w, x) && Extends(w, w2)
    requires w2.cache.generation == w.cache.generation + 1 && w2.generationAt == |w.history|
    ensures GetOk(w2, x)
  {
  }

  lemma PublishKeepsInv(w: World, ts: Timed, w2: World)
    requires Inv(w) && Possible(w, ts) && ts.step.UpdatePublishes? && w2 == Apply(w, ts)
    ensures Inv(w2)
  {
    StepExtends(w, ts, w2);
    AnswersKept(w, w2);
    assert UpdateOk(w, w.updates[ts.step.u]);
    forall k | k in w2.gets ensures GetOk(w2, w2.gets[k]) && k !in w2.answers {
      GetOutdated(w, w2, w.gets[k]);
    }
    forall u | u in w2.updates ensures UpdateOk(w2, w2.updates[u]) {
      if u != ts.step.u { UpdateKept(w, w2, w.updates[u]); }
    }
  }

  lemma RevisionReadKeepsInv(w: World, ts: Timed, w2: World)
    requires Inv(w) && Possible(w, ts) && ts.step.UpdateReadsRevision? && w2 == Apply(w, ts)
    ensures Inv(w2)
  {
    StepExtends(w, ts, w2);
    CacheLater(w, w2);
    assert UpdateOk(w, w.updates[ts.step.u]);
    UpdateReplaced(w, w2, ts.step.u);
  }

  lemma UpdateFailsKeepsInv(w: World, ts: Timed, w2: World)
    requires Inv(w) && Possible(w, ts) && ts.step.UpdateFails? && w2 == Apply(w, ts)
    ensures Inv(w2)
  {
    StepExtends(w, ts, w2);
    CacheLater(w, w2);
    UpdateReplaced(w, w2, ts.step.u);
  }

  lemma InvalidatingKeepsInv(w: World, ts: Timed, w2: World)
    requires Inv(w) && Possible(w, ts) && ts.step.Invalidates? && w2 == Apply(w, ts)
    ensures Inv(w2)
  {
    StepExtends(w, ts, w2);
    assert CacheOk(w2);
    UpdateReplaced(w, w2, 0);
  }

  /** The revision read belongs to the update's policy, which is still the cached one unless a later one is. */
  lemma FinishSound(w: World, ts: Timed, w2: World)
    requires Inv(w) && Possible(w, ts) && ts.step.UpdateFinishes? && w2 == Apply(w, ts)
    ensures CacheOk(w2)
  {
    StepExtends(w, ts, w2);
    var up := w.updates[ts.step.u];
    assert UpdateOk(w, up);
    if w.currentAt < up.readAt {
      assert w.history[w.currentAt].policy == w.history[up.readAt].policy;
      assert w.history[w.currentAt].time <= w.history[up.readAt].time;
    }
    assert Rev(w.history[up.readAt].revision) <= Rev(w.history[w2.currentAt].revision);
  }

  lemma FinishKeepsInv(w: World, ts: Timed, w2: World)
    requires Inv(w) && Possible(w, ts) && ts.step.UpdateFinishes? && w2 == Apply(w, ts)
    ensures Inv(w2)
  {
    StepExtends(w, ts, w2);
    FinishSound(w, ts, w2);
    UpdateReplaced(w, w2, ts.step.u);
  }

  lemma StepKeepsInv(w: World, ts: Timed)
    requires Inv(w) && Possible(w, ts) && Undisturbed(w, ts.step)
    ensures Inv(Apply(w, ts)) && Apply(w, ts).settings == w.settings
  {
    var w2 := Apply(w, ts);
    StepExtends(w, ts, w2);
    match ts.step
    case OtherWrite(_) => WritesKeepInv(w, ts, w2);
    case UpdateWrites(_, _) => WritesKeepInv(w, ts, w2);
    case UpdatePublishes(_) => PublishKeepsInv(w, ts, w2);
    case UpdateReadsRevision(_) => RevisionReadKeepsInv(w, ts, w2);
    case UpdateFinishes(_) => FinishKeepsInv(w, ts, w2);
    case UpdateFails(_) => UpdateFailsKeepsInv(w, ts, w2);
    case Invalidates => InvalidatingKeepsInv(w, ts, w2);
    case GetAfterBefore(_) => AfterBeforeKeepsInv(w, ts, w2);
    case GetAfterList(_) => AfterListKeepsInv(w, ts, w2);
    case GetAfterAfter(_) => AfterAfterKeepsInv(w, ts, w2);
    case GetBegin(_) => GetBeginKeepsInv(w, ts, w2);
    case _ => GetReadsKeepInv(w, ts, w2);
  }

  lemma {:induction false} PlayKeepsInv(w: World, steps: seq<Timed>)
    requires Inv(w) && Play(w, steps).Some?
    ensures Inv(Play(w, steps).value)
    ensures Play(w, steps).value.settings == w.settings
    decreases |steps|
  {
    if steps != [] {
      StepKeepsInv(w, steps[0]);
      PlayKeepsInv(Apply(w, steps[0]), steps[1..]);
    }
  }

  /** The answer was durable between the call's beginning and its answer or within the time-to-live before. */
  ghost predicate FreshEnough(w: World, a: Answered) {
    exists m :: 0 <= m <= a.answeredAt && m < |w.history|
      && w.history[m].policy.GetOr(w.settings.default) == a.policy
      && (a.started <= m || w.history[m].time > a.now - w.settings.ttl)
  }

  /**
   * Under any interleaving of gets, updates and undisturbing writers, every answer is a policy that was the durable
   * one at some moment between the beginning of the call and its answer, or less than the time-to-live before it began.
   */
  lemma AnswersAreFreshEnough(settings: Settings, durable: Moment, steps: seq<Timed>, g: int)
    requires Play(Initial(settings, durable), steps).Some?
    requires g in Play(Initial(settings, durable), steps).value.answers
    ensures var w := Play(Initial(settings, durable), steps).value;
            w.settings == settings && FreshEnough(w, w.answers[g])
  {
    PlayKeepsInv(Initial(settings, durable), steps);
    var w := Play(Initial(settings, durable), steps).value;
    assert Justified(w, w.answers[g]);
    assert w.history[w.answers[g].durableAt].policy.GetOr(settings.default) == w.answers[g].policy;
  }

  // ----- why no writer may commit inside an update's window -----

  const FIRST := Policy(1, [], true, 1)
  const SECOND := Policy(2, [], true, 2)
  const BRIEF := Settings(10, true, Policy(0, [], true, 0))

  /** Another process commits between an update's write and its revision read ... */
  function DisturbedWindow(): (w: World)
    ensures w.history == [Moment(0, None, None), Moment(0, Some(FIRST), Some(1)), Moment(0, Some(SECOND), Some(2)),
                          Moment(0, Some(SECOND), Some(2))]
    ensures w.settings == BRIEF && w.gets == map[] && w.answers == map[]
    ensures w.cache == Cache(Some(FIRST), Some(0), None, 1)
    ensures w.updates == map[1 := Updating(FIRST, WantRevision, 3, 3)]
  {
    var w1 := Apply(Initial(BRIEF, Moment(0, None, None)), Timed(0, UpdateWrites(1, FIRST)));
    var w2 := Apply(w1, Timed(0, OtherWrite(SECOND)));
    Apply(w2, Timed(0, UpdatePublishes(1)))
  }

  /** ... and the update then caches its own policy under the other's revision. */
  function DisturbedUpdate(): (w: World)
    ensures w.history == [Moment(0, None, None), Moment(0, Some(FIRST), Some(1)), Moment(0, Some(SECOND), Some(2)),
                          Moment(0, Some(SECOND), Some(2)), Moment(0, Some(SECOND), Some(2)),
                              Moment(0, Some(SECOND), Some(2))]
    ensures w.cache == Cache(Some(FIRST), Some(0), Some(2), 1)
    ensures w.settings == BRIEF && w.gets == map[] && w.updates == map[] && w.answers == map[]
  {
    var read := Apply(DisturbedWindow(), Timed(0, UpdateReadsRevision(1)));
    assert read.updates == map[1 := Updating(FIRST, HaveRevision(Some(2)), 3, 4)];
    Apply(read, Timed(0, UpdateFinishes(1)))
  }

  function LateGet(w: World): World
    requires w == DisturbedUpdate()
  {
    var w1 := Apply(w, Timed(100, GetBegin(7)));
    var w2 := Apply(w1, Timed(100, GetReadsBefore(7)));
    Apply(w2, Timed(100, GetAfterBefore(7)))
  }

  /**
   * The late `get` answers the overwritten policy, which was durable at no moment of the call nor within the
   * time-to-live.
   */
  lemma WindowIsNeeded()
    ensures var w := LateGet(DisturbedUpdate());
            && 7 in w.answers
            && w.answers[7].policy == FIRST
            && (forall m :: 0 <= m < |w.history| && w.history[m].policy.GetOr(BRIEF.default) == FIRST ==>
                  m < w.answers[7].started && w.history[m].time <= w.answers[7].now - BRIEF.ttl)
  {
  }
}
