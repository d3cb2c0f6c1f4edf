/** Registration of build strategies and the snapshots builds take of them. */
module ImageBuilds {
  import opened Common
  import opened StrategyContracts

  const MAX_REVISION := 1000000
  const MAX_REQUIREMENTS := 32
  const MAX_EXTENSIONS := 16

  datatype Strategy = Strategy(id: int, revision: int, runtimeContract: int, requirements: seq<Requirement>,
      active: bool)

  datatype Registration = Registration(id: int, revision: Option<int>, runtimeContract: int,
      requirements: seq<Requirement>, active: bool)

  datatype Error =
    InvalidRequirements | InvalidRevision | RevisionNotAdvanced | AdapterNotFound | DefinitionMismatch
    | StrategyNotFound | RevisionConflict | StrategyArchived | InvalidInput

  datatype Outcome = Saved(strategy: Strategy) | Refused(error: Error)

  // ----- validation of requirements -----

  function Dedup(xs: seq<int>): seq<int> {
    if xs == [] then []
    else if xs[|xs| - 1] in xs[..|xs| - 1] then Dedup(xs[..|xs| - 1])
    else Dedup(xs[..|xs| - 1]) + [xs[|xs| - 1]]
  }

  predicate ValidRequirement(r: Requirement) {
    0 < |r.extensions| <= MAX_EXTENSIONS && 0 < PackageMaximum(r) <= MAX_BUILD_PACKAGE_BYTES
  }

  /** Every slot valid and no key twice; extensions without repetition, the maximum filled in. */
  method Validate(input: seq<Requirement>) returns (result: Option<seq<Requirement>>)
    ensures result == Validated(input)
  {
    if input == [] || |input| > MAX_REQUIREMENTS { return None; }
    var seen: set<int> := {};
    var rs: seq<Requirement> := [];
    for i := 0 to |input|
      invariant UniqueKeys(input[..i]) && seen == set j | 0 <= j < i :: input[j].key
      invariant forall j :: 0 <= j < i ==> ValidRequirement(input[j])
      invariant rs == Normal(input[..i])
    {
      if input[i].key in seen {
        var j :| 0 <= j < i && input[j].key == input[i].key;
        assert !UniqueKeys(input);
        return None;
      }
      if !ValidRequirement(input[i]) { return None; }
      assert input[..i + 1] == input[..i] + [input[i]];
      seen := seen + {input[i].key};
      rs := rs + [NormalOf(input[i])];
    }
    assert input[..|input|] == input;
    return Some(rs);
  }

  function NormalOf(r: Requirement): Requirement {
    Requirement(r.key, r.required, Dedup(r.extensions), Some(PackageMaximum(r)))
  }

  function Normal(rs: seq<Requirement>): seq<Requirement> {
    seq(|rs|, i requires 0 <= i < |rs| => NormalOf(rs[i]))
  }

  function Validated(input: seq<Requirement>): (rs: Option<seq<Requirement>>)
    ensures rs.Some? ==> UniqueKeys(rs.value)
  {
    if 0 < |input| <= MAX_REQUIREMENTS && UniqueKeys(input) && forall i :: 0 <= i < |input| ==>
        ValidRequirement(input[i])
    then Some(Normal(input)) else None
  }

  lemma {:induction false} DedupMeans(xs: seq<int>)
    ensures Distinct(Dedup(xs)) && forall x :: x in Dedup(xs) <==> x in xs
  {
    if xs != [] {
      var n := |xs| - 1;
      DedupMeans(xs[..n]);
      assert forall x :: x in xs <==> x in xs[..n] || x == xs[n];
    }
  }

  /**
   * A list of 1 to 32 slots with different keys, 1 to 16 extensions and a maximum within the server's is accepted;
   * every slot keeps key and demand, each extension once, and its maximum or the server's.
   */
  lemma ValidatedMeans(input: seq<Requirement>)
    ensures Validated(input).Some? <==>
              && 1 <= |input| <= 32
              && (forall i, j :: 0 <= i < j < |input| ==> input[i].key != input[j].key)
              && (forall i :: 0 <= i < |input| ==>
                    1 <= |input[i].extensions| <= 16 && 1 <= input[i].maxBytes.GetOr(536870912) <= 536870912)
    ensures Validated(input).Some? ==>
              var rs := Validated(input).value;
              && |rs| == |input|
              && (forall i :: 0 <= i < |input| ==>
                    && rs[i].key == input[i].key && rs[i].required == input[i].required
                    && rs[i].maxBytes == Some(input[i].maxBytes.GetOr(536870912))
                    && Distinct(rs[i].extensions)
                    && forall x :: x in rs[i].extensions <==> x in input[i].extensions)
  {
    forall i | 0 <= i < |input| { DedupMeans(input[i].extensions); }
  }

  // ----- registration -----

  type Registry = set<(int, int)>

  predicate SameContract(a: Strategy, b: Strategy) {
    a.runtimeContract == b.runtimeContract && SameRequirements(a.requirements, b.requirements)
  }

  /** The revision given to a registration that names none. */
  function NextRevision(current: Option<Strategy>, changed: bool): int {
    if current.None? then 1 else if changed then current.value.revision + 1 else current.value.revision
  }

  /** What registration decides from the strategy it read. */
  function Register(current: Option<Strategy>, input: Registration, registry: Registry): Outcome {
    var validated := Validated(input.requirements);
    if validated.None? then Refused(InvalidRequirements)
    else
      var changed := current.Some? && (current.value.runtimeContract != input.runtimeContract
                                       || !SameRequirements(current.value.requirements, validated.value));
      var revision := input.revision.GetOr(NextRevision(current, changed));
      if revision < 1 || revision > MAX_REVISION then Refused(InvalidRevision)
      else if current.Some? && (revision < current.value.revision || (changed && revision <= current.value.revision))
      then Refused(RevisionNotAdvanced)
      else if input.active && (input.id, revision) !in registry then Refused(AdapterNotFound)
      else Saved(Strategy(input.id, revision, input.runtimeContract, validated.value, input.active))
  }

  function Stored(strategies: map<int, Strategy>, id: int): Option<Strategy> {
    if id in strategies then Some(strategies[id]) else None
  }

  /** A strategy no plugin adapter supports under any revision. */
  predicate Unknown(registry: Registry, id: int) {
    forall entry :: entry in registry ==> entry.0 != id
  }

  predicate Supported(registry: Registry, s: Strategy) { (s.id, s.revision) in registry }

  class ImageBuildManager {
    const registry: Registry
    var strategies: map<int, Strategy>
    var snapshots: seq<Strategy>
    /** Every save there ever was, in order. */
    ghost var saves: seq<Strategy>

    ghost predicate Valid()
      reads this
    {
      Recorded(strategies, saves) && History(saves) && (forall i :: 0 <= i < |snapshots| ==> snapshots[i] in saves)
    }

    constructor (registry: Registry)
      ensures Valid() && this.registry == registry && strategies == map[] && saves == [] && snapshots == []
    {
      this.registry := registry;
      this.strategies := map[];
      this.saves := [];
      this.snapshots := [];
    }

    /**
     * A registration without a revision gets the first one, the present one if the contract is the same, and else the
     * next.  It is refused if its slots are invalid, if the revision is out of range, falls, or stays while the
     * contract changes, or if it is active without an adapter; else it is stored as it was asked for.
     */
    method RegisterStrategy(input: Registration) returns (outcome: Outcome)
      requires Valid()
      modifies this`strategies, this`saves
      ensures Valid()
      ensures outcome == Register(Stored(old(strategies), input.id), input, registry)
      ensures outcome == Refused(InvalidRequirements) <==> Validated(input.requirements).None?
      ensures Validated(input.requirements).Some? ==>
                var slots := Validated(input.requirements).value;
                var known := input.id in old(strategies);
                var same := known && old(strategies)[input.id].runtimeContract == input.runtimeContract &&
                            SameRequirements(old(strategies)[input.id].requirements, slots);
                var revision := if input.revision.Some? then input.revision.value
                                else if !known then 1
                                else if same then old(strategies)[input.id].revision
                                else old(strategies)[input.id].revision + 1;
                if !(1 <= revision <= 1000000) then outcome == Refused(InvalidRevision)
                else if known && (revision < old(strategies)[input.id].revision ||
                                  (revision == old(strategies)[input.id].revision && !same))
                then outcome == Refused(RevisionNotAdvanced)
                else if input.active && (input.id, revision) !in registry then outcome == Refused(AdapterNotFound)
                else outcome == Saved(Strategy(input.id, revision, input.runtimeContract, slots, input.active))
      ensures outcome.Saved? ==>
          strategies == old(strategies)[input.id := outcome.strategy] && saves == old(saves) + [outcome.strategy]
      ensures outcome.Refused? ==> strategies == old(strategies) && saves == old(saves)
    {
      var validated := Validate(input.requirements);
      if validated.None? { return Refused(InvalidRequirements); }
      var current := Stored(strategies, input.id);
      var changed := current.Some? && (current.value.runtimeContract != input.runtimeContract
                                       || !SameRequirements(current.value.requirements, validated.value));
      var revision := input.revision.GetOr(NextRevision(current, changed));
      if revision < 1 || revision > MAX_REVISION { return Refused(InvalidRevision); }
      if current.Some? && (revision < current.value.revision || (changed && revision <= current.value.revision)) {
        return Refused(RevisionNotAdvanced);
      }
      var strategy := Strategy(input.id, revision, input.runtimeContract, validated.value, input.active);
      if strategy.active && !Supported(registry, strategy) { return Refused(AdapterNotFound); }
      AnotherSave(strategies, saves, strategy);
      strategies := strategies[strategy.id := strategy];
      saves := saves + [strategy];
      outcome := Saved(strategy);
    }

    /** The first loop of `Initialize`: absent strategies are saved, stored active ones must agree. */
    method Seed(initial: seq<Strategy>) returns (error: Option<Error>)
      requires Valid()
      modifies this`strategies, this`saves
      ensures Valid() && OnlyAdded(old(strategies), strategies, initial) && old(saves) <= saves
      ensures error.None? ==> forall i :: 0 <= i < |initial| ==> Settled(strategies, initial[i])
      ensures error.Some? ==> exists i :: 0 <= i < |initial| && Unsettled(registry, strategies, initial[i], error.value)
    {
      for i := 0 to |initial|
        invariant Valid() && OnlyAdded(old(strategies), strategies, initial) && old(saves) <= saves
        invariant forall j :: 0 <= j < i ==> Settled(strategies, initial[j])
      {
        var strategy := initial[i];
        var current := Stored(strategies, strategy.id);
        if current.None? {
          if !Supported(registry, strategy) { return Some(AdapterNotFound); }
          AnotherSave(strategies, saves, strategy);
          SameIsEquivalence(strategy.requirements, strategy.requirements, strategy.requirements);
          strategies := strategies[strategy.id := strategy];
          saves := saves + [strategy];
        } else if current.value.active && !Agrees(current.value, strategy) {
          return Some(DefinitionMismatch);
        }
      }
      error := None;
    }

    /** The second loop of `Initialize`: every active stored strategy must have its adapter. */
    method CheckAdapters() returns (error: Option<Error>)
      ensures error.None? <==> forall id :: id in strategies && strategies[id].active ==>
          Supported(registry, strategies[id])
      ensures error.Some? ==> exists id :: id in strategies && Unadapted(registry, strategies[id], error.value)
    {
      var rest := strategies.Keys;
      while rest != {}
        invariant rest <= strategies.Keys
        invariant forall id :: id in strategies.Keys - rest && strategies[id].active ==>
            Supported(registry, strategies[id])
        decreases rest
      {
        var id := Pick(rest);
        rest := rest - {id};
        if strategies[id].active && !Supported(registry, strategies[id]) {
          error := Some(if Unknown(registry, strategies[id].id) then AdapterNotFound else DefinitionMismatch);
          assert Unadapted(registry, strategies[id], error.value);
          return;
        }
      }
      error := None;
    }

    /**
     * Seeds missing strategies and checks the stored ones. It only ever saves a strategy whose id was absent, also when
     * it stops at an error half way.
     */
    method Initialize(initial: seq<Strategy>) returns (error: Option<Error>)
      requires Valid()
      modifies this`strategies, this`saves
      ensures Valid() && OnlyAdded(old(strategies), strategies, initial) && old(saves) <= saves
      ensures error.None? ==>
                && (forall i :: 0 <= i < |initial| ==> Settled(strategies, initial[i]))
                && (forall id :: id in strategies && strategies[id].active ==>
                      (strategies[id].id, strategies[id].revision) in registry)
      ensures error.Some? ==>
                || (exists i :: 0 <= i < |initial| && Unsettled(registry, strategies, initial[i], error.value))
                || (exists id :: id in strategies && Unadapted(registry, strategies[id], error.value))
    {
      error := Seed(initial);
      if error.None? { error := CheckAdapters(); }
    }

    /** A build freezes the stored strategy; `valid` says whether its packages, actor and release pass their checks. */
    method CreateBuild(id: int, revision: Option<int>, valid: bool) returns (outcome: Outcome)
      requires Valid()
      modifies this`snapshots
      ensures Valid()
      ensures outcome.Saved? <==>
                && id in strategies && strategies[id].active && (id, strategies[id].revision) in registry
                && (revision.Some? ==> revision.value == strategies[id].revision) && valid
      ensures outcome.Saved? ==> outcome.strategy == strategies[id] && snapshots == old(snapshots) + [outcome.strategy]
      ensures outcome.Refused? ==> snapshots == old(snapshots)
      ensures outcome == Refused(StrategyNotFound) <==> id !in strategies
      ensures outcome == Refused(RevisionConflict) <==>
                id in strategies && revision.Some? && revision.value != strategies[id].revision
      ensures outcome == Refused(StrategyArchived) ==> !strategies[id].active
      ensures outcome == Refused(AdapterNotFound) ==> (id, strategies[id].revision) !in registry
    {
      if id !in strategies { return Refused(StrategyNotFound); }
      var strategy := strategies[id];
      if revision.Some? && revision.value != strategy.revision { return Refused(RevisionConflict); }
      if !strategy.active { return Refused(StrategyArchived); }
      if !Supported(registry, strategy) { return Refused(AdapterNotFound); }
      if !valid { return Refused(InvalidInput); }
      assert strategy in saves;
      snapshots := snapshots + [strategy];
      outcome := Saved(strategy);
    }

    /** Two builds frozen under the same strategy id and revision were promised the same contract. */
    lemma SnapshotsAgree(a: Strategy, b: Strategy)
      requires Valid() && a in snapshots && b in snapshots && a.id == b.id && a.revision == b.revision
      ensures SameContract(a, b)
    {
      var i :| 0 <= i < |saves| && saves[i] == a;
      var j :| 0 <= j < |saves| && saves[j] == b;
      SameIsEquivalence(a.requirements, b.requirements, a.requirements);
      if i < j { assert Follows(saves[i], saves[j]); } else if j < i { assert Follows(saves[j], saves[i]); }
    }
  }

  predicate Agrees(current: Strategy, initial: Strategy) {
    current.id == initial.id && current.revision == initial.revision && SameContract(current, initial)
  }

  /** The initial strategy is stored, or what is stored instead is archived or agrees with it. */
  predicate Settled(strategies: map<int, Strategy>, initial: Strategy) {
    initial.id in strategies && (strategies[initial.id].active ==> Agrees(strategies[initial.id], initial))
  }

  /** Why seeding stopped: a new strategy has no adapter, or a stored active one is another. */
  predicate Unsettled(registry: Registry, strategies: map<int, Strategy>, initial: Strategy, error: Error) {
    || (error.AdapterNotFound? && initial.id !in strategies && (initial.id, initial.revision) !in registry)
    || (error.DefinitionMismatch? && initial.id in strategies && strategies[initial.id].active &&
          (|| strategies[initial.id].revision != initial.revision
           || strategies[initial.id].runtimeContract != initial.runtimeContract
           || !SameRequirements(strategies[initial.id].requirements, initial.requirements)))
  }

  /** An active strategy lacks its adapter; the error says whether there is one for another revision. */
  predicate Unadapted(registry: Registry, s: Strategy, error: Error) {
    && s.active && (s.id, s.revision) !in registry
    && error == if exists entry :: entry in registry && entry.0 == s.id then DefinitionMismatch else AdapterNotFound
  }

  /** Stored strategies stay as they are; new ones come from the initial list. */
  ghost predicate OnlyAdded(before: map<int, Strategy>, after: map<int, Strategy>, initial: seq<Strategy>) {
    && (forall id :: id in before ==> id in after && after[id] == before[id])
    && (forall id :: id in after ==> id in before || after[id] in initial)
  }

  /** What a later save of the same id may look like. */
  predicate Follows(earlier: Strategy, later: Strategy) {
    earlier.id == later.id ==>
      earlier.revision <= later.revision && (earlier.revision == later.revision ==> SameContract(earlier, later))
  }

  /** Revisions never fall, and one revision means one contract, over the whole history of saves. */
  ghost predicate History(saves: seq<Strategy>) {
    forall i, j :: 0 <= i < j < |saves| ==> Follows(saves[i], saves[j])
  }

  /** The stored strategy of an id is the last one saved. */
  ghost predicate Recorded(strategies: map<int, Strategy>, saves: seq<Strategy>) {
    && (forall i :: 0 <= i < |saves| ==> saves[i].id in strategies && Follows(saves[i], strategies[saves[i].id]))
    && (forall id :: id in strategies ==> strategies[id].id == id && strategies[id] in saves)
  }

  /** A save keeps the history exactly if it follows the stored strategy of its id. */
  lemma AnotherSave(strategies: map<int, Strategy>, saves: seq<Strategy>, next: Strategy)
    requires Recorded(strategies, saves) && History(saves)
    ensures var follows := next.id in strategies ==> Follows(strategies[next.id], next);
            && (History(saves + [next]) <==> follows)
            && (follows ==> Recorded(strategies[next.id := next], saves + [next]))
  {
    if next.id in strategies ==> Follows(strategies[next.id], next) {
      FollowingSave(strategies, saves, next);
    } else {
      var i :| 0 <= i < |saves| && saves[i] == strategies[next.id];
      assert (saves + [next])[i] == saves[i] && (saves + [next])[|saves|] == next;
    }
  }

  lemma FollowingSave(strategies: map<int, Strategy>, saves: seq<Strategy>, next: Strategy)
    requires Recorded(strategies, saves) && History(saves)
    requires next.id in strategies ==> Follows(strategies[next.id], next)
    ensures Recorded(strategies[next.id := next], saves + [next]) && History(saves + [next])
  {
    forall i | 0 <= i < |saves| ensures Follows(saves[i], next) {
      if saves[i].id == next.id {
        SameIsEquivalence(saves[i].requirements, strategies[next.id].requirements, next.requirements);
      }
    }
    SameIsEquivalence(next.requirements, next.requirements, next.requirements);
    var after := strategies[next.id := next];
    forall id | id in after ensures after[id].id == id && after[id] in saves + [next] {
    }
  }

  /** What registration decides follows the strategy it read. */
  lemma RegisteredFollowsRead(current: Strategy, input: Registration, registry: Registry)
    requires current.id == input.id && Register(Some(current), input, registry).Saved?
    ensures Follows(current, Register(Some(current), input, registry).strategy)
  {
  }
}

/** Registrations that interleave: each reads the stored strategy in one stretch and saves in a later one. */
module RegistrationRuns {
  import opened Common
  import opened StrategyContracts
  import opened ImageBuilds

  datatype Pending = Pending(input: Registration, read: Option<Strategy>)

  datatype World = World(strategies: map<int, Strategy>, saves: seq<Strategy>, calls: map<int, Pending>)

  datatype Step = Reads(call: int, input: Registration) | Saves(call: int)

  const EMPTY := World(map[], [], map[])

  predicate Enabled(w: World, s: Step) {
    match s
    case Reads(c, _) => c !in w.calls
    case Saves(c) => c in w.calls
  }

  function Decided(registry: Registry, w: World, c: int): Outcome
    requires c in w.calls
  {
    Register(w.calls[c].read, w.calls[c].input, registry)
  }

  function Apply(registry: Registry, w: World, s: Step): World
    requires Enabled(w, s)
  {
    match s
    case Reads(c, input) => w.(calls := w.calls[c := Pending(input, Stored(w.strategies, input.id))])
    case Saves(c) =>
      var rest := w.(calls := w.calls - {c});
      match Decided(registry, w, c)
      case Refused(_) => rest
      case Saved(strategy) => rest.(strategies := w.strategies[strategy.id := strategy], saves := w.saves + [strategy])
  }

  function Play(registry: Registry, w: World, steps: seq<Step>): Option<World>
    decreases |steps|
  {
    if steps == [] then Some(w)
    else if Enabled(w, steps[0]) then Play(registry, Apply(registry, w, steps[0]), steps[1..])
    else None
  }

  ghost predicate Inv(w: World) { Recorded(w.strategies, w.saves) && History(w.saves) }

  /** A stale save: it replaces a strategy that it does not follow. */
  predicate Overwrites(registry: Registry, w: World, s: Step)
    requires Enabled(w, s)
  {
    && s.Saves? && Decided(registry, w, s.call).Saved?
    && var strategy := Decided(registry, w, s.call).strategy;
       strategy.id in w.strategies && !Follows(w.strategies[strategy.id], strategy)
  }

  /** A step keeps the history exactly if it is not a stale save. */
  lemma StepKeepsHistory(registry: Registry, w: World, s: Step)
    requires Inv(w) && Enabled(w, s)
    ensures Inv(Apply(registry, w, s)) <==> !Overwrites(registry, w, s)
  {
    if s.Saves? && Decided(registry, w, s.call).Saved? {
      AnotherSave(w.strategies, w.saves, Decided(registry, w, s.call).strategy);
    }
  }

  /** Only a save that finds another strategy than the one it read can be stale. */
  lemma UndisturbedSaveFollows(registry: Registry, w: World, c: int)
    requires Inv(w) && c in w.calls && w.calls[c].read == Stored(w.strategies, w.calls[c].input.id)
    ensures !Overwrites(registry, w, Saves(c))
  {
    if w.calls[c].read.Some? && Decided(registry, w, c).Saved? {
      RegisteredFollowsRead(w.calls[c].read.value, w.calls[c].input, registry);
    }
  }

  ghost predicate NeverOverwrites(registry: Registry, w: World, steps: seq<Step>)
    decreases |steps|
  {
    steps == []
    || (Enabled(w, steps[0]) && !Overwrites(registry, w, steps[0])
        && NeverOverwrites(registry, Apply(registry, w, steps[0]), steps[1..]))
  }

  /**
   * Over every run of interleaved registrations without a stale save, revisions never fall and one revision of a
   * strategy means one contract.
   */
  lemma {:induction false} HistoryHolds(registry: Registry, w: World, steps: seq<Step>)
    requires Inv(w) && Play(registry, w, steps).Some? && NeverOverwrites(registry, w, steps)
    ensures History(Play(registry, w, steps).value.saves) && Inv(Play(registry, w, steps).value)
    decreases |steps|
  {
    if steps != [] {
      StepKeepsHistory(registry, w, steps[0]);
      HistoryHolds(registry, Apply(registry, w, steps[0]), steps[1..]);
    }
  }

  lemma PlayThen(registry: Registry, w: World, s: Step, rest: seq<Step>)
    requires Enabled(w, s)
    ensures Play(registry, w, [s] + rest) == Play(registry, Apply(registry, w, s), rest)
  {
    assert ([s] + rest)[1..] == rest;
  }

  const SLOT := [Requirement(1, true, [1], None)]
  const FIRST := Registration(1, None, 1, SLOT, false)
  const SECOND := Registration(1, None, 2, SLOT, false)

  /** Both calls read before either saves; the second save stores another contract under the same revision. */
  lemma RacingRegistrationsCollide(registry: Registry)
    ensures var run := Play(registry, EMPTY, [Reads(1, FIRST), Reads(2, SECOND), Saves(1), Saves(2)]);
            && run.Some? && |run.value.saves| == 2 && run.value.saves[0].revision == run.value.saves[1].revision == 1
            && run.value.saves[0].runtimeContract != run.value.saves[1].runtimeContract
            && !History(run.value.saves)
  {
    var first := Register(None, FIRST, registry).strategy;
    var second := Register(None, SECOND, registry).strategy;
    assert first.revision == second.revision == 1 && first.runtimeContract != second.runtimeContract &&
        !Follows(first, second);
    var read := EMPTY.(calls := map[1 := Pending(FIRST, None), 2 := Pending(SECOND, None)]);
    PlayThen(registry, EMPTY, Reads(1, FIRST), [Reads(2, SECOND), Saves(1), Saves(2)]);
    PlayThen(registry, EMPTY.(calls := map[1 := Pending(FIRST, None)]), Reads(2, SECOND), [Saves(1), Saves(2)]);
    var w3 := Apply(registry, read, Saves(1));
    assert w3.saves == [first] && w3.calls == map[2 := Pending(SECOND, None)];
    PlayThen(registry, read, Saves(1), [Saves(2)]);
    var w4 := Apply(registry, w3, Saves(2));
    assert w4.saves == [first, second];
    PlayThen(registry, w3, Saves(2), []);
    assert !Follows(w4.saves[0], w4.saves[1]);
  }
}
