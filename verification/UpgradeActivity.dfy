/** The upgrade safety window: whether an instance has been quiet long enough to be rebuilt. */
module UpgradeActivity {
  import opened Common

  datatype Metrics = Metrics(rx: int, tx: int, cpu: real)
  datatype MetricsResult = Supported(metrics: Metrics) | Unsupported | Unavailable

  datatype LeaseKind = Http | Websocket
  datatype Lease = Lease(kind: LeaseKind, lastActivityAt: int)

  /** A stored activity timestamp: its text, and the time it parses to if it does. */
  datatype Stamp = Stamp(text: int, time: Option<int>)

  datatype Item = Item(rollout: int, attempt: Option<int>)

  datatype Observation = Observation(sampledAt: int, metrics: Metrics)
  datatype ReadyObservation = ReadyObservation(sampledAt: int, metrics: Metrics, item: Item, lastActivity: Stamp)

  datatype Settings = Settings(quietWindow: int, busyCpu: real)

  datatype Reason =
    | ActiveStream | ActiveWebsocket | TimestampInvalid | RecentActivity | MetricsUnsupported
    | StillObserving | ConfirmationMissing | ActivityResumed

  datatype Assessment = Ready | NotReady(reason: Reason) | Raised

  /** The two maps of the policy. */
  datatype Memory = Memory(observations: map<int, Observation>, ready: map<int, ReadyObservation>)

  function Clear(m: Memory, id: int): Memory {
    Memory(m.observations - {id}, m.ready - {id})
  }

  predicate AnyHttp(leases: seq<Lease>) {
    exists i :: 0 <= i < |leases| && leases[i].kind.Http?
  }

  predicate RecentWebsocket(s: Settings, now: int, leases: seq<Lease>) {
    exists i :: 0 <= i < |leases| && leases[i].kind.Websocket? && leases[i].lastActivityAt > now - s.quietWindow
  }

  /** Why the leases and the persisted timestamp alone forbid an assessment from going on. */
  function AssessBlocker(s: Settings, now: int, leases: seq<Lease>, stamp: Stamp): Option<Reason> {
    if AnyHttp(leases) then Some(ActiveStream)
    else if RecentWebsocket(s, now, leases) then Some(ActiveWebsocket)
    else if stamp.time.None? then Some(TimestampInvalid)
    else if stamp.time.value > now - s.quietWindow then Some(RecentActivity)
    else None
  }

  function ConfirmBlocker(s: Settings, now: int, leases: seq<Lease>, stamp: Stamp,
                          ready: ReadyObservation): Option<Reason> {
    if AnyHttp(leases) then Some(ActiveStream)
    else if RecentWebsocket(s, now, leases) then Some(ActiveWebsocket)
    else if stamp.time.None? then Some(TimestampInvalid)
    else if stamp.text != ready.lastActivity.text then Some(RecentActivity)
    else None
  }

  /** No lease shows activity: none is an HTTP one, and no websocket was active within the window. */
  predicate Silent(window: int, now: int, leases: seq<Lease>) {
    forall l :: l in leases ==> l.kind.Websocket? && l.lastActivityAt <= now - window
  }

  lemma SilentMeans(s: Settings, now: int, leases: seq<Lease>)
    ensures AnyHttp(leases) <==> exists l :: l in leases && l.kind.Http?
    ensures Silent(s.quietWindow, now, leases) <==> !AnyHttp(leases) && !RecentWebsocket(s, now, leases)
    ensures !AnyHttp(leases) ==>
              (RecentWebsocket(s, now, leases) <==> exists l :: l in leases && l.lastActivityAt > now - s.quietWindow)
  {
    if l :| l in leases && l.kind.Http? {
      var i :| 0 <= i < |leases| && leases[i] == l;
    }
    if l :| l in leases && l.lastActivityAt > now - s.quietWindow {
      var i :| 0 <= i < |leases| && leases[i] == l;
      assert leases[i].kind.Http? || leases[i].kind.Websocket?;
    }
    forall l | l in leases && !AnyHttp(leases) && !RecentWebsocket(s, now, leases)
      ensures l.kind.Websocket? && l.lastActivityAt <= now - s.quietWindow
    {
      var i :| 0 <= i < |leases| && leases[i] == l;
    }
  }

  predicate SameCounters(a: Metrics, b: Metrics) { a.rx == b.rx && a.tx == b.tx }

  predicate LowCpu(s: Settings, m: Metrics) { m.cpu <= s.busyCpu }

  predicate Unchanged(m: Memory, id: int, metrics: Metrics) {
    id in m.observations && SameCounters(m.observations[id].metrics, metrics)
  }

  predicate BothLow(s: Settings, m: Memory, id: int, metrics: Metrics) {
    LowCpu(s, metrics) && (id in m.observations ==> LowCpu(s, m.observations[id].metrics))
  }

  predicate WindowPassed(s: Settings, m: Memory, id: int, now: int, metrics: Metrics) {
    && Unchanged(m, id, metrics) && now - m.observations[id].sampledAt >= s.quietWindow && BothLow(s, m, id, metrics)
  }

  /** The stretch of `assess` after the metrics were read. */
  function AssessSample(s: Settings, m: Memory, id: int, now: int, item: Item, stamp: Stamp,
                        result: MetricsResult): (Memory, Assessment) {
    match result
    case Unsupported => (Clear(m, id), NotReady(MetricsUnsupported))
    case Unavailable => (m, Raised)
    case Supported(metrics) =>
      if WindowPassed(s, m, id, now, metrics) then
        (m.(ready := m.ready[id := ReadyObservation(now, metrics, item, stamp)]), Ready)
      else
        var keep := Unchanged(m, id, metrics) && BothLow(s, m, id, metrics) && now >= m.observations[id].sampledAt;
        (Memory(if keep then m.observations else m.observations[id := Observation(now, metrics)], m.ready - {id}),
         NotReady(StillObserving))
  }

  /** The first stretch of `confirmAfterDrain`: which ready observation it will confirm. */
  function ConfirmTarget(m: Memory, id: int, item: Item): Option<ReadyObservation> {
    if id in m.ready && m.ready[id].item == item then Some(m.ready[id]) else None
  }

  /** The stretch of `confirmAfterDrain` after the metrics were read. */
  function ConfirmSample(s: Settings, m: Memory, id: int, now: int, ready: ReadyObservation,
                         result: MetricsResult): (Memory, Assessment) {
    match result
    case Unsupported => (Clear(m, id), NotReady(MetricsUnsupported))
    case Unavailable => (m, Raised)
    case Supported(metrics) =>
      if SameCounters(ready.metrics, metrics) && LowCpu(s, ready.metrics) && LowCpu(s, metrics) then
        (Clear(m, id), Ready)
      else
        (Memory(m.observations[id := Observation(now, metrics)], m.ready - {id}), NotReady(ActivityResumed))
  }

  function Assess(s: Settings, m: Memory, id: int, now: int, item: Item, stamp: Stamp, leases: seq<Lease>,
                  result: MetricsResult): (Memory, Assessment) {
    var blocker := AssessBlocker(s, now, leases, stamp);
    if blocker.Some? then (Clear(m, id), NotReady(blocker.value)) else AssessSample(s, m, id, now, item, stamp, result)
  }

  function ConfirmAfterDrain(s: Settings, m: Memory, id: int, now: int, item: Item, stamp: Stamp, leases: seq<Lease>,
                             result: MetricsResult): (Memory, Assessment) {
    var target := ConfirmTarget(m, id, item);
    if target.None? then (Clear(m, id), NotReady(ConfirmationMissing)) else
    var blocker := ConfirmBlocker(s, now, leases, stamp, target.value);
    if blocker.Some? then (Clear(m, id), NotReady(blocker.value))
    else ConfirmSample(s, m, id, now, target.value, result)
  }

  /** The policy object: two maps updated in place. */
  class InstanceUpgradeActivityPolicy {
    const settings: Settings
    var observations: map<int, Observation>
    var readyObservations: map<int, ReadyObservation>

    constructor (settings: Settings)
      ensures this.settings == settings && View() == Memory(map[], map[])
    {
      this.settings := settings;
      observations, readyObservations := map[], map[];
    }

    function View(): Memory
      reads this
    {
      Memory(observations, readyObservations)
    }

    method ClearObservations(id: int)
      modifies this
      ensures View() == Clear(old(View()), id)
    {
      observations := observations - {id};
      readyObservations := readyObservations - {id};
    }

    method BlockedByLeases(now: int, leases: seq<Lease>) returns (reason: Option<Reason>)
      ensures reason == (if AnyHttp(leases) then Some(ActiveStream)
                         else if RecentWebsocket(settings, now, leases) then Some(ActiveWebsocket) else None)
    {
      for i := 0 to |leases|
        invariant forall j :: 0 <= j < i ==> !leases[j].kind.Http?
      {
        if leases[i].kind.Http? { return Some(ActiveStream); }
      }
      for i := 0 to |leases|
        invariant forall j :: 0 <= j < i ==>
            !(leases[j].kind.Websocket? && leases[j].lastActivityAt > now - settings.quietWindow)
      {
        if leases[i].kind.Websocket? && leases[i].lastActivityAt > now - settings.quietWindow {
          return Some(ActiveWebsocket);
        }
      }
      return None;
    }

    /**
     * One assessment with no other call of the same instance in between.  The first of these that applies decides: an
     * open HTTP lease, a websocket active within the window, an unreadable or recent persisted timestamp, missing
     * metrics; else the instance is ready exactly if an earlier sample at least one window old had the same network
     * counters and both had a low CPU.  A sample that keeps the earlier one standing does not replace it.
     */
    method AssessInstance(id: int, now: int, item: Item, stamp: Stamp, leases: seq<Lease>, result: MetricsResult)
      returns (answer: Assessment)
      modifies this
      ensures (View(), answer) == Assess(settings, old(View()), id, now, item, stamp, leases, result)
      ensures answer == NotReady(ActiveStream) <==> exists l :: l in leases && l.kind.Http?
      ensures answer == NotReady(ActiveWebsocket) <==>
                && (forall l :: l in leases ==> l.kind.Websocket?)
                && exists l :: l in leases && l.lastActivityAt > now - settings.quietWindow
      ensures Silent(settings.quietWindow, now, leases) ==>
                && (answer == NotReady(TimestampInvalid) <==> stamp.time.None?)
                && (answer == NotReady(RecentActivity) <==>
                      stamp.time.Some? && stamp.time.value > now - settings.quietWindow)
      ensures Silent(settings.quietWindow, now, leases) &&
              stamp.time.Some? && stamp.time.value <= now - settings.quietWindow ==>
                && (answer == NotReady(MetricsUnsupported) <==> result.Unsupported?)
                && (answer == Raised <==> result.Unavailable?)
                && (answer == Ready <==>
                      && result.Supported? && id in old(observations)
                      && old(observations[id]).metrics.rx == result.metrics.rx
                      && old(observations[id]).metrics.tx == result.metrics.tx
                      && now - old(observations[id]).sampledAt >= settings.quietWindow
                      && old(observations[id]).metrics.cpu <= settings.busyCpu
                      && result.metrics.cpu <= settings.busyCpu)
                && (answer.NotReady? ==> answer.reason == MetricsUnsupported || answer.reason == StillObserving)
      ensures answer == Ready ==>
                && observations == old(observations)
                && readyObservations == old(readyObservations)[id := ReadyObservation(now, result.metrics, item, stamp)]
      ensures answer == Raised ==> observations == old(observations) && readyObservations == old(readyObservations)
      ensures answer.NotReady? ==> readyObservations == old(readyObservations) - {id}
      ensures answer.NotReady? && answer.reason != StillObserving ==> observations == old(observations) - {id}
      ensures answer == NotReady(StillObserving) ==>
                observations == if && id in old(observations)
                                   && old(observations[id]).metrics.rx == result.metrics.rx
                                   && old(observations[id]).metrics.tx == result.metrics.tx
                                   && old(observations[id]).metrics.cpu <= settings.busyCpu
                                   && result.metrics.cpu <= settings.busyCpu && old(observations[id]).sampledAt <= now
                                then old(observations)
                                else old(observations)[id := Observation(now, result.metrics)]
    {
      var blocked := BlockedByLeases(now, leases);
      SilentMeans(settings, now, leases);
      if blocked.Some? {
        ClearObservations(id);
        return NotReady(blocked.value);
      }
      if stamp.time.None? {
        ClearObservations(id);
        return NotReady(TimestampInvalid);
      }
      if stamp.time.value > now - settings.quietWindow {
        ClearObservations(id);
        return NotReady(RecentActivity);
      }
      if result.Unsupported? {
        ClearObservations(id);
        return NotReady(MetricsUnsupported);
      }
      if result.Unavailable? {
        return Raised;
      }
      var metrics := result.metrics;
      var steady, elapsed, lowCpu := false, 0, metrics.cpu <= settings.busyCpu;
      if id in observations {
        var previous := observations[id];
        steady := previous.metrics.rx == metrics.rx && previous.metrics.tx == metrics.tx;
        elapsed := now - previous.sampledAt;
        lowCpu := lowCpu && previous.metrics.cpu <= settings.busyCpu;
      }
      if id in observations && steady && elapsed >= settings.quietWindow && lowCpu {
        readyObservations := readyObservations[id := ReadyObservation(now, metrics, item, stamp)];
        return Ready;
      }
      readyObservations := readyObservations - {id};
      if id !in observations || !steady || !lowCpu || elapsed < 0 {
        observations := observations[id := Observation(now, metrics)];
      }
      return NotReady(StillObserving);
    }

    /**
     * One confirmation with no other call of the same instance in between.  Without a ready observation of the same
     * rollout and attempt there is nothing to confirm; an open HTTP lease, an active websocket, an unreadable
     * timestamp, one that differs from the observed one, and missing metrics forbid it; else it is ready exactly if the
     * network counters are still those observed and both samples had a low CPU.
     */
    method ConfirmInstance(id: int, now: int, item: Item, stamp: Stamp, leases: seq<Lease>, result: MetricsResult)
      returns (answer: Assessment)
      modifies this
      ensures (View(), answer) == ConfirmAfterDrain(settings, old(View()), id, now, item, stamp, leases, result)
      ensures answer == NotReady(ConfirmationMissing) <==>
                id !in old(readyObservations) || old(readyObservations[id]).item != item
      ensures answer == Ready <==>
                && id in old(readyObservations) && old(readyObservations[id]).item == item
                && Silent(settings.quietWindow, now, leases)
                && stamp.time.Some? && stamp.text == old(readyObservations[id]).lastActivity.text
                && result.Supported? && old(readyObservations[id]).metrics.rx == result.metrics.rx
                && old(readyObservations[id]).metrics.tx == result.metrics.tx
                && old(readyObservations[id]).metrics.cpu <= settings.busyCpu && result.metrics.cpu <= settings.busyCpu
      ensures id in old(readyObservations) && old(readyObservations[id]).item == item ==>
                && (answer == NotReady(ActiveStream) <==> exists l :: l in leases && l.kind.Http?)
                && (answer == NotReady(ActiveWebsocket) <==>
                      && (forall l :: l in leases ==> l.kind.Websocket?)
                      && exists l :: l in leases && l.lastActivityAt > now - settings.quietWindow)
      ensures id in old(readyObservations) && old(readyObservations[id]).item == item &&
              Silent(settings.quietWindow, now, leases) ==>
                && (answer == NotReady(TimestampInvalid) <==> stamp.time.None?)
                && (answer == NotReady(RecentActivity) <==>
                      stamp.time.Some? && stamp.text != old(readyObservations[id]).lastActivity.text)
                && (stamp.time.Some? && stamp.text == old(readyObservations[id]).lastActivity.text ==>
                      && (answer == NotReady(MetricsUnsupported) <==> result.Unsupported?)
                      && (answer == Raised <==> result.Unavailable?))
      ensures answer == Raised ==> observations == old(observations) && readyObservations == old(readyObservations)
      ensures answer != Raised ==> readyObservations == old(readyObservations) - {id}
      ensures answer == NotReady(ActivityResumed) ==>
                result.Supported? && observations == old(observations)[id := Observation(now, result.metrics)]
      ensures answer == Ready || (answer.NotReady? && answer.reason != ActivityResumed) ==>
                observations == old(observations) - {id}
    {
      if id !in readyObservations || readyObservations[id].item != item {
        ClearObservations(id);
        return NotReady(ConfirmationMissing);
      }
      var ready := readyObservations[id];
      var blocked := BlockedByLeases(now, leases);
      SilentMeans(settings, now, leases);
      if blocked.None? && stamp.time.None? {
        blocked := Some(TimestampInvalid);
      }
      if blocked.None? && stamp.text != ready.lastActivity.text {
        blocked := Some(RecentActivity);
      }
      if blocked.Some? {
        ClearObservations(id);
        return NotReady(blocked.value);
      }
      if result.Unsupported? {
        ClearObservations(id);
        return NotReady(MetricsUnsupported);
      }
      if result.Unavailable? {
        return Raised;
      }
      var metrics := result.metrics;
      var steady := ready.metrics.rx == metrics.rx && ready.metrics.tx == metrics.tx;
      readyObservations := readyObservations - {id};
      if steady && ready.metrics.cpu <= settings.busyCpu && metrics.cpu <= settings.busyCpu {
        observations := observations - {id};
        return Ready;
      }
      observations := observations[id := Observation(now, metrics)];
      return NotReady(ActivityResumed);
    }
  }
}

/** Runs in which the calls of one or many instances may overlap at every await. */
module UpgradeActivityRuns {
  import opened Common
  import opened UpgradeActivity

  /** The calls between two of their stretches. */
  datatype Call =
    | Assessing(id: int, now: int, item: Item, stamp: Stamp, leases: seq<Lease>)
    | Confirming(id: int, now: int, item: Item, stamp: Stamp, target: ReadyObservation, begun: nat,
                 looked: Option<seq<Lease>>)

  /**
   * What happened at one stretch of code, instance by instance: a look at leases and timestamp, which may have been
   * clear, a sample of the metrics with what the same call had looked at, or a call that ended without either.
   */
  datatype Event =
    | Busy(id: int, reason: Reason)
    | Looked(id: int, now: int, stamp: Stamp, leases: seq<Lease>, assessing: bool, clear: bool)
    | Sample(id: int, now: int, metrics: Metrics, item: Item, stamp: Stamp, leases: seq<Lease>, ready: bool)
    | Begun(id: int)
    | Confirmed(id: int, now: int, metrics: Metrics, item: Item, stamp: Stamp, leases: seq<Lease>, begun: nat,
                ready: bool)
    | Nothing(id: int)
  {
    /** Speaks against the instance being quiet. */
    predicate Alarms() { Busy? || (Looked? && !clear) }
  }

  datatype World = World(memory: Memory, calls: map<int, Call>, log: seq<Event>)

  datatype Step =
    | AssessLeases(call: int, id: int, now: int, item: Item, stamp: Stamp, leases: seq<Lease>)
    | AssessMetrics(call: int, result: MetricsResult)
    | ConfirmBegins(call: int, id: int, now: int, item: Item, stamp: Stamp)
    | ConfirmLeases(call: int, leases: seq<Lease>)
    | ConfirmMetrics(call: int, result: MetricsResult)

  predicate Enabled(w: World, st: Step) {
    match st
    case AssessLeases(c, _, _, _, _, _) => c !in w.calls
    case AssessMetrics(c, _) => c in w.calls && w.calls[c].Assessing?
    case ConfirmBegins(c, _, _, _, _) => c !in w.calls
    case ConfirmLeases(c, _) => c in w.calls && w.calls[c].Confirming? && w.calls[c].looked.None?
    case ConfirmMetrics(c, _) => c in w.calls && w.calls[c].Confirming? && w.calls[c].looked.Some?
  }

  function Cleared(w: World, id: int, reason: Reason): World {
    w.(memory := Clear(w.memory, id), log := w.log + [Busy(id, reason)])
  }

  function Apply(s: Settings, w: World, st: Step): World
    requires Enabled(w, st)
  {
    match st
    case AssessLeases(c, id, now, item, stamp, leases) =>
      var blocker := AssessBlocker(s, now, leases, stamp);
      var looked := w.(log := w.log + [Looked(id, now, stamp, leases, true, blocker.None?)]);
      if blocker.Some? then looked.(memory := Clear(w.memory, id))
      else looked.(calls := w.calls[c := Assessing(id, now, item, stamp, leases)])
    case AssessMetrics(c, result) =>
      var x := w.calls[c];
      var r := AssessSample(s, w.memory, x.id, x.now, x.item, x.stamp, result);
      World(r.0, w.calls - {c}, w.log + [
        match result
        case Unsupported => Busy(x.id, MetricsUnsupported)
        case Unavailable => Nothing(x.id)
        case Supported(metrics) => Sample(x.id, x.now, metrics, x.item, x.stamp, x.leases, r.1.Ready?)])
    case ConfirmBegins(c, id, now, item, stamp) =>
      var target := ConfirmTarget(w.memory, id, item);
      if target.None? then Cleared(w, id, ConfirmationMissing)
      else w.(calls := w.calls[c := Confirming(id, now, item, stamp, target.value, |w.log|, None)],
          log := w.log + [Begun(id)])
    case ConfirmLeases(c, leases) =>
      var x := w.calls[c];
      var blocker := ConfirmBlocker(s, x.now, leases, x.stamp, x.target);
      var looked := w.(log := w.log + [Looked(x.id, x.now, x.stamp, leases, false, blocker.None?)]);
      if blocker.Some? then looked.(memory := Clear(w.memory, x.id), calls := w.calls - {c})
      else looked.(calls := w.calls[c := x.(looked := Some(leases))])
    case ConfirmMetrics(c, result) =>
      var x := w.calls[c];
      var r := ConfirmSample(s, w.memory, x.id, x.now, x.target, result);
      World(r.0, w.calls - {c}, w.log + [
        match result
        case Unsupported => Busy(x.id, MetricsUnsupported)
        case Unavailable => Nothing(x.id)
        case Supported(metrics) =>
          Confirmed(x.id, x.now, metrics, x.item, x.stamp, x.looked.value, x.begun, r.1.Ready?)])
  }

  const EMPTY := World(Memory(map[], map[]), map[], [])

  function Play(s: Settings, w: World, steps: seq<Step>): Option<World>
    decreases |steps|
  {
    if steps == [] then Some(w)
    else if Enabled(w, steps[0]) then Play(s, Apply(s, w, steps[0]), steps[1..])
    else None
  }

  // ----- quiet stretches of the log -----

  /** Event i took the metrics that `base` names as its sample. */
  predicate IsSample(e: Event, id: int, base: Observation) {
    e.id == id && ((e.Sample? && e.now == base.sampledAt && e.metrics == base.metrics)
                || (e.Confirmed? && !e.ready && e.now == base.sampledAt && e.metrics == base.metrics))
  }

  /** Nothing in the log of this instance after j and before k speaks against the baseline. */
  predicate QuietBetween(s: Settings, log: seq<Event>, id: int, base: Metrics, j: nat, k: nat)
    requires k <= |log|
  {
    forall i :: j < i < k && log[i].id == id ==>
      && !log[i].Alarms() && !log[i].Confirmed?
      && (log[i].Sample? ==> SameCounters(log[i].metrics, base) && LowCpu(s, log[i].metrics) && LowCpu(s, base))
  }

  /** Nothing after j and before k touched a ready observation of this instance. */
  predicate Untouched(log: seq<Event>, id: int, j: nat, k: nat)
    requires k <= |log|
  {
    forall i :: j < i < k && log[i].id == id ==> !log[i].Alarms() && !log[i].Sample? && !log[i].Confirmed?
  }

  predicate ObservationOk(s: Settings, log: seq<Event>, id: int, o: Observation) {
    exists j :: 0 <= j < |log| && IsSample(log[j], id, o) && QuietBetween(s, log, id, o.metrics, j, |log|)
  }

  /** Event j is the ready assessment that this observation records. */
  predicate IsReadySample(e: Event, id: int, r: ReadyObservation) {
    e.Sample? && e == Sample(id, r.sampledAt, r.metrics, r.item, r.lastActivity, e.leases, true)
  }

  predicate ReadyBehind(log: seq<Event>, id: int, r: ReadyObservation, k: nat)
    requires k <= |log|
  {
    exists j :: 0 <= j < k && IsReadySample(log[j], id, r) && Untouched(log, id, j, k)
  }

  /** Neither the leases nor the persisted timestamp of an assessment show activity within the window. */
  predicate ShowsQuiet(s: Settings, now: int, stamp: Stamp, leases: seq<Lease>) {
    Silent(s.quietWindow, now, leases) && stamp.time.Some? && stamp.time.value <= now - s.quietWindow
  }

  /** What a stretch that found nothing to object to had looked at. */
  predicate EventOk(s: Settings, e: Event) {
    && (e.Looked? && e.clear ==> Silent(s.quietWindow, e.now, e.leases) && e.stamp.time.Some?)
    && (e.Looked? && e.clear && e.assessing ==> ShowsQuiet(s, e.now, e.stamp, e.leases))
    && (e.Sample? ==> ShowsQuiet(s, e.now, e.stamp, e.leases))
    && (e.Confirmed? ==> Silent(s.quietWindow, e.now, e.leases) && e.stamp.time.Some?)
  }

  predicate CallOk(s: Settings, log: seq<Event>, c: Call) {
    && (c.Assessing? ==> ShowsQuiet(s, c.now, c.stamp, c.leases))
    && (c.Confirming? ==>
      && c.begun < |log| && log[c.begun] == Begun(c.id)
      && c.target.item == c.item && ReadyBehind(log, c.id, c.target, c.begun)
      && (c.looked.Some? ==>
            && c.stamp.text == c.target.lastActivity.text && c.stamp.time.Some?
            && Silent(s.quietWindow, c.now, c.looked.value)))
  }

  /** A ready assessment at k has a quiet stretch of at least one window behind it. */
  predicate ReadyJustified(s: Settings, log: seq<Event>, k: nat)
    requires k < |log| && log[k].Sample?
  {
    exists j :: 0 <= j < k && BaselineFor(s, log, j, k)
  }

  predicate BaselineFor(s: Settings, log: seq<Event>, j: nat, k: nat)
    requires j < k < |log| && log[k].Sample?
  {
    && log[j].id == log[k].id && (log[j].Sample? || (log[j].Confirmed? && !log[j].ready))
    && log[k].now - log[j].now >= s.quietWindow
    && QuietBetween(s, log, log[k].id, log[j].metrics, j, k + 1)
    && LowCpu(s, log[j].metrics)
  }

  /** A ready confirmation at k rests on a ready assessment untouched until the confirmation began. */
  predicate ConfirmJustified(s: Settings, log: seq<Event>, k: nat)
    requires k < |log| && log[k].Confirmed?
  {
    && log[k].begun < k && log[log[k].begun] == Begun(log[k].id)
    && exists j :: 0 <= j < log[k].begun && AssessedFor(s, log, j, k)
  }

  predicate AssessedFor(s: Settings, log: seq<Event>, j: nat, k: nat)
    requires j < k < |log| && log[k].Confirmed? && log[k].begun < k
  {
    var e := log[k];
    && log[j].Sample? && log[j].id == e.id && log[j].ready
    && log[j].item == e.item && log[j].stamp.text == e.stamp.text
    && SameCounters(log[j].metrics, e.metrics) && LowCpu(s, e.metrics)
    && Untouched(log, e.id, j, e.begun)
  }

  ghost predicate Inv(s: Settings, w: World) {
    && (forall id :: id in w.memory.observations ==> ObservationOk(s, w.log, id, w.memory.observations[id]))
    && (forall id :: id in w.memory.ready ==> ReadyBehind(w.log, id, w.memory.ready[id], |w.log|))
    && (forall c :: c in w.calls ==> CallOk(s, w.log, w.calls[c]))
    && LogOk(s, w.log)
  }

  // ----- preservation -----

  lemma JustifiedLater(s: Settings, log: seq<Event>, e: Event, k: nat)
    requires k < |log|
    ensures log[k].Sample? && ReadyJustified(s, log, k) ==> ReadyJustified(s, log + [e], k)
    ensures log[k].Confirmed? && ConfirmJustified(s, log, k) ==> ConfirmJustified(s, log + [e], k)
  {
    var log2 := log + [e];
    if log[k].Sample? && ReadyJustified(s, log, k) {
      var j :| 0 <= j < k && BaselineFor(s, log, j, k);
      assert log2[j] == log[j] && BaselineFor(s, log2, j, k);
    }
    if log[k].Confirmed? && ConfirmJustified(s, log, k) {
      var j :| 0 <= j < log[k].begun && AssessedFor(s, log, j, k);
      assert log2[j] == log[j] && AssessedFor(s, log2, j, k);
    }
  }

  /** An event that does not speak against a baseline leaves it standing. */
  lemma BaselineStands(s: Settings, log: seq<Event>, e: Event, id: int, o: Observation)
    requires ObservationOk(s, log, id, o)
    requires e.id == id && e.Sample? ==>
        SameCounters(e.metrics, o.metrics) && LowCpu(s, e.metrics) && LowCpu(s, o.metrics)
    requires e.id == id ==> !e.Alarms() && !e.Confirmed?
    ensures ObservationOk(s, log + [e], id, o)
  {
    var j :| 0 <= j < |log| && IsSample(log[j], id, o) && QuietBetween(s, log, id, o.metrics, j, |log|);
    var log2 := log + [e];
    assert IsSample(log2[j], id, o) && QuietBetween(s, log2, id, o.metrics, j, |log2|);
  }

  lemma NewBaseline(s: Settings, log: seq<Event>, e: Event, id: int, o: Observation)
    requires IsSample(e, id, o)
    ensures ObservationOk(s, log + [e], id, o)
  {
    var log2 := log + [e];
    assert IsSample(log2[|log|], id, o) && QuietBetween(s, log2, id, o.metrics, |log|, |log2|);
  }

  lemma ReadyStands(log: seq<Event>, e: Event, id: int, r: ReadyObservation)
    requires ReadyBehind(log, id, r, |log|)
    requires e.id == id ==> !e.Alarms() && !e.Sample? && !e.Confirmed?
    ensures ReadyBehind(log + [e], id, r, |log| + 1)
  {
    var j :| 0 <= j < |log| && IsReadySample(log[j], id, r) && Untouched(log, id, j, |log|);
    var log2 := log + [e];
    assert IsReadySample(log2[j], id, r) && Untouched(log2, id, j, |log2|);
  }

  lemma ReadyRecorded(log: seq<Event>, e: Event, id: int, r: ReadyObservation)
    requires IsReadySample(e, id, r)
    ensures ReadyBehind(log + [e], id, r, |log| + 1)
  {
    var log2 := log + [e];
    assert IsReadySample(log2[|log|], id, r) && Untouched(log2, id, |log|, |log2|);
  }

  lemma CallStands(s: Settings, log: seq<Event>, e: Event, c: Call)
    requires CallOk(s, log, c)
    ensures CallOk(s, log + [e], c)
  {
    if c.Confirming? {
      var j :| 0 <= j < c.begun && IsReadySample(log[j], c.id, c.target) && Untouched(log, c.id, j, c.begun);
      var log2 := log + [e];
      assert IsReadySample(log2[j], c.id, c.target) && Untouched(log2, c.id, j, c.begun);
    }
  }

  /** The ready answer of an assessment is backed by the baseline in memory. */
  lemma ReadyAnswerJustified(s: Settings, w: World, x: Call, metrics: Metrics)
    requires Inv(s, w) && x.Assessing? && WindowPassed(s, w.memory, x.id, x.now, metrics)
    ensures ReadyJustified(s, w.log + [Sample(x.id, x.now, metrics, x.item, x.stamp, x.leases, true)], |w.log|)
  {
    var e := Sample(x.id, x.now, metrics, x.item, x.stamp, x.leases, true);
    var o := w.memory.observations[x.id];
    assert ObservationOk(s, w.log, x.id, o);
    var j :| 0 <= j < |w.log| && IsSample(w.log[j], x.id, o) && QuietBetween(s, w.log, x.id, o.metrics, j, |w.log|);
    var log2 := w.log + [e];
    assert log2[j] == w.log[j] && log2[|w.log|] == e;
    assert BaselineFor(s, log2, j, |w.log|);
  }

  lemma ConfirmAnswerJustified(s: Settings, w: World, x: Call, metrics: Metrics)
    requires Inv(s, w) && CallOk(s, w.log, x) && x.Confirming? && x.looked.Some?
    requires SameCounters(x.target.metrics, metrics) && LowCpu(s, metrics)
    ensures ConfirmJustified(s, w.log + [Confirmed(x.id, x.now, metrics, x.item, x.stamp, x.looked.value, x.begun,
                                                   true)], |w.log|)
  {
    var e := Confirmed(x.id, x.now, metrics, x.item, x.stamp, x.looked.value, x.begun, true);
    var j :| 0 <= j < x.begun && IsReadySample(w.log[j], x.id, x.target) && Untouched(w.log, x.id, j, x.begun);
    var log2 := w.log + [e];
    assert log2[j] == w.log[j] && log2[|w.log|] == e && AssessedFor(s, log2, j, |w.log|);
  }

  /** Every answer in the log is justified and every event says what its stretch had looked at. */
  ghost predicate LogOk(s: Settings, log: seq<Event>) {
    && (forall k :: 0 <= k < |log| ==> EventOk(s, log[k]))
    && (forall k :: 0 <= k < |log| && log[k].Sample? && log[k].ready ==> ReadyJustified(s, log, k))
    && (forall k :: 0 <= k < |log| && log[k].Confirmed? && log[k].ready ==> ConfirmJustified(s, log, k))
  }

  lemma LogCarried(s: Settings, log: seq<Event>, e: Event)
    requires LogOk(s, log) && EventOk(s, e)
    requires e.Sample? && e.ready ==> ReadyJustified(s, log + [e], |log|)
    requires e.Confirmed? && e.ready ==> ConfirmJustified(s, log + [e], |log|)
    ensures LogOk(s, log + [e])
  {
    var log2 := log + [e];
    forall k | 0 <= k < |log2|
      ensures EventOk(s, log2[k])
      ensures log2[k].Sample? && log2[k].ready ==> ReadyJustified(s, log2, k)
      ensures log2[k].Confirmed? && log2[k].ready ==> ConfirmJustified(s, log2, k)
    {
      if k < |log| {
        assert log2[k] == log[k];
        JustifiedLater(s, log, e, k);
      }
    }
  }

  /** Everything already recorded survives one more event; what the event itself claims must be shown by the caller. */
  lemma Appended(s: Settings, w: World, w2: World, e: Event)
    requires Inv(s, w) && w2.log == w.log + [e]
    requires forall id :: id in w2.memory.observations ==> ObservationOk(s, w2.log, id, w2.memory.observations[id])
    requires forall id :: id in w2.memory.ready ==> ReadyBehind(w2.log, id, w2.memory.ready[id], |w2.log|)
    requires forall c :: c in w2.calls && !(c in w.calls && w2.calls[c] == w.calls[c]) ==>
               CallOk(s, w2.log, w2.calls[c])
    requires EventOk(s, e) && (e.Sample? && e.ready ==> ReadyJustified(s, w2.log, |w.log|))
    requires e.Confirmed? && e.ready ==> ConfirmJustified(s, w2.log, |w.log|)
    ensures Inv(s, w2)
  {
    LogCarried(s, w.log, e);
    forall c | c in w2.calls
      ensures CallOk(s, w2.log, w2.calls[c])
    {
      if c in w.calls && w2.calls[c] == w.calls[c] { CallStands(s, w.log, e, w.calls[c]); }
    }
  }

  /** A stretch that clears the instance, or leaves both maps alone with a harmless event. */
  lemma MemoryCarried(s: Settings, w: World, w2: World, e: Event)
    requires Inv(s, w) && w2.log == w.log + [e]
    requires w2.memory == Clear(w.memory, e.id) ||
             (w2.memory == w.memory && !e.Alarms() && !e.Sample? && !e.Confirmed?)
    ensures forall id :: id in w2.memory.observations ==> ObservationOk(s, w2.log, id, w2.memory.observations[id])
    ensures forall id :: id in w2.memory.ready ==> ReadyBehind(w2.log, id, w2.memory.ready[id], |w2.log|)
  {
    forall id | id in w2.memory.observations
      ensures ObservationOk(s, w2.log, id, w2.memory.observations[id])
    {
      BaselineStands(s, w.log, e, id, w.memory.observations[id]);
    }
    forall id | id in w2.memory.ready
      ensures ReadyBehind(w2.log, id, w2.memory.ready[id], |w2.log|)
    {
      ReadyStands(w.log, e, id, w.memory.ready[id]);
    }
  }

  lemma AssessMetricsKeepsInv(s: Settings, w: World, c: int, result: MetricsResult)
    requires Inv(s, w) && Enabled(w, AssessMetrics(c, result))
    ensures Inv(s, Apply(s, w, AssessMetrics(c, result)))
  {
    var w2 := Apply(s, w, AssessMetrics(c, result));
    var e := w2.log[|w.log|];
    var x := w.calls[c];
    assert CallOk(s, w.log, x);
    if result.Supported? {
      forall id | id in w2.memory.observations
        ensures ObservationOk(s, w2.log, id, w2.memory.observations[id])
      {
        if id in w.memory.observations && w2.memory.observations[id] == w.memory.observations[id] &&
           (id != x.id || (Unchanged(w.memory, id, result.metrics) && BothLow(s, w.memory, id, result.metrics))) {
          BaselineStands(s, w.log, e, id, w.memory.observations[id]);
        } else {
          NewBaseline(s, w.log, e, id, w2.memory.observations[id]);
        }
      }
      forall id | id in w2.memory.ready
        ensures ReadyBehind(w2.log, id, w2.memory.ready[id], |w2.log|)
      {
        if id == x.id { ReadyRecorded(w.log, e, id, w2.memory.ready[id]); }
        else { ReadyStands(w.log, e, id, w.memory.ready[id]); }
      }
      if e.ready { ReadyAnswerJustified(s, w, x, result.metrics); }
    } else {
      MemoryCarried(s, w, w2, e);
    }
    Appended(s, w, w2, e);
  }

  lemma ConfirmMetricsKeepsInv(s: Settings, w: World, c: int, result: MetricsResult)
    requires Inv(s, w) && Enabled(w, ConfirmMetrics(c, result))
    ensures Inv(s, Apply(s, w, ConfirmMetrics(c, result)))
  {
    var w2 := Apply(s, w, ConfirmMetrics(c, result));
    var e := w2.log[|w.log|];
    var x := w.calls[c];
    assert CallOk(s, w.log, x);
    if result.Supported? && !e.ready {
      forall id | id in w2.memory.observations
        ensures ObservationOk(s, w2.log, id, w2.memory.observations[id])
      {
        if id == x.id { NewBaseline(s, w.log, e, id, w2.memory.observations[id]); }
        else { BaselineStands(s, w.log, e, id, w.memory.observations[id]); }
      }
      forall id | id in w2.memory.ready
        ensures ReadyBehind(w2.log, id, w2.memory.ready[id], |w2.log|)
      {
        ReadyStands(w.log, e, id, w.memory.ready[id]);
      }
    } else {
      MemoryCarried(s, w, w2, e);
    }
    if e.Confirmed? && e.ready { ConfirmAnswerJustified(s, w, x, result.metrics); }
    Appended(s, w, w2, e);
  }

  lemma StepKeepsInv(s: Settings, w: World, st: Step)
    requires Inv(s, w) && Enabled(w, st)
    ensures Inv(s, Apply(s, w, st))
  {
    match st
    case AssessMetrics(c, result) => AssessMetricsKeepsInv(s, w, c, result);
    case ConfirmMetrics(c, result) => ConfirmMetricsKeepsInv(s, w, c, result);
    case AssessLeases(_, _, now, _, _, leases) =>
      var w2 := Apply(s, w, st);
      SilentMeans(s, now, leases);
      MemoryCarried(s, w, w2, w2.log[|w.log|]);
      Appended(s, w, w2, w2.log[|w.log|]);
    case ConfirmBegins(c, id, now, item, stamp) => ConfirmBeginsKeepsInv(s, w, st);
    case ConfirmLeases(c, leases) =>
      var w2 := Apply(s, w, st);
      var e := w2.log[|w.log|];
      SilentMeans(s, w.calls[c].now, leases);
      MemoryCarried(s, w, w2, e);
      assert CallOk(s, w.log, w.calls[c]);
      CallStands(s, w.log, e, w.calls[c]);
      Appended(s, w, w2, e);
  }

  lemma ConfirmBeginsKeepsInv(s: Settings, w: World, st: Step)
    requires Inv(s, w) && Enabled(w, st) && st.ConfirmBegins?
    ensures Inv(s, Apply(s, w, st))
  {
    var w2 := Apply(s, w, st);
    var e := w2.log[|w.log|];
    MemoryCarried(s, w, w2, e);
    var target := ConfirmTarget(w.memory, st.id, st.item);
    if target.Some? {
      TargetStands(w.log, e, st.id, target.value);
      assert CallOk(s, w2.log, w2.calls[st.call]);
    }
    Appended(s, w, w2, e);
  }

  /** What was ready when a confirmation began still was ready then. */
  lemma TargetStands(log: seq<Event>, e: Event, id: int, r: ReadyObservation)
    requires ReadyBehind(log, id, r, |log|)
    ensures ReadyBehind(log + [e], id, r, |log|)
  {
    var j :| 0 <= j < |log| && IsReadySample(log[j], id, r) && Untouched(log, id, j, |log|);
    var log2 := log + [e];
    assert IsReadySample(log2[j], id, r) && Untouched(log2, id, j, |log|);
  }

  lemma {:induction false} PlayKeepsInv(s: Settings, w: World, steps: seq<Step>)
    requires Inv(s, w) && Play(s, w, steps).Some?
    ensures Inv(s, Play(s, w, steps).value)
    decreases |steps|
  {
    if steps != [] {
      StepKeepsInv(s, w, steps[0]);
      PlayKeepsInv(s, Apply(s, w, steps[0]), steps[1..]);
    }
  }

  // ----- theorems -----

  /**
   * However calls overlap, an assessment answers ready only with a baseline sample at least one quiet window old; since
   * then every sample of the instance had the same network counters and a CPU within the limit.  The assessment itself
   * and every look at the instance since then saw no open HTTP lease and no websocket active within the window, and
   * every assessment, this one included, a persisted timestamp at least one window old.
   */
  lemma ReadyMeansQuietWindow(s: Settings, steps: seq<Step>, k: nat)
    requires Play(s, EMPTY, steps).Some?
    requires var log := Play(s, EMPTY, steps).value.log; k < |log| && log[k].Sample? && log[k].ready
    ensures var log := Play(s, EMPTY, steps).value.log;
            exists j :: 0 <= j < k && log[j].id == log[k].id && (log[j].Sample? || log[j].Confirmed?)
              && log[k].now - log[j].now >= s.quietWindow && log[j].metrics.cpu <= s.busyCpu
              && (forall i :: j < i <= k && log[i].id == log[k].id ==>
                    && !log[i].Busy? && !log[i].Confirmed?
                    && (log[i].Sample? ==>
                          && log[i].metrics.rx == log[j].metrics.rx && log[i].metrics.tx == log[j].metrics.tx
                          && log[i].metrics.cpu <= s.busyCpu)
                    && (log[i].Looked? || log[i].Sample? ==>
                          && (forall l :: l in log[i].leases ==>
                                l.kind.Websocket? && l.lastActivityAt <= log[i].now - s.quietWindow)
                          && log[i].stamp.time.Some?)
                    && ((log[i].Looked? && log[i].assessing) || log[i].Sample? ==>
                          log[i].stamp.time.value <= log[i].now - s.quietWindow))
  {
    PlayKeepsInv(s, EMPTY, steps);
    var log := Play(s, EMPTY, steps).value.log;
    assert ReadyJustified(s, log, k);
    var j :| 0 <= j < k && BaselineFor(s, log, j, k);
    assert log[j].id == log[k].id;
    forall i | j < i <= k && log[i].id == log[k].id ensures EventOk(s, log[i]) && !log[i].Alarms() {}
  }

  /** The confirmation at k confirms the ready assessment at j, the last thing the instance saw before it began. */
  predicate RestsOn(log: seq<Event>, j: nat, k: nat)
    requires k < |log| && log[k].Confirmed?
  {
    && j < log[k].begun < k && log[log[k].begun] == Begun(log[k].id)
    && log[j].Sample? && log[j].ready && log[j].id == log[k].id
    && Untouched(log, log[k].id, j, log[k].begun)
  }

  lemma UntouchedSplits(log: seq<Event>, id: int, j: nat, m: nat, k: nat)
    requires j < m <= k <= |log| && (m < |log| ==> log[m].Begun?)
    ensures Untouched(log, id, j, k) <==> Untouched(log, id, j, m) && Untouched(log, id, m, k)
  {
  }

  /**
   * A ready confirmation saw no open HTTP lease, no active websocket and the timestamp and network counters of the
   * ready assessment it rests on, one of the same rollout and attempt that nothing spoke against before the
   * confirmation began; nothing has spoken against it by the time of the answer exactly if nothing did while the
   * confirmation ran.
   */
  lemma ConfirmationRestsOnAssessment(s: Settings, steps: seq<Step>, k: nat) returns (j: nat)
    requires Play(s, EMPTY, steps).Some?
    requires var log := Play(s, EMPTY, steps).value.log; k < |log| && log[k].Confirmed? && log[k].ready
    ensures var log := Play(s, EMPTY, steps).value.log;
            && RestsOn(log, j, k)
            && log[j].item == log[k].item && log[j].stamp.text == log[k].stamp.text && log[k].stamp.time.Some?
            && log[j].metrics.rx == log[k].metrics.rx && log[j].metrics.tx == log[k].metrics.tx
            && log[k].metrics.cpu <= s.busyCpu
            && (forall l :: l in log[k].leases ==>
                  l.kind.Websocket? && l.lastActivityAt <= log[k].now - s.quietWindow)
            && (Untouched(log, log[k].id, j, k) <==> Untouched(log, log[k].id, log[k].begun, k))
  {
    PlayKeepsInv(s, EMPTY, steps);
    var log := Play(s, EMPTY, steps).value.log;
    assert ConfirmJustified(s, log, k) && EventOk(s, log[k]);
    j :| 0 <= j < log[k].begun && AssessedFor(s, log, j, k);
    UntouchedSplits(log, log[k].id, j, log[k].begun, k);
  }

  /**
   * Two ready confirmations of an instance share a ready assessment if and only if nothing touched the instance's
   * ready observation between their beginnings.
   */
  lemma SharedExactlyIfUntouchedBetween(s: Settings, steps: seq<Step>, k1: nat, k2: nat)
    requires Play(s, EMPTY, steps).Some?
    requires var log := Play(s, EMPTY, steps).value.log;
             && k1 < |log| && k2 < |log| && log[k1].Confirmed? && log[k1].ready && log[k2].Confirmed? && log[k2].ready
             && log[k1].id == log[k2].id && log[k1].begun <= log[k2].begun
    ensures var log := Play(s, EMPTY, steps).value.log;
            && log[k2].begun < k2
            && ((exists j :: RestsOn(log, j, k1) && RestsOn(log, j, k2))
                <==> Untouched(log, log[k1].id, log[k1].begun, log[k2].begun))
  {
    var log := Play(s, EMPTY, steps).value.log;
    var j1 := ConfirmationRestsOnAssessment(s, steps, k1);
    var j2 := ConfirmationRestsOnAssessment(s, steps, k2);
    UntouchedSplits(log, log[k1].id, j1, log[k1].begun, log[k2].begun);
    if Untouched(log, log[k1].id, log[k1].begun, log[k2].begun) {
      assert RestsOn(log, j1, k2);
    }
  }

  /**
   * A ready observation confirms at most once as long as confirmations do not overlap: a confirmation that begins after
   * another was answered ready rests on a new ready assessment, made since that answer.
   */
  lemma ConfirmsAtMostOnce(s: Settings, steps: seq<Step>, k1: nat, k2: nat)
    requires Play(s, EMPTY, steps).Some?
    requires var log := Play(s, EMPTY, steps).value.log;
             && k1 < |log| && k2 < |log| && log[k1].Confirmed? && log[k1].ready && log[k2].Confirmed? && log[k2].ready
             && log[k1].id == log[k2].id && k1 < log[k2].begun
    ensures var log := Play(s, EMPTY, steps).value.log;
            && (exists j :: k1 < j < log[k2].begun && RestsOn(log, j, k2) && log[j].item == log[k2].item)
            && !exists j :: RestsOn(log, j, k1) && RestsOn(log, j, k2)
  {
    var j := ConfirmationRestsOnAssessment(s, steps, k2);
    var first := ConfirmationRestsOnAssessment(s, steps, k1);
    SharedExactlyIfUntouchedBetween(s, steps, k1, k2);
  }

  // ----- what overlapping calls can do -----

  const STILL := Supported(Metrics(5, 5, 0.0))
  const LONG_AGO := Stamp(1, Some(-1000))
  const FIRST := Item(1, Some(1))
  const MINUTE := Settings(60, 5.0)

  const LOOK := Looked(1, 61, LONG_AGO, [], false, true)

  /** Two samples one window apart: the second one is ready. */
  function ReadyWorld(): (w: World)
    ensures |w.log| == 4 && w.log[3] == Sample(1, 60, STILL.metrics, FIRST, LONG_AGO, [], true)
    ensures w.calls == map[] && w.memory.ready == map[1 := ReadyObservation(60, STILL.metrics, FIRST, LONG_AGO)]
  {
    var w1 := Apply(MINUTE, EMPTY, AssessLeases(1, 1, 0, FIRST, LONG_AGO, []));
    var w2 := Apply(MINUTE, w1, AssessMetrics(1, STILL));
    var w3 := Apply(MINUTE, w2, AssessLeases(1, 1, 60, FIRST, LONG_AGO, []));
    Apply(MINUTE, w3, AssessMetrics(1, STILL))
  }

  /** Two confirmations begin one after the other on it ... */
  function BothBegun(): (w: World)
    ensures |w.log| == 6 && w.log[..4] == ReadyWorld().log && w.log[4..] == [Begun(1), Begun(1)]
    ensures var target := ReadyObservation(60, STILL.metrics, FIRST, LONG_AGO);
            && w.calls == map[1 := Confirming(1, 61, FIRST, LONG_AGO, target, 4, None),
                              2 := Confirming(1, 61, FIRST, LONG_AGO, target, 5, None)]
  {
    var w5 := Apply(MINUTE, ReadyWorld(), ConfirmBegins(1, 1, 61, FIRST, LONG_AGO));
    Apply(MINUTE, w5, ConfirmBegins(2, 1, 61, FIRST, LONG_AGO))
  }

  /** ... and find no lease. */
  function BothSampling(): (w: World)
    ensures |w.log| == 8 && w.log[..4] == ReadyWorld().log && w.log[4..] == [Begun(1), Begun(1), LOOK, LOOK]
    ensures var target := ReadyObservation(60, STILL.metrics, FIRST, LONG_AGO);
            && w.calls == map[1 := Confirming(1, 61, FIRST, LONG_AGO, target, 4, Some([])),
                              2 := Confirming(1, 61, FIRST, LONG_AGO, target, 5, Some([]))]
  {
    var w6 := BothBegun();
    assert w6.log == w6.log[..4] + w6.log[4..];
    var w7 := Apply(MINUTE, w6, ConfirmLeases(1, []));
    Apply(MINUTE, w7, ConfirmLeases(2, []))
  }

  /** Two overlapping confirmations of one instance take the same ready observation. */
  function OverlappingConfirmations(): (w: World)
    ensures |w.log| == 10 && w.log[..8] == BothSampling().log
    ensures w.log[8] == Confirmed(1, 61, STILL.metrics, FIRST, LONG_AGO, [], 4, true)
    ensures w.log[9] == Confirmed(1, 61, STILL.metrics, FIRST, LONG_AGO, [], 5, true)
    ensures RestsOn(w.log, 3, 8) && RestsOn(w.log, 3, 9)
  {
    var w8 := BothSampling();
    assert w8.log[3] == ReadyWorld().log[3] && w8.log[4] == w8.log[4..][0] && w8.log[5] == w8.log[4..][1];
    Apply(MINUTE, Apply(MINUTE, w8, ConfirmMetrics(1, STILL)), ConfirmMetrics(2, STILL))
  }

  /**
   * An assessment that sees an open HTTP lease while a confirmation runs does not stop that one from answering ready.
   */
  function ContradictedConfirmation(): (w: World)
    ensures |w.log| == 8 && w.log[..4] == ReadyWorld().log
    ensures w.log[4] == Begun(1) && w.log[5] == Looked(1, 61, LONG_AGO, [Lease(Http, 61)], true, false)
    ensures w.log[7] == Confirmed(1, 61, STILL.metrics, FIRST, LONG_AGO, [], 4, true)
    ensures RestsOn(w.log, 3, 7) && !Untouched(w.log, 1, 3, 7)
  {
    var w5 := Apply(MINUTE, ReadyWorld(), ConfirmBegins(2, 1, 61, FIRST, LONG_AGO));
    var w6 := Apply(MINUTE, w5, AssessLeases(1, 1, 61, FIRST, LONG_AGO, [Lease(Http, 61)]));
    assert AnyHttp([Lease(Http, 61)]) by { assert [Lease(Http, 61)][0].kind.Http?; }
    var w7 := Apply(MINUTE, w6, ConfirmLeases(2, []));
    Apply(MINUTE, w7, ConfirmMetrics(2, STILL))
  }
}
