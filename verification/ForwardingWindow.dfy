/** Why nobody may write another policy between an update's write and its own revision read: the demand is exact. */
module ForwardingWindow {
  import opened Common
  import opened ForwardingCache
  import opened ForwardingRuns

  lemma {:induction false} PlayConcat(w: World, a: seq<Timed>, b: seq<Timed>)
    requires Play(w, a).Some?
    ensures Play(w, a + b) == Play(Play(w, a).value, b)
    decreases |a|
  {
    if a == [] {
      assert a + b == b;
    } else {
      assert (a + b)[1..] == a[1..] + b;
      PlayConcat(Apply(w, a[0]), a[1..], b);
    }
  }

  predicate NoWrites(steps: seq<Timed>) {
    forall ts :: ts in steps ==> !Writes(ts.step)
  }

  lemma PlayOne(w: World, ts: Timed)
    requires Possible(w, ts) && !Writes(ts.step)
    ensures Play(w, [ts]) == Some(Apply(w, ts))
  {
    assert [ts][1..] == [];
  }

  /** A step that writes nothing only lets time pass. */
  lemma OnlyTimePasses(w: World, ts: Timed, w2: World)
    requires Possible(w, ts) && !Writes(ts.step) && w2 == Apply(w, ts)
    ensures w2.history == w.history + [Now(w).(time := ts.time)] && w2.settings == w.settings
  {
    assert Durable(w, ts) == Now(w).(time := ts.time);
  }

  /** From the moment `at` on the policy is no longer durable, and all earlier moments lie at or before `time`. */
  predicate Lost(w: World, policy: Policy, at: nat, time: int) {
    && at < |w.history|
    && (forall m :: 0 <= m < at ==> w.history[m].time <= time)
    && (forall m :: at <= m < |w.history| ==> ViewOf(w, m) != policy)
  }

  lemma LostStays(w: World, ts: Timed, w2: World, policy: Policy, at: nat, time: int)
    requires Lost(w, policy, at, time) && Possible(w, ts) && !Writes(ts.step) && w2 == Apply(w, ts)
    ensures Lost(w2, policy, at, time) && Now(w2) == Now(w).(time := ts.time) && w2.settings == w.settings
    ensures |w2.history| == |w.history| + 1
  {
    OnlyTimePasses(w, ts, w2);
    assert ViewOf(w2, |w.history|) == ViewOf(w, |w.history| - 1);
    forall m | at <= m < |w.history| ensures ViewOf(w2, m) == ViewOf(w, m) {}
  }

  /** The write of another policy ends the moments of the update's own. */
  lemma WriteLoses(w: World, ts: Timed, policy: Policy)
    requires HistoryOk(w.history) && Possible(w, ts) && Writes(ts.step) && Written(ts.step) != policy
    ensures Lost(Apply(w, ts), policy, |w.history|, ts.time)
    ensures Now(Apply(w, ts)).time == ts.time && Now(Apply(w, ts)).revision.Some?
  {
    assert Apply(w, ts).history == w.history + [Durable(w, ts)];
    forall m | 0 <= m < |w.history| ensures w.history[m].time <= ts.time {
      assert w.history[m].time <= Now(w).time;
    }
  }

  lemma LostIsStale(w: World, a: Answered, at: nat, time: int)
    requires Lost(w, a.policy, at, time) && at <= a.started && time <= a.now - w.settings.ttl
    ensures !FreshEnough(w, a)
  {
    forall m | 0 <= m < |w.history| && w.history[m].policy.GetOr(w.settings.default) == a.policy
      ensures m < a.started && w.history[m].time <= a.now - w.settings.ttl
    {
      assert ViewOf(w, m) == a.policy;
    }
  }

  predicate Unknown(w: World, g: int) { g !in w.gets && g !in w.answers }

  /** The cached policy is too old to be answered at once. */
  predicate Aged(w: World, now: int) {
    w.cache.current.Some? && w.cache.loadedAt.Some? ==> now - w.cache.loadedAt.value >= w.settings.ttl
  }

  /** A `get` that begins late and has read the revision, with nothing else moving. */
  predicate HasBegun(w: World, w2: World, g: int, now: int) {
    && w.history != [] && w2.history != [] && g in w2.gets
    && w2.cache == w.cache && w2.updates == w.updates && w2.settings == w.settings
    && w2.gets[g].started == |w.history| && w2.gets[g].get.now == now
    && w2.gets[g].get.generation == w.cache.generation && w2.gets[g].get.phase.HaveBefore?
    && w2.gets[g].get.before == Visible(w) && Now(w2) == Now(w).(time := now)
  }

  lemma BeginsLate(w: World, g: int, now: int, policy: Policy, at: nat, time: int)
    returns (steps: seq<Timed>, w2: World)
    requires Lost(w, policy, at, time) && Now(w).time <= now && Unknown(w, g) && Aged(w, now)
    ensures Play(w, steps) == Some(w2) && HasBegun(w, w2, g, now) && Lost(w2, policy, at, time)
    ensures NoWrites(steps)
  {
    var begin := Timed(now, GetBegin(g));
    var w1 := Apply(w, begin);
    LostStays(w, begin, w1, policy, at, time);
    PlayOne(w, begin);
    if w.settings.hasRevisions {
      var read := Timed(now, GetReadsBefore(g));
      w2 := Apply(w1, read);
      LostStays(w1, read, w2, policy, at, time);
      PlayOne(w1, read);
      PlayConcat(w, [begin], [read]);
      steps := [begin] + [read];
    } else {
      steps, w2 := [begin], w1;
    }
  }

  /** An update that publishes only now makes a `get` from before it answer the lost policy. */
  lemma PublishedLate(w: World, u: int, g: int, now: int, at: nat, time: int)
    returns (steps: seq<Timed>, w2: World)
    requires u in w.updates && w.updates[u].phase.Wrote? && time <= now - w.settings.ttl
    requires Lost(w, w.updates[u].policy, at, time) && Now(w).time <= now && Unknown(w, g) && Aged(w, now)
    ensures Play(w, steps) == Some(w2) && g in w2.answers && !FreshEnough(w2, w2.answers[g]) && NoWrites(steps)
  {
    var policy := w.updates[u].policy;
    var begun, w1 := BeginsLate(w, g, now, policy, at, time);
    var publish, answer := Timed(now, UpdatePublishes(u)), Timed(now, GetAfterBefore(g));
    var w3 := Apply(w1, publish);
    LostStays(w1, publish, w3, policy, at, time);
    PlayOne(w1, publish);
    assert w3.gets == w1.gets && w3.cache.current == Some(policy) && Superseded(w3.cache, w3.gets[g].get);
    w2 := Apply(w3, answer);
    LostStays(w3, answer, w2, policy, at, time);
    PlayOne(w3, answer);
    PlayConcat(w1, [publish], [answer]);
    PlayConcat(w, begun, [publish] + [answer]);
    steps := begun + ([publish] + [answer]);
    LostIsStale(w2, w2.answers[g], at, time);
  }

  /** An update that reads its revision only now pairs the lost policy with it, and a later `get` trusts the pair. */
  lemma ReadLate(w: World, u: int, g: int, now: int, at: nat, time: int) returns (steps: seq<Timed>, w2: World)
    requires u in w.updates && w.updates[u].phase.WantRevision? && time <= now - w.settings.ttl
    requires Lost(w, w.updates[u].policy, at, time) && Now(w).time <= now && Unknown(w, g) && Aged(w, now)
    requires w.settings.hasRevisions && Now(w).revision.Some? && w.cache.current == Some(w.updates[u].policy)
    ensures Play(w, steps) == Some(w2) && g in w2.answers && !FreshEnough(w2, w2.answers[g]) && NoWrites(steps)
  {
    var policy := w.updates[u].policy;
    var read, finish, answer :=
      Timed(now, UpdateReadsRevision(u)), Timed(now, UpdateFinishes(u)), Timed(now, GetAfterBefore(g));
    var w1 := Apply(w, read);
    LostStays(w, read, w1, policy, at, time);
    PlayOne(w, read);
    var w3 := Apply(w1, finish);
    LostStays(w1, finish, w3, policy, at, time);
    PlayOne(w1, finish);
    PlayConcat(w, [read], [finish]);
    assert w3.cache == w.cache.(revision := Now(w).revision);
    var begun, w4 := BeginsLate(w3, g, now, policy, at, time);
    PlayConcat(w, [read] + [finish], begun);
    w2 := Apply(w4, answer);
    LostStays(w4, answer, w2, policy, at, time);
    PlayOne(w4, answer);
    PlayConcat(w, [read] + [finish] + begun, [answer]);
    steps := [read] + [finish] + begun + [answer];
    LostIsStale(w2, w2.answers[g], at, time);
  }

  /** Between its publication and its revision read an update's policy is the cached one. */
  lemma WindowCachesItsPolicy(w: World, u: int)
    requires Inv(w) && u in w.updates && w.updates[u].phase.WantRevision?
    ensures w.settings.hasRevisions && w.cache.current == Some(w.updates[u].policy)
  {
    assert UpdateOk(w, w.updates[u]);
    assert w.history[w.currentAt].policy == Some(w.updates[u].policy);
  }

  lemma LateEnough(w: World, ts: Timed) returns (now: int)
    requires Inv(w) && Possible(w, ts) && Writes(ts.step)
    ensures ts.time <= now && ts.time <= now - w.settings.ttl && Aged(w, now)
  {
    now := ts.time + if w.settings.ttl > 0 then w.settings.ttl else 0;
    assert w.history[w.currentAt].time <= Now(w).time;
  }

  /**
   * The demand of AnswersAreFreshEnough is exact.  After any undisturbed run, a write of another policy than the one
   * some update has just written and not yet read the revision of can be followed by steps, none of them another write,
   * after which a `get` has answered a policy that was durable neither during the call nor within the time-to-live.
   */
  lemma DisturbingCanAnswerStale(settings: Settings, durable: Moment, before: seq<Timed>, ts: Timed)
    returns (after: seq<Timed>, g: int)
    requires Play(Initial(settings, durable), before).Some?
    requires var w := Play(Initial(settings, durable), before).value; Possible(w, ts) && !Undisturbed(w, ts.step)
    ensures NoWrites(after)
    ensures var w := Apply(Play(Initial(settings, durable), before).value, ts);
            Play(w, after).Some? && g in Play(w, after).value.answers &&
                !FreshEnough(Play(w, after).value, Play(w, after).value.answers[g])
  {
    PlayKeepsInv(Initial(settings, durable), before);
    var w := Play(Initial(settings, durable), before).value;
    var u :| u in w.updates && InWindow(w.updates[u]) && w.updates[u].policy != Written(ts.step);
    var w1 := Apply(w, ts);
    WriteLoses(w, ts, w.updates[u].policy);
    var now := LateEnough(w, ts);
    g := Beyond(w1.gets.Keys + w1.answers.Keys);
    assert Unknown(w1, g);
    var end;
    if w.updates[u].phase.Wrote? {
      after, end := PublishedLate(w1, u, g, now, |w.history|, ts.time);
    } else {
      WindowCachesItsPolicy(w, u);
      after, end := ReadLate(w1, u, g, now, |w.history|, ts.time);
    }
  }
}
