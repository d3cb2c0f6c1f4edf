/** That reading and changing the forwarding policy get on: what undisturbed calls answer and leave in the cache. */
module ForwardingProgress {
  import opened Common
  import opened ForwardingCache
  import opened ForwardingRuns
  import opened ForwardingWindow

  /** The time and the log of what was durable go on; nothing else but the call `g` and the cache may differ. */
  predicate OnlyWaited(w: World, w2: World, now: int) {
    && w.history != [] && w2.history != [] && Now(w2) == Now(w).(time := now)
    && w2.settings == w.settings && w2.updates == w.updates
  }

  /** A step of the call `g` at the present time. */
  lemma Goes(w: World, ts: Timed, w2: World)
    requires Possible(w, ts) && !Writes(ts.step) && w2 == Apply(w, ts)
    ensures Play(w, [ts]) == Some(w2) && w2.history != [] && Now(w2) == Now(w).(time := ts.time)
    ensures w2.settings == w.settings
  {
    PlayOne(w, ts);
    OnlyTimePasses(w, ts, w2);
  }

  /** The rest of a `get` that has to read the policy itself. */
  lemma ReadsPolicy(w: World, g: int, now: int) returns (steps: seq<Timed>, w2: World)
    requires w.history != [] && Now(w).time <= now && In(w, g) && g !in w.answers
    requires w.gets[g].get.phase.WantList? && !Superseded(w.cache, w.gets[g].get)
    requires w.gets[g].get.before == Visible(w)
    ensures Play(w, steps) == Some(w2) && NoWrites(steps) && OnlyWaited(w, w2, now) && g in w2.answers
    ensures w2.answers[g].policy == Now(w).policy.GetOr(w.settings.default)
    ensures w2.cache == Cache(Some(w2.answers[g].policy), Some(w.gets[g].get.now), Visible(w), w.cache.generation)
  {
    var list, listed := Timed(now, GetReadsList(g)), Timed(now, GetAfterList(g));
    var w3 := Apply(w, list);
    Goes(w, list, w3);
    var w4 := Apply(w3, listed);
    Goes(w3, listed, w4);
    PlayConcat(w, [list], [listed]);
    var answer := Timed(now, GetAfterAfter(g));
    if w.settings.hasRevisions {
      var after := Timed(now, GetReadsAfter(g));
      var w5 := Apply(w4, after);
      Goes(w4, after, w5);
      w2 := Apply(w5, answer);
      Goes(w5, answer, w2);
      PlayConcat(w4, [after], [answer]);
      PlayConcat(w, [list] + [listed], [after] + [answer]);
      steps := [list] + [listed] + ([after] + [answer]);
    } else {
      w2 := Apply(w4, answer);
      Goes(w4, answer, w2);
      PlayConcat(w, [list] + [listed], [answer]);
      steps := [list] + [listed] + [answer];
    }
  }

  /** The cached policy may be answered without a read of the policy: it is young, or its revision is still current. */
  predicate Reusable(w: World, now: int)
    requires w.history != []
  {
    w.cache.current.Some? &&
      (|| (w.cache.loadedAt.Some? && now - w.cache.loadedAt.value < w.settings.ttl)
       || (w.settings.hasRevisions && Now(w).revision.Some? && w.cache.revision == Now(w).revision))
  }

  /**
   * An undisturbed `get` answers the cached policy if that is young enough or its revision is still the durable one;
   * else it answers the durable policy, or without one the default, and caches it.
   */
  lemma GetTakesEffect(w: World, g: int, now: int) returns (steps: seq<Timed>, w2: World)
    requires w.history != [] && Now(w).time <= now && Unknown(w, g)
    ensures Play(w, steps) == Some(w2) && NoWrites(steps) && OnlyWaited(w, w2, now) && g in w2.answers
    ensures w2.answers[g].policy == if Reusable(w, now) then w.cache.current.value
                                    else Now(w).policy.GetOr(w.settings.default)
    ensures w2.cache.current == Some(w2.answers[g].policy) && w2.cache.generation == w.cache.generation
    ensures !Reusable(w, now) ==> w2.cache.loadedAt == Some(now) && w2.cache.revision == Visible(w)
  {
    var begin, answer := Timed(now, GetBegin(g)), Timed(now, GetAfterBefore(g));
    if BeginGet(w.settings, w.cache, now).Answer? {
      steps, w2 := [begin], Apply(w, begin);
      Goes(w, begin, w2);
    } else {
      var begun, w1 := BeginsGet(w, g, now);
      var w3 := Apply(w1, answer);
      Goes(w1, answer, w3);
      PlayConcat(w, begun, [answer]);
      if g in w3.answers {
        steps, w2 := begun + [answer], w3;
      } else {
        var rest;
        rest, w2 := ReadsPolicy(w3, g, now);
        PlayConcat(w, begun + [answer], rest);
        steps := begun + [answer] + rest;
      }
    }
  }

  /** A `get` that is not answered at once begins and reads the revision. */
  lemma BeginsGet(w: World, g: int, now: int) returns (steps: seq<Timed>, w2: World)
    requires w.history != [] && Now(w).time <= now && Unknown(w, g)
    requires BeginGet(w.settings, w.cache, now).Continue?
    ensures Play(w, steps) == Some(w2) && NoWrites(steps) && HasBegun(w, w2, g, now) && w2.answers == w.answers
  {
    var begin := Timed(now, GetBegin(g));
    var w1 := Apply(w, begin);
    Goes(w, begin, w1);
    if w.settings.hasRevisions {
      var read := Timed(now, GetReadsBefore(g));
      w2 := Apply(w1, read);
      Goes(w1, read, w2);
      PlayConcat(w, [begin], [read]);
      steps := [begin] + [read];
    } else {
      steps, w2 := [begin], w1;
    }
  }

  /** The steps of an update that nobody disturbs. */
  function UpdateSteps(w: World, u: int, p: Policy, now: int): seq<Timed> {
    [Timed(now, UpdateWrites(u, p))] + ([Timed(now, UpdatePublishes(u))]
      + if w.settings.hasRevisions then [Timed(now, UpdateReadsRevision(u))] + [Timed(now, UpdateFinishes(u))] else [])
  }

  /** An update writes its policy under the next revision and publishes it to the cache. */
  lemma UpdatePublished(w: World, u: int, p: Policy, now: int) returns (w2: World)
    requires w.history != [] && Now(w).time <= now && u !in w.updates
    requires forall k :: k in w.updates ==> !InWindow(w.updates[k])
    ensures Play(w, [Timed(now, UpdateWrites(u, p))] + [Timed(now, UpdatePublishes(u))]) == Some(w2)
    ensures w2.history != [] && Now(w2) == Moment(now, Some(p), Some(Now(w).revision.GetOr(0) + 1))
    ensures w2.settings == w.settings && w2.gets == w.gets && w2.answers == w.answers
    ensures w2.cache == Cache(Some(p), Some(now), w2.cache.revision, w.cache.generation + 1)
    ensures if w.settings.hasRevisions
            then u in w2.updates && w2.updates[u].phase.WantRevision? && w2.updates - {u} == w.updates
            else w2.updates == w.updates && w2.cache.revision.None?
  {
    var write, publish := Timed(now, UpdateWrites(u, p)), Timed(now, UpdatePublishes(u));
    var w1 := Apply(w, write);
    assert Play(w, [write]) == Some(w1) by { assert [write][1..] == []; }
    assert Now(w1) == Durable(w, write) && w1.updates - {u} == w.updates;
    w2 := Apply(w1, publish);
    Goes(w1, publish, w2);
    PlayConcat(w, [write], [publish]);
    assert w2.updates - {u} == w.updates;
  }

  /** It then reads the revision and caches it. */
  lemma UpdateFinished(w: World, u: int, now: int) returns (w2: World)
    requires w.history != [] && Now(w).time <= now
    requires u in w.updates && w.updates[u].phase.WantRevision? && w.settings.hasRevisions
    ensures Play(w, [Timed(now, UpdateReadsRevision(u))] + [Timed(now, UpdateFinishes(u))]) == Some(w2)
    ensures w2.history != [] && Now(w2) == Now(w).(time := now)
    ensures w2.settings == w.settings && w2.gets == w.gets && w2.answers == w.answers
    ensures w2.cache == w.cache.(revision := Now(w).revision) && w2.updates == w.updates - {u}
  {
    var read, finish := Timed(now, UpdateReadsRevision(u)), Timed(now, UpdateFinishes(u));
    var w1 := Apply(w, read);
    Goes(w, read, w1);
    w2 := Apply(w1, finish);
    Goes(w1, finish, w2);
    PlayConcat(w, [read], [finish]);
    assert w1.updates - {u} == w.updates - {u};
  }

  /** An undisturbed update makes its policy durable under the next revision and caches it with that revision. */
  lemma UpdateTakesEffect(w: World, u: int, p: Policy, now: int) returns (w2: World)
    requires w.history != [] && Now(w).time <= now && u !in w.updates
    requires forall k :: k in w.updates ==> !InWindow(w.updates[k])
    ensures Play(w, UpdateSteps(w, u, p, now)) == Some(w2) && w2.history != [] && w2.updates == w.updates
    ensures Now(w2) == Moment(now, Some(p), Some(Now(w).revision.GetOr(0) + 1)) && w2.settings == w.settings
    ensures w2.gets == w.gets && w2.answers == w.answers
    ensures w2.cache == Cache(Some(p), Some(now), if w.settings.hasRevisions then Now(w2).revision else None,
                              w.cache.generation + 1)
  {
    var write, publish := [Timed(now, UpdateWrites(u, p))], [Timed(now, UpdatePublishes(u))];
    var w1 := UpdatePublished(w, u, p, now);
    if w.settings.hasRevisions {
      w2 := UpdateFinished(w1, u, now);
      var rest := [Timed(now, UpdateReadsRevision(u))] + [Timed(now, UpdateFinishes(u))];
      PlayConcat(w, write + publish, rest);
      assert write + publish + rest == write + (publish + rest);
    } else {
      w2 := w1;
      assert write + publish == write + (publish + []);
    }
  }

  /** After an undisturbed update a `get` answers its policy, whether the cached one is still young or not. */
  lemma UpdateIsRead(w: World, u: int, p: Policy, g: int, now: int, later: int) returns (steps: seq<Timed>, w2: World)
    requires w.history != [] && Now(w).time <= now <= later && u !in w.updates && Unknown(w, g)
    requires forall k :: k in w.updates ==> !InWindow(w.updates[k])
    ensures Play(w, steps) == Some(w2) && g in w2.answers && w2.answers[g].policy == p
  {
    var w1 := UpdateTakesEffect(w, u, p, now);
    assert Unknown(w1, g);
    var get;
    get, w2 := GetTakesEffect(w1, g, later);
    PlayConcat(w, UpdateSteps(w, u, p, now), get);
    steps := UpdateSteps(w, u, p, now) + get;
  }

  /** After an invalidation a `get` reads the policy again, unless the cached one still has the durable revision. */
  lemma InvalidatedIsReadAgain(w: World, g: int, now: int) returns (steps: seq<Timed>, w2: World)
    requires w.history != [] && Now(w).time <= now && Unknown(w, g)
    requires !w.settings.hasRevisions || Now(w).revision.None? || w.cache.revision != Now(w).revision
    ensures Play(w, [Timed(now, Invalidates)] + steps) == Some(w2) && NoWrites(steps) && g in w2.answers
    ensures w2.answers[g].policy == Now(w).policy.GetOr(w.settings.default)
  {
    var w1 := Apply(w, Timed(now, Invalidates));
    Goes(w, Timed(now, Invalidates), w1);
    steps, w2 := GetTakesEffect(w1, g, now);
    PlayConcat(w, [Timed(now, Invalidates)], steps);
  }
}
