/** The rule of retention on the stored fields: exactly which versions a run retires and what is left of them. */
module RetentionRule {
  import opened Common
  import opened RetentionPolicy
  import opened RetentionSafety
  import opened Sorting

  // ----- the current version -----

  /** The first active version, or without any the first legacy one. */
  ghost predicate CurrentAt(vs: seq<Version>, c: nat) {
    && c < |vs|
    && (|| (vs[c].status.Active? && forall j :: 0 <= j < c ==> !vs[j].status.Active?)
        || (vs[c].status.Legacy? && (forall j :: 0 <= j < |vs| ==> !vs[j].status.Active?)
            && forall j :: 0 <= j < c ==> !vs[j].status.Legacy?))
  }

  lemma {:induction false} FirstWithIs(vs: seq<Version>, status: VersionStatus, c: nat)
    requires c < |vs| && vs[c].status == status && forall j :: 0 <= j < c ==> vs[j].status != status
    ensures FirstWith(vs, status) == Some(vs[c])
  {
    if c > 0 { FirstWithIs(vs[1..], status, c - 1); }
  }

  lemma {:induction false} FirstWithStands(vs: seq<Version>, status: VersionStatus) returns (c: nat)
    requires FirstWith(vs, status).Some?
    ensures c < |vs| && vs[c].status == status && FirstWith(vs, status) == Some(vs[c])
    ensures forall j :: 0 <= j < c ==> vs[j].status != status
  {
    if vs[0].status == status {
      c := 0;
    } else {
      var rest := FirstWithStands(vs[1..], status);
      c := rest + 1;
      forall j | 0 <= j < c ensures vs[j].status != status {
        if j > 0 { assert vs[j] == vs[1..][j - 1]; }
      }
    }
  }

  lemma CurrentMeans(vs: seq<Version>)
    ensures forall c: nat :: CurrentAt(vs, c) ==> Current(vs) == Some(vs[c])
    ensures Current(vs).Some? ==> exists c: nat :: CurrentAt(vs, c)
  {
    forall c: nat | CurrentAt(vs, c) ensures Current(vs) == Some(vs[c]) {
      FirstWithIs(vs, vs[c].status, c);
    }
    if Current(vs).Some? {
      var c := FirstWithStands(vs, if FirstWith(vs, Active).Some? then Active else Legacy);
      assert CurrentAt(vs, c);
    }
  }

  // ----- the retained versions -----

  /** A version one could roll back to while the one at `c` is current. */
  predicate Candidate(vs: seq<Version>, c: nat, i: nat) {
    && c < |vs| && i < |vs| && i != c
    && vs[i].status.ImageReady? && vs[i].imageReference.Some? && vs[i].revision != 0
  }

  /** The version at `j` goes before the one at `i`: a higher revision, or the same one listed earlier. */
  predicate GoesBefore(vs: seq<Version>, j: nat, i: nat)
    requires j < |vs| && i < |vs|
  {
    vs[j].revision > vs[i].revision || (vs[j].revision == vs[i].revision && j < i)
  }

  /** One of the `k` candidates that go before all others. */
  predicate AmongNewest(vs: seq<Version>, c: nat, k: nat, i: nat) {
    && Candidate(vs, c, i)
    && HowMany(|vs|, (j: nat) => Candidate(vs, c, j) && GoesBefore(vs, j, i)) < k
  }

  lemma {:induction false} SelectedOnce(vs: seq<Version>, p: Version -> bool, v: Version)
    requires UniqueIds(vs)
    ensures multiset(Select(vs, p))[v] <= 1
  {
    if vs != [] {
      SelectedOnce(vs[1..], p, v);
      SelectedIsSelected(vs[1..], p, v);
      assert v in Select(vs[1..], p) <==> v in multiset(Select(vs[1..], p));
      assert multiset([vs[0]] + Select(vs[1..], p)) == multiset{vs[0]} + multiset(Select(vs[1..], p));
    }
  }

  lemma RetainedMeans(vs: seq<Version>, c: nat, k: nat, i: nat)
    requires UniqueIds(vs) && c < |vs| && i < |vs|
    ensures vs[i] in Retained(vs, vs[c], k) <==> AmongNewest(vs, c, k, i)
  {
    var p := (v: Version) => Rollback(vs[c], v);
    var sorted := ByRevision(Select(vs, p));
    SortedCandidates(vs, vs[c], vs[i]);
    forall j: nat | j < |vs| ensures p(vs[j]) <==> Candidate(vs, c, j) {}
    if p(vs[i]) {
      SortedAtRank(vs, p, NewestFirst, i);
      var rank := Rank(vs, p, NewestFirst, i);
      HowManySame(|vs|, BeforeAt(vs, p, NewestFirst, i), (j: nat) => Candidate(vs, c, j) && GoesBefore(vs, j, i));
      assert sorted[rank] == vs[i];
      if rank >= k && vs[i] in Retained(vs, vs[c], k) {
        var q :| 0 <= q < |Retained(vs, vs[c], k)| && Retained(vs, vs[c], k)[q] == vs[i];
        assert sorted[q] == vs[i];
        TwiceMeansTwo(sorted, q, rank);
        SelectedOnce(vs, p, vs[i]);
        ByRevisionSorts(Select(vs, p));
      }
      if rank < k { assert Retained(vs, vs[c], k)[rank] == vs[i]; }
    }
  }

  lemma RetainedIdMeans(vs: seq<Version>, c: nat, k: nat, i: nat)
    requires UniqueIds(vs) && c < |vs| && i < |vs|
    ensures vs[i].id in Ids(Retained(vs, vs[c], k)) <==> AmongNewest(vs, c, k, i)
  {
    var retained := Retained(vs, vs[c], k);
    RetainedMeans(vs, c, k, i);
    if vs[i].id in Ids(retained) {
      var q :| 0 <= q < |retained| && retained[q].id == vs[i].id;
      SortedCandidates(vs, vs[c], retained[q]);
      assert retained[q] in ByRevision(Select(vs, v => Rollback(vs[c], v)));
      SameVersion(vs, retained[q], vs[i]);
    }
    if vs[i] in retained {
      var q :| 0 <= q < |retained| && retained[q] == vs[i];
    }
  }

  // ----- what holds a version -----

  /** A live rollout moves from or to the version, its image or its reference. */
  predicate RolledOut(targets: seq<Target>, v: Version) {
    exists t :: t in targets &&
      (|| t.sourceVersionId == Some(v.id) || t.targetVersionId == Some(v.id)
       || (v.imageArtifactId.Some? && v.imageArtifactId == t.sourceArtifactId)
       || (v.imageArtifactId.Some? && v.imageArtifactId == t.targetArtifactId)
       || (v.imageReference.Some? && v.imageReference == t.sourceReference)
       || (v.imageReference.Some? && v.imageReference == t.targetReference))
  }

  /** The last artifact listed for a build. */
  predicate LastOf(artifacts: seq<Artifact>, buildId: int, x: nat) {
    && x < |artifacts| && artifacts[x].buildId == buildId
    && forall y :: x < y < |artifacts| ==> artifacts[y].buildId != buildId
  }

  /** A build of the version is still under way, or succeeded with an image that the version does not use yet. */
  ghost predicate BeingBuilt(s: Snapshot, v: Version) {
    exists b :: b in s.builds && b.sourceVersionId == Some(v.id) &&
      (|| b.status.Queued? || b.status.Building?
       || (b.status.Succeeded? && exists x: nat :: LastOf(s.artifacts, b.id, x) &&
                                              v.imageArtifactId != Some(s.artifacts[x].id)))
  }

  predicate BuildGivenUp(s: Snapshot, v: Version) {
    exists b :: b in s.builds && b.sourceVersionId == Some(v.id) && (b.status.Failed? || b.status.Cancelled?)
  }

  lemma {:induction false} ArtifactOfMeans(artifacts: seq<Artifact>, buildId: int)
    ensures forall x: nat :: LastOf(artifacts, buildId, x) ==> ArtifactOf(artifacts, buildId) == Some(artifacts[x])
    ensures ArtifactOf(artifacts, buildId).Some? ==> exists x: nat :: LastOf(artifacts, buildId, x)
  {
    if artifacts != [] {
      var n := |artifacts| - 1;
      var before := artifacts[..n];
      ArtifactOfMeans(before, buildId);
      if artifacts[n].buildId == buildId {
        assert LastOf(artifacts, buildId, n);
      } else {
        forall x: nat | LastOf(artifacts, buildId, x) ensures ArtifactOf(artifacts, buildId) == Some(artifacts[x]) {
          assert LastOf(before, buildId, x);
        }
        if ArtifactOf(before, buildId).Some? {
          var x: nat :| LastOf(before, buildId, x);
          assert LastOf(artifacts, buildId, x);
        }
      }
    }
  }

  lemma HoldsMean(s: Snapshot, v: Version)
    ensures Targeted(v, s.targets) <==> RolledOut(s.targets, v)
    ensures Protected(v, s.builds, s.artifacts) <==> BeingBuilt(s, v)
    ensures HasTerminalBuild(v.id, s.builds) <==> BuildGivenUp(s, v)
  {
    forall b | b in s.builds
      ensures Protects(b, v, s.artifacts) <==>
                b.sourceVersionId == Some(v.id) &&
                (|| b.status.Queued? || b.status.Building?
                 || (b.status.Succeeded? && exists x: nat :: LastOf(s.artifacts, b.id, x) &&
                                                        v.imageArtifactId != Some(s.artifacts[x].id)))
    {
      ArtifactOfMeans(s.artifacts, b.id);
    }
  }

  // ----- the rule -----

  /**
   * The app has a current version with a revision; this one is not it, is not among the newest `k` one could roll back
   * to, is used by no container, live rollout or build, has a revision, and has an image or a build that was given up.
   */
  ghost predicate Superseded(s: Snapshot, vs: seq<Version>, k: nat, i: nat)
    requires i < |vs|
  {
    && (exists c: nat :: CurrentAt(vs, c) && vs[c].revision != 0 && c != i && !AmongNewest(vs, c, k, i))
    && vs[i].id !in s.containerVersions && !RolledOut(s.targets, vs[i]) && !BeingBuilt(s, vs[i])
    && vs[i].revision != 0
    && (vs[i].status.ImageReady? || (vs[i].status.Uploaded? && BuildGivenUp(s, vs[i])))
  }

  lemma EligibleMeans(s: Snapshot, vs: seq<Version>, k: nat, i: nat)
    requires UniqueIds(vs) && i < |vs|
    ensures Eligible(s, vs, k, vs[i]) <==> Superseded(s, vs, k, i)
  {
    CurrentMeans(vs);
    HoldsMean(s, vs[i]);
    forall c: nat | c < |vs| ensures vs[i].id in Ids(Retained(vs, vs[c], k)) <==> AmongNewest(vs, c, k, i) {
      RetainedIdMeans(vs, c, k, i);
    }
    if Current(vs).Some? {
      var c: nat :| CurrentAt(vs, c);
      assert vs[c].id == vs[i].id <==> c == i;
    }
  }

  /**
   * A run archives exactly the superseded versions whose save is accepted: their images and packages are let go and
   * everything else of them stays; every other version stays exactly as it is.
   */
  lemma RetiredExactly(s: Snapshot, vs: seq<Version>, k: nat, saves: set<int>, i: nat)
    requires UniqueIds(vs) && i < |vs|
    ensures var after := Pruned(s, vs, k, saves);
            && |after| == |vs|
            && (if Superseded(s, vs, k, i) && vs[i].id in saves
                then && after[i] == vs[i].(status := Archived, imageArtifactId := None, imageReference := None,
                                           packages := after[i].packages)
                     && |after[i].packages| == |vs[i].packages|
                     && (forall j :: 0 <= j < |vs[i].packages| ==>
                           after[i].packages[j] == Package(vs[i].packages[j].key, None))
                else after[i] == vs[i])
    ensures vs[i].id in Retirees(s, vs, k, saves) <==> Superseded(s, vs, k, i) && vs[i].id in saves
  {
    EligibleMeans(s, vs, k, i);
    RetireeIsEligible(s, vs, k, saves, vs[i]);
  }

  /**
   * A run leaves exactly as they were: the current version; the newest `k` one could roll back to; every active, legacy
   * or archived version and every one without a revision; and every version that a container runs, that a live rollout
   * moves from or to, or whose build is under way or has an image the version does not use yet.  Without a current
   * version that has a revision it leaves all of them.
   */
  lemma PinnedVersionsStay(s: Snapshot, vs: seq<Version>, k: nat, saves: set<int>, i: nat)
    requires UniqueIds(vs) && i < |vs|
    requires var v := vs[i];
             || v.status.Active? || v.status.Legacy? || v.status.Archived? || v.revision == 0
             || v.id in s.containerVersions
             || (exists t :: t in s.targets && (t.sourceVersionId == Some(v.id) || t.targetVersionId == Some(v.id)))
             || (exists t :: t in s.targets && v.imageArtifactId.Some? &&
                             (t.sourceArtifactId == v.imageArtifactId || t.targetArtifactId == v.imageArtifactId))
             || (exists t :: t in s.targets && v.imageReference.Some? &&
                             (t.sourceReference == v.imageReference || t.targetReference == v.imageReference))
             || (exists b :: b in s.builds && b.sourceVersionId == Some(v.id) &&
                             (b.status.Queued? || b.status.Building?))
             || (exists b, x: nat :: b in s.builds && b.sourceVersionId == Some(v.id) && b.status.Succeeded? &&
                                     LastOf(s.artifacts, b.id, x) && v.imageArtifactId != Some(s.artifacts[x].id))
             || (forall c: nat :: CurrentAt(vs, c) ==> c == i || AmongNewest(vs, c, k, i) || vs[c].revision == 0)
    ensures Pruned(s, vs, k, saves)[i] == vs[i]
  {
    RetiredExactly(s, vs, k, saves, i);
  }
}
