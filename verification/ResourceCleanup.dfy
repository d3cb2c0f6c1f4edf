/** One cleanup run over the stored apps, builds, images and packages, updated in place. */
module ResourceCleanup {
  import opened Common
  import opened RetentionPolicy
  import opened RetentionRule
  import opened RetentionSafety
  import opened Sorting

  datatype Run = Run(retired: seq<int>, releasedBuilds: seq<int>, deletedImages: seq<int>, deletedPackages: seq<int>)

  function PackageIds(packages: seq<Package>): (ids: set<int>)
    ensures forall id :: id in ids <==> exists i :: 0 <= i < |packages| && packages[i].packageId == Some(id)
  {
    set i | 0 <= i < |packages| && packages[i].packageId.Some? :: packages[i].packageId.value
  }

  predicate HasImage(artifacts: seq<Artifact>, id: int) {
    exists i :: 0 <= i < |artifacts| && artifacts[i].id == id
  }

  /** Some version still uses the image. */
  predicate ImageInUse(apps: seq<App>, id: int) {
    exists x, i :: 0 <= x < |apps| && 0 <= i < |apps[x].versions| && apps[x].versions[i].imageArtifactId == Some(id)
  }

  /** Some version or build still names the package. */
  predicate PackageInUse(apps: seq<App>, builds: seq<Build>, id: int) {
    || (exists x, i :: 0 <= x < |apps| && 0 <= i < |apps[x].versions| && id in PackageIds(apps[x].versions[i].packages))
    || (exists i :: 0 <= i < |builds| && id in PackageIds(builds[i].packages))
  }

  // ----- how the steps of the loops add up -----

  lemma ArchivingAddsUp(vs: seq<Version>, ids: set<int>, id: int)
    ensures ArchiveAll(ArchiveAll(vs, ids), {id}) == ArchiveAll(vs, ids + {id})
  {
    forall i | 0 <= i < |vs| ensures Archive(Archive(vs[i])) == Archive(vs[i]) {
      assert Unlinked(Unlinked(vs[i].packages)) == Unlinked(vs[i].packages);
    }
  }

  lemma {:induction false} DeletionsAddUp(artifacts: seq<Artifact>, deleted: set<int>, id: int)
    ensures Without(Without(artifacts, deleted), {id}) == Without(artifacts, deleted + {id})
  {
    if artifacts != [] {
      var n := |artifacts| - 1;
      var before := Without(artifacts[..n], deleted);
      DeletionsAddUp(artifacts[..n], deleted, id);
      if artifacts[n].id !in deleted {
        assert Without(artifacts, deleted) == before + [artifacts[n]];
        assert (before + [artifacts[n]])[..|before|] == before;
      } else {
        assert Without(artifacts, deleted) == before;
      }
    }
  }

  lemma {:induction false} NothingDeleted(artifacts: seq<Artifact>)
    ensures Without(artifacts, {}) == artifacts
  {
    if artifacts != [] {
      NothingDeleted(artifacts[..|artifacts| - 1]);
    }
  }

  /** Exactly the artifacts with a deleted id disappear. */
  lemma {:induction false} KeptByWithout(artifacts: seq<Artifact>, deleted: set<int>, a: Artifact)
    ensures a in Without(artifacts, deleted) <==> a in artifacts && a.id !in deleted
  {
    if artifacts != [] {
      var n := |artifacts| - 1;
      KeptByWithout(artifacts[..n], deleted, a);
      assert a in artifacts <==> a in artifacts[..n] || a == artifacts[n];
    }
  }

  lemma {:induction false} HasImageAfter(artifacts: seq<Artifact>, deleted: set<int>, id: int)
    ensures HasImage(Without(artifacts, deleted), id) <==> HasImage(artifacts, id) && id !in deleted
  {
    if artifacts != [] {
      var n := |artifacts| - 1;
      var before := Without(artifacts[..n], deleted);
      HasImageAfter(artifacts[..n], deleted, id);
      assert HasImage(artifacts, id) <==> HasImage(artifacts[..n], id) || artifacts[n].id == id by {
        if i :| 0 <= i < n && artifacts[..n][i].id == id { assert artifacts[i].id == id; }
        if i :| 0 <= i < |artifacts| && artifacts[i].id == id { assert i == n || artifacts[..n][i].id == id; }
      }
      if artifacts[n].id !in deleted {
        assert HasImage(before + [artifacts[n]], id) <==> HasImage(before, id) || artifacts[n].id == id by {
          if i :| 0 <= i < |before| && before[i].id == id { assert (before + [artifacts[n]])[i].id == id; }
          assert (before + [artifacts[n]])[|before|] == artifacts[n];
        }
      } else {
        assert Without(artifacts, deleted) == before;
      }
    }
  }

  lemma {:induction false} NoneSelected(vs: seq<Version>, p: Version -> bool)
    requires forall v :: v in vs ==> !p(v)
    ensures Select(vs, p) == []
  {
    if vs != [] { NoneSelected(vs[1..], p); }
  }

  lemma IdsOfNext(vs: seq<Version>, i: nat)
    requires i < |vs|
    ensures Ids(vs[..i + 1]) == Ids(vs[..i]) + {vs[i].id}
  {
    forall id | id in Ids(vs[..i + 1]) ensures id in Ids(vs[..i]) + {vs[i].id} {
      var j :| 0 <= j < i + 1 && vs[..i + 1][j].id == id;
      if j < i { assert vs[..i][j].id == id; }
    }
    forall id | id in Ids(vs[..i]) ensures id in Ids(vs[..i + 1]) {
      var j :| 0 <= j < i && vs[..i][j].id == id;
      assert vs[..i + 1][j].id == id;
    }
    assert vs[..i + 1][i] == vs[i];
  }

  /** A finished build of a retired version that still names packages lets them go if the store accepts the update. */
  predicate Releases(b: Build, retired: seq<int>, accepted: set<int>) {
    && b.sourceVersionId.Some? && b.sourceVersionId.value in retired
    && !b.status.Queued? && !b.status.Building?
    && PackageIds(b.packages) != {} && b.id in accepted
  }

  lemma NothingIn<T>(s: set<T>)
    requires forall x :: x !in s
    ensures s == {}
  {
  }

  lemma ReleaseMeans(b: Build, retired: seq<int>, accepted: set<int>)
    ensures Releases(b, retired, accepted) <==>
              && (exists v :: v in retired && b.sourceVersionId == Some(v)) && b.id in accepted
              && (b.status.Succeeded? || b.status.Failed? || b.status.Cancelled?)
              && exists j :: 0 <= j < |b.packages| && b.packages[j].packageId.Some?
  {
    if j :| 0 <= j < |b.packages| && b.packages[j].packageId.Some? {
      assert b.packages[j].packageId.value in PackageIds(b.packages);
    }
    if b.sourceVersionId.Some? {
      var v := b.sourceVersionId.value;
      assert v in retired && b.sourceVersionId == Some(v) <==> v in retired;
    }
    if forall j :: 0 <= j < |b.packages| ==> b.packages[j].packageId.None? {
      NothingIn(PackageIds(b.packages));
    }
  }

  predicate NamedByReleased(builds: seq<Build>, retired: seq<int>, accepted: set<int>, id: int) {
    exists i :: 0 <= i < |builds| && Releases(builds[i], retired, accepted) && id in PackageIds(builds[i].packages)
  }

  lemma OneMoreBuild(builds: seq<Build>, i: nat, retired: seq<int>, accepted: set<int>)
    requires i < |builds|
    ensures forall id :: NamedByReleased(builds[..i + 1], retired, accepted, id) <==>
                           || NamedByReleased(builds[..i], retired, accepted, id)
                           || (Releases(builds[i], retired, accepted) && id in PackageIds(builds[i].packages))
  {
    assert builds[..i + 1] == builds[..i] + [builds[i]];
    assert (builds[..i] + [builds[i]])[i] == builds[i];
    assert forall j :: 0 <= j < i ==> (builds[..i] + [builds[i]])[j] == builds[..i][j];
  }

  /** A package that some version to be retired names. */
  predicate NamedIn(s: Snapshot, vs: seq<Version>, k: nat, id: int) {
    exists w :: w in vs && Eligible(s, vs, k, w) && id in PackageIds(w.packages)
  }

  /** A package that some retired version named. */
  ghost predicate NamedByRetired(s: Snapshot, apps: seq<App>, k: nat, id: int) {
    exists x :: 0 <= x < |apps| && NamedIn(s, apps[x].versions, k, id)
  }

  /** An image the store knows, that no version uses and nothing else pins. */
  predicate Unreferenced(artifacts: seq<Artifact>, apps: seq<App>, pinned: set<int>, id: int) {
    HasImage(artifacts, id) && !ImageInUse(apps, id) && id !in pinned
  }

  function ReleaseBuild(b: Build, retired: seq<int>, accepted: set<int>): (r: Build)
    ensures SameBuild(b, r)
  {
    if Releases(b, retired, accepted) then b.(packages := Unlinked(b.packages)) else b
  }

  class ResourceCleanupManager {
    var apps: seq<App>
    var builds: seq<Build>
    var artifacts: seq<Artifact>
    var packages: set<int>

    constructor (apps: seq<App>, builds: seq<Build>, artifacts: seq<Artifact>, packages: set<int>)
      ensures this.apps == apps && this.builds == builds && this.artifacts == artifacts && this.packages == packages
    {
      this.apps := apps;
      this.builds := builds;
      this.artifacts := artifacts;
      this.packages := packages;
    }

    /**
     * Archives each of the given versions of one app whose save the store accepts, and notes what all of them named.
     */
    method RetireEach(x: nat, eligible: seq<Version>, saves: set<int>)
      returns (retired: seq<int>, images: set<int>, named: set<int>)
      requires x < |apps|
      modifies this`apps
      ensures apps == old(apps)[x := old(apps[x]).(versions := ArchiveAll(old(apps[x].versions),
          Ids(eligible) * saves))]
      ensures forall id :: id in retired <==> id in Ids(eligible) * saves
      ensures forall id :: id in images <==> exists j :: 0 <= j < |eligible| && eligible[j].imageArtifactId == Some(id)
      ensures forall id :: id in named <==> exists j :: 0 <= j < |eligible| && id in PackageIds(eligible[j].packages)
    {
      retired, images, named := [], {}, {};
      var before := apps;
      ghost var versions, done := apps[x].versions, {};
      assert ArchiveAll(versions, {}) == versions && before == before[x := before[x]];
      for i := 0 to |eligible|
        invariant done == Ids(eligible[..i]) * saves
        invariant apps == before[x := before[x].(versions := ArchiveAll(versions, done))]
        invariant forall id :: id in retired <==> id in done
        invariant forall id :: id in images <==> exists j :: 0 <= j < i && eligible[j].imageArtifactId == Some(id)
        invariant forall id :: id in named <==> exists j :: 0 <= j < i && id in PackageIds(eligible[j].packages)
      {
        var v := eligible[i];
        IdsOfNext(eligible, i);
        named := named + PackageIds(v.packages);
        if v.imageArtifactId.Some? { images := images + {v.imageArtifactId.value}; }
        if v.id in saves {
          ArchivingAddsUp(versions, done, v.id);
          apps := apps[x := apps[x].(versions := ArchiveAll(apps[x].versions, {v.id}))];
          retired := retired + [v.id];
          done := done + {v.id};
        }
      }
      assert eligible[..|eligible|] == eligible;
    }

    /**
     * Retires the eligible versions of one app, which are exactly the superseded ones, and notes the images and
     * packages they named.
     */
    method PruneApp(s: Snapshot, x: nat, k: nat, saves: set<int>)
      returns (retired: seq<int>, images: set<int>, named: set<int>)
      requires x < |apps|
      modifies this`apps
      ensures apps == old(apps)[x := PrunedApp(s, old(apps[x]), k, saves)]
      ensures forall id :: id in retired <==> id in Retirees(s, old(apps[x].versions), k, saves)
      ensures UniqueIds(old(apps[x].versions)) ==>
                forall i :: 0 <= i < |old(apps[x].versions)| ==>
                  (old(apps[x].versions)[i].id in retired <==>
                    Superseded(s, old(apps[x].versions), k, i) && old(apps[x].versions)[i].id in saves)
      ensures forall id :: id in images <==> UsedIn(s, old(apps[x].versions), k, id)
      ensures forall id :: id in named <==> NamedIn(s, old(apps[x].versions), k, id)
    {
      var versions := apps[x].versions;
      forall i | 0 <= i < |versions| && UniqueIds(versions)
        ensures versions[i].id in Retirees(s, versions, k, saves) <==>
                  Superseded(s, versions, k, i) && versions[i].id in saves
      {
        RetiredExactly(s, versions, k, saves, i);
      }
      if Current(versions).None? || Current(versions).value.revision == 0 {
        NoneSelected(versions, v => Eligible(s, versions, k, v));
        assert Retirees(s, versions, k, saves) == {} && ArchiveAll(versions, {}) == versions;
        assert apps == apps[x := apps[x]];
        return [], {}, {};
      }
      var eligible := EligibleVersions(s, versions, k);
      retired, images, named := RetireEach(x, eligible, saves);
      forall v ensures v in eligible <==> v in versions && Eligible(s, versions, k, v) {
        SelectedIsSelected(versions, u => Eligible(s, versions, k, u), v);
      }
    }

    /** Detaches the finished builds of retired versions from their packages where the store accepts the update. */
    method ReleaseBuilds(retired: seq<int>, accepted: set<int>) returns (released: seq<int>, named: set<int>)
      modifies this`builds
      ensures |builds| == |old(builds)|
      ensures forall i :: 0 <= i < |builds| ==> builds[i] == ReleaseBuild(old(builds)[i], retired, accepted)
      ensures forall id :: id in named <==> NamedByReleased(old(builds), retired, accepted, id)
      ensures forall i :: 0 <= i < |builds| ==>
                var b := old(builds)[i];
                if (exists v :: v in retired && b.sourceVersionId == Some(v)) && b.id in accepted &&
                   (b.status.Succeeded? || b.status.Failed? || b.status.Cancelled?) &&
                   (exists j :: 0 <= j < |b.packages| && b.packages[j].packageId.Some?)
                then && builds[i] == b.(packages := builds[i].packages) && |builds[i].packages| == |b.packages|
                     && forall j :: 0 <= j < |b.packages| ==> builds[i].packages[j] == Package(b.packages[j].key, None)
                else builds[i] == b
    {
      released, named := [], {};
      var before := builds;
      for i := 0 to |before|
        invariant |builds| == |before|
        invariant forall j :: 0 <= j < i ==> builds[j] == ReleaseBuild(before[j], retired, accepted)
        invariant forall j :: i <= j < |before| ==> builds[j] == before[j]
        invariant forall id :: id in named <==> NamedByReleased(before[..i], retired, accepted, id)
      {
        OneMoreBuild(before, i, retired, accepted);
        var build := before[i];
        if build.sourceVersionId.None? || build.sourceVersionId.value !in retired || build.status.Queued? ||
            build.status.Building? {
          continue;
        }
        var packageIds := PackageIds(build.packages);
        if packageIds == {} { continue; }
        if build.id !in accepted { continue; }
        builds := builds[i := build.(packages := Unlinked(build.packages))];
        named := named + packageIds;
        released := released + [build.id];
      }
      assert before[..|before|] == before;
      forall i | 0 <= i < |before| { ReleaseMeans(before[i], retired, accepted); }
    }

    /** Deletes the images the store finds unreferenced; every other one is left alone. */
    method DeleteImages(images: set<int>, pinned: set<int>) returns (deleted: seq<int>)
      modifies this`artifacts
      ensures artifacts == Without(old(artifacts), set id | id in deleted)
      ensures forall id :: id in deleted <==>
          id in images && Unreferenced(old(artifacts), apps, pinned, id)
      ensures forall id :: id in deleted <==>
                && id in images && id !in pinned
                && (exists i :: 0 <= i < |old(artifacts)| && old(artifacts)[i].id == id)
                && (forall x, i :: 0 <= x < |apps| && 0 <= i < |apps[x].versions| ==>
                      apps[x].versions[i].imageArtifactId != Some(id))
      ensures forall a :: a in artifacts <==> a in old(artifacts) && a.id !in deleted
    {
      deleted := [];
      var rest := images;
      var before := artifacts;
      ghost var gone: set<int> := {};
      NothingDeleted(artifacts);
      while rest != {}
        invariant rest <= images && artifacts == Without(before, gone)
        invariant forall id :: id in deleted <==> id in gone
        invariant forall id :: id in gone <==> id in images - rest && Unreferenced(before, apps, pinned, id)
        decreases rest
      {
        var id := Pick(rest);
        rest := rest - {id};
        assert id !in gone;
        HasImageAfter(before, gone, id);
        assert HasImage(artifacts, id) <==> HasImage(before, id);
        if !HasImage(artifacts, id) { continue; }
        if ImageInUse(apps, id) || id in pinned { continue; }
        DeletionsAddUp(before, gone, id);
        artifacts := Without(artifacts, {id});
        deleted := deleted + [id];
        gone := gone + {id};
      }
      SetOfList(deleted, gone);
      forall a ensures a in artifacts <==> a in before && a.id !in deleted { KeptByWithout(before, gone, a); }
    }

    /** Deletes the packages that no version and no build names any more. */
    method DeletePackages(named: set<int>) returns (deleted: seq<int>)
      modifies this`packages
      ensures forall id :: id in deleted <==> id in named && id in old(packages) && !PackageInUse(apps, builds, id)
      ensures forall id :: id in deleted <==>
                && id in named && id in old(packages)
                && (forall x, i, j ::
                      0 <= x < |apps| && 0 <= i < |apps[x].versions| && 0 <= j < |apps[x].versions[i].packages| ==>
                        apps[x].versions[i].packages[j].packageId != Some(id))
                && (forall i, j :: 0 <= i < |builds| && 0 <= j < |builds[i].packages| ==>
                      builds[i].packages[j].packageId != Some(id))
      ensures packages == old(packages) - set id | id in deleted
    {
      deleted := [];
      var rest := named;
      var before := packages;
      while rest != {}
        invariant rest <= named && packages == before - set id | id in deleted
        invariant forall id :: id in deleted <==> id in named - rest && id in before && !PackageInUse(apps, builds, id)
        decreases rest
      {
        var id := Pick(rest);
        rest := rest - {id};
        if id in packages && !PackageInUse(apps, builds, id) {
          packages := packages - {id};
          deleted := deleted + [id];
        }
      }
    }

    /** The loop over all apps. */
    method PruneApps(s: Snapshot, k: nat, saves: set<int>)
      returns (retired: seq<int>, images: set<int>, named: set<int>)
      modifies this`apps
      ensures AppsPruned(s, old(apps), apps, k, saves)
      ensures forall id :: id in retired <==> RetiredIn(s, old(apps), k, saves, id)
      ensures forall id :: id in images <==> UsedByRetired(s, old(apps), k, id)
      ensures forall id :: id in named <==> NamedByRetired(s, old(apps), k, id)
    {
      var before := apps;
      retired, images, named := [], {}, {};
      for x := 0 to |before|
        invariant |apps| == |before|
        invariant forall y :: 0 <= y < x ==> apps[y] == PrunedApp(s, before[y], k, saves)
        invariant forall y :: x <= y < |before| ==> apps[y] == before[y]
        invariant forall id :: id in retired <==> RetiredIn(s, before[..x], k, saves, id)
        invariant forall id :: id in images <==> UsedByRetired(s, before[..x], k, id)
        invariant forall id :: id in named <==> NamedByRetired(s, before[..x], k, id)
      {
        var gone, used, names := PruneApp(s, x, k, saves);
        retired, images, named := retired + gone, images + used, named + names;
        OneMoreApp(s, before, x, k, saves);
      }
      assert before[..|before|] == before;
    }

    /**
     * A whole run: an invalid retention changes nothing; otherwise every app is pruned, builds of retired versions let
     * go, and exactly those of the retired versions' images that nothing uses any more disappear.
     */
    method Prune(previousRevisions: int, containerVersions: set<int>, targets: seq<Target>, pinnedImages: set<int>,
                 saves: set<int>, accepted: set<int>)
      returns (run: Option<Run>)
      modifies this
      ensures run.Some? <==> 1 <= previousRevisions <= 20
      ensures run.None? ==>
                && apps == old(apps) && builds == old(builds)
                && artifacts == old(artifacts) && packages == old(packages)
      ensures run.Some? ==>
                var s := Snapshot(containerVersions, old(builds), old(artifacts), targets);
                && AppsPruned(s, old(apps), apps, previousRevisions, saves)
                && (forall id :: id in run.value.retired <==> RetiredIn(s, old(apps), previousRevisions, saves, id))
                && Later(s, Snapshot(containerVersions, builds, artifacts, targets),
                    set id | id in run.value.deletedImages)
                && (forall i :: 0 <= i < |builds| ==>
                    builds[i] == ReleaseBuild(old(builds)[i], run.value.retired, accepted))
                && (forall id :: id in run.value.deletedImages <==>
                      && UsedByRetired(s, old(apps), previousRevisions, id)
                      && Unreferenced(old(artifacts), apps, pinnedImages, id))
                && (forall id :: id in run.value.deletedPackages <==>
                      && (NamedByRetired(s, old(apps), previousRevisions, id) ||
                          NamedByReleased(old(builds), run.value.retired, accepted, id))
                      && id in old(packages) && !PackageInUse(apps, builds, id))
                && packages == old(packages) - set id | id in run.value.deletedPackages
    {
      if previousRevisions < 1 || previousRevisions > 20 { return None; }
      var k: nat := previousRevisions;
      var s := Snapshot(containerVersions, builds, artifacts, targets);
      var retired, images, named := PruneApps(s, k, saves);
      var released, more := ReleaseBuilds(retired, accepted);
      var deletedImages := DeleteImages(images, pinnedImages);
      var deletedPackages := DeletePackages(named + more);
      run := Some(Run(retired, released, deletedImages, deletedPackages));
    }

    /**
     * Running the same prune twice with nothing else changed: with properly bound images and accepted saves the second
     * run retires nothing.
     */
    method PruneTwice(previousRevisions: int, containerVersions: set<int>, targets: seq<Target>, pinnedImages: set<int>,
                      saves: set<int>, accepted: set<int>)
      returns (first: Option<Run>, second: Option<Run>)
      requires UniqueVersions(apps) && Bound(Snapshot(containerVersions, builds, artifacts, targets), apps)
      requires 1 <= previousRevisions <= 20 ==>
                 AllSaved(Snapshot(containerVersions, builds, artifacts, targets), apps, previousRevisions, saves)
      modifies this
      ensures first.Some? <==> 1 <= previousRevisions <= 20
      ensures second.Some? <==> first.Some?
      ensures second.Some? ==> second.value.retired == []
    {
      ghost var before := apps;
      ghost var s := Snapshot(containerVersions, builds, artifacts, targets);
      first := Prune(previousRevisions, containerVersions, targets, pinnedImages, saves, accepted);
      ghost var after := apps;
      ghost var t := Snapshot(containerVersions, builds, artifacts, targets);
      if first.Some? {
        NothingLeftToRetire(s, t, (set id | id in first.value.deletedImages), before, after, previousRevisions, saves);
      }
      second := Prune(previousRevisions, containerVersions, targets, pinnedImages, saves, accepted);
      if second.Some? && second.value.retired != [] { HoldsSomething(second.value.retired); }
    }
  }

  lemma SetOfList(ids: seq<int>, members: set<int>)
    requires forall id :: id in ids <==> id in members
    ensures members == set id | id in ids
  {
    var listed := set id | id in ids;
    forall id ensures id in listed <==> id in members {}
  }

  lemma HoldsSomething(ids: seq<int>)
    requires ids != []
    ensures exists id :: id in ids
  {
    var id := ids[0];
    assert id in ids;
  }

  /** The store accepts the save of every eligible version. */
  ghost predicate AllSaved(s: Snapshot, apps: seq<App>, k: nat, saves: set<int>) {
    forall x :: 0 <= x < |apps| ==> Ids(EligibleVersions(s, apps[x].versions, k)) <= saves
  }

  lemma NothingLeftToRetire(s: Snapshot, t: Snapshot, deleted: set<int>, before: seq<App>, after: seq<App>, k: nat,
                            saves: set<int>)
    requires UniqueVersions(before) && Bound(s, before) && Later(s, t, deleted) && AllSaved(s, before, k, saves)
    requires AppsPruned(s, before, after, k, saves)
    requires forall id :: id in deleted ==> UsedByRetired(s, before, k, id)
    ensures forall id :: !RetiredIn(t, after, k, saves, id)
  {
    forall x | 0 <= x < |after| ensures EligibleVersions(t, after[x].versions, k) == [] {
      var vs := after[x].versions;
      forall v | v in vs ensures !Eligible(t, vs, k, v) {
        var i :| 0 <= i < |vs| && vs[i] == v;
        SecondPruneRetiresNothing(s, t, deleted, before, k, saves, x, i);
      }
      NoneSelected(vs, v => Eligible(t, vs, k, v));
    }
  }

  function PrunedApp(s: Snapshot, app: App, k: nat, saves: set<int>): App {
    app.(versions := Pruned(s, app.versions, k, saves))
  }

  ghost predicate AppsPruned(s: Snapshot, before: seq<App>, after: seq<App>, k: nat, saves: set<int>) {
    && |after| == |before|
    && forall x :: 0 <= x < |before| ==> after[x] == PrunedApp(s, before[x], k, saves)
  }

  ghost predicate RetiredIn(s: Snapshot, apps: seq<App>, k: nat, saves: set<int>, id: int) {
    exists x :: 0 <= x < |apps| && id in Retirees(s, apps[x].versions, k, saves)
  }

  /** What holds of one of the first `x + 1` apps holds of one of the first `x` or of the next. */
  lemma OneMoreRetired(s: Snapshot, apps: seq<App>, x: nat, k: nat, saves: set<int>, id: int)
    requires x < |apps|
    ensures RetiredIn(s, apps[..x + 1], k, saves, id) <==>
              RetiredIn(s, apps[..x], k, saves, id) || id in Retirees(s, apps[x].versions, k, saves)
  {
    var before, after := apps[..x], apps[..x + 1];
    if y :| 0 <= y < |after| && id in Retirees(s, after[y].versions, k, saves) {
      assert if y < x then before[y] == after[y] else after[y] == apps[x];
    }
    if y :| 0 <= y < |before| && id in Retirees(s, before[y].versions, k, saves) { assert after[y] == before[y]; }
    assert after[x] == apps[x];
  }

  lemma OneMoreUsed(s: Snapshot, apps: seq<App>, x: nat, k: nat, id: int)
    requires x < |apps|
    ensures UsedByRetired(s, apps[..x + 1], k, id) <==>
              UsedByRetired(s, apps[..x], k, id) || UsedIn(s, apps[x].versions, k, id)
  {
    var before, after := apps[..x], apps[..x + 1];
    if y :| 0 <= y < |after| && UsedIn(s, after[y].versions, k, id) {
      assert if y < x then before[y] == after[y] else after[y] == apps[x];
    }
    if y :| 0 <= y < |before| && UsedIn(s, before[y].versions, k, id) { assert after[y] == before[y]; }
    assert after[x] == apps[x];
  }

  lemma OneMoreNamed(s: Snapshot, apps: seq<App>, x: nat, k: nat, id: int)
    requires x < |apps|
    ensures NamedByRetired(s, apps[..x + 1], k, id) <==>
              NamedByRetired(s, apps[..x], k, id) || NamedIn(s, apps[x].versions, k, id)
  {
    var before, after := apps[..x], apps[..x + 1];
    if y :| 0 <= y < |after| && NamedIn(s, after[y].versions, k, id) {
      assert if y < x then before[y] == after[y] else after[y] == apps[x];
    }
    if y :| 0 <= y < |before| && NamedIn(s, before[y].versions, k, id) { assert after[y] == before[y]; }
    assert after[x] == apps[x];
  }

  lemma OneMoreApp(s: Snapshot, apps: seq<App>, x: nat, k: nat, saves: set<int>)
    requires x < |apps|
    ensures forall id :: RetiredIn(s, apps[..x + 1], k, saves, id) <==>
              RetiredIn(s, apps[..x], k, saves, id) || id in Retirees(s, apps[x].versions, k, saves)
    ensures forall id :: UsedByRetired(s, apps[..x + 1], k, id) <==>
              UsedByRetired(s, apps[..x], k, id) || UsedIn(s, apps[x].versions, k, id)
    ensures forall id :: NamedByRetired(s, apps[..x + 1], k, id) <==>
              NamedByRetired(s, apps[..x], k, id) || NamedIn(s, apps[x].versions, k, id)
  {
    forall id ensures RetiredIn(s, apps[..x + 1], k, saves, id) <==>
                        RetiredIn(s, apps[..x], k, saves, id) || id in Retirees(s, apps[x].versions, k, saves) {
      OneMoreRetired(s, apps, x, k, saves, id);
    }
    forall id ensures UsedByRetired(s, apps[..x + 1], k, id) <==>
                        UsedByRetired(s, apps[..x], k, id) || UsedIn(s, apps[x].versions, k, id) {
      OneMoreUsed(s, apps, x, k, id);
    }
    forall id ensures NamedByRetired(s, apps[..x + 1], k, id) <==>
                        NamedByRetired(s, apps[..x], k, id) || NamedIn(s, apps[x].versions, k, id) {
      OneMoreNamed(s, apps, x, k, id);
    }
  }
}
