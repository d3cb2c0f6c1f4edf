/** Which app versions a cleanup run may retire, and what it does to them. */
module RetentionPolicy {
  import opened Common
  import opened Sorting

  datatype VersionStatus = Legacy | Uploaded | ImageReady | Active | Archived
  datatype BuildStatus = Queued | Building | Succeeded | Failed | Cancelled

  datatype Package = Package(key: int, packageId: Option<int>)

  /** `revision` 0 stands for a missing one, which the code treats alike. */
  datatype Version = Version(
    id: int,
    revision: nat,
    status: VersionStatus,
    imageReference: Option<int>,
    imageArtifactId: Option<int>,
    packages: seq<Package>)

  datatype App = App(id: int, versions: seq<Version>)

  datatype Build = Build(id: int, sourceVersionId: Option<int>, status: BuildStatus, packages: seq<Package>)

  datatype Artifact = Artifact(id: int, buildId: int)

  /** A live rollout item: what it moves from and what it moves to. */
  datatype Target = Target(
    sourceVersionId: Option<int>, sourceArtifactId: Option<int>, sourceReference: Option<int>,
    targetVersionId: Option<int>, targetArtifactId: Option<int>, targetReference: Option<int>)

  /** What one run reads before it changes anything. */
  datatype Snapshot = Snapshot(
    containerVersions: set<int>,
    builds: seq<Build>,
    artifacts: seq<Artifact>,
    targets: seq<Target>)

  function Ids(vs: seq<Version>): set<int> {
    set i | 0 <= i < |vs| :: vs[i].id
  }

  // ----- the current version and the retained ones -----

  function FirstWith(vs: seq<Version>, status: VersionStatus): (v: Option<Version>)
    ensures v.Some? ==> v.value in vs && v.value.status == status
    ensures v.None? ==> forall i :: 0 <= i < |vs| ==> vs[i].status != status
  {
    if vs == [] then None else if vs[0].status == status then Some(vs[0]) else FirstWith(vs[1..], status)
  }

  function Current(vs: seq<Version>): Option<Version> {
    if FirstWith(vs, Active).Some? then FirstWith(vs, Active) else FirstWith(vs, Legacy)
  }

  /** A version one could roll back to. */
  predicate Rollback(current: Version, v: Version) {
    v.id != current.id && v.status.ImageReady? && v.imageReference.Some? && v.revision != 0
  }

  function NewestFirst(v: Version): int { -(v.revision as int) }

  /** Highest revision first; equal revisions keep their order. */
  function ByRevision(vs: seq<Version>): seq<Version> { SortBy(vs, NewestFirst) }

  function Take(vs: seq<Version>, k: nat): seq<Version> {
    if |vs| <= k then vs else vs[..k]
  }

  function Retained(vs: seq<Version>, current: Version, k: nat): seq<Version> {
    Take(ByRevision(Select(vs, v => Rollback(current, v))), k)
  }

  // ----- what pins a version -----

  predicate TargetMatches(t: Target, v: Version) {
    || t.sourceVersionId == Some(v.id) || t.targetVersionId == Some(v.id)
    || (v.imageArtifactId.Some? && (t.sourceArtifactId == v.imageArtifactId || t.targetArtifactId == v.imageArtifactId))
    || (v.imageReference.Some? && (t.sourceReference == v.imageReference || t.targetReference == v.imageReference))
  }

  /** The artifact a map keyed by build holds: the last one listed. */
  function ArtifactOf(artifacts: seq<Artifact>, buildId: int): (a: Option<Artifact>)
    ensures a.Some? ==> a.value in artifacts && a.value.buildId == buildId
  {
    if artifacts == [] then None
    else if artifacts[|artifacts| - 1].buildId == buildId then Some(artifacts[|artifacts| - 1])
    else ArtifactOf(artifacts[..|artifacts| - 1], buildId)
  }

  /** A running build, or a finished one whose image the version does not use yet. */
  predicate Protects(build: Build, v: Version, artifacts: seq<Artifact>) {
    && build.sourceVersionId == Some(v.id)
    && (|| build.status.Queued? || build.status.Building?
        || (build.status.Succeeded? && ArtifactOf(artifacts, build.id).Some?
            && v.imageArtifactId != Some(ArtifactOf(artifacts, build.id).value.id)))
  }

  predicate Protected(v: Version, builds: seq<Build>, artifacts: seq<Artifact>) {
    exists i :: 0 <= i < |builds| && Protects(builds[i], v, artifacts)
  }

  predicate HasTerminalBuild(id: int, builds: seq<Build>) {
    exists i :: 0 <= i < |builds| && builds[i].sourceVersionId == Some(id) &&
        (builds[i].status.Failed? || builds[i].status.Cancelled?)
  }

  predicate Targeted(v: Version, targets: seq<Target>) {
    exists i :: 0 <= i < |targets| && TargetMatches(targets[i], v)
  }

  /** Everything the run asks of a version except that no build protects it. */
  predicate Disposable(s: Snapshot, vs: seq<Version>, current: Version, k: nat, v: Version) {
    && v.id != current.id
    && v.id !in Ids(Retained(vs, current, k))
    && v.id !in s.containerVersions
    && !Targeted(v, s.targets)
    && v.revision != 0
    && !v.status.Active? && !v.status.Legacy? && !v.status.Archived?
    && (v.status.ImageReady? || HasTerminalBuild(v.id, s.builds))
  }

  predicate Eligible(s: Snapshot, vs: seq<Version>, k: nat, v: Version) {
    && Current(vs).Some? && Current(vs).value.revision != 0
    && Disposable(s, vs, Current(vs).value, k, v)
    && !Protected(v, s.builds, s.artifacts)
  }

  function EligibleVersions(s: Snapshot, vs: seq<Version>, k: nat): seq<Version> {
    Select(vs, v => Eligible(s, vs, k, v))
  }

  // ----- what happens to a retired version -----

  function Unlinked(packages: seq<Package>): seq<Package> {
    seq(|packages|, i requires 0 <= i < |packages| => packages[i].(packageId := None))
  }

  function Archive(v: Version): Version {
    v.(packages := Unlinked(v.packages), imageArtifactId := None, imageReference := None, status := Archived)
  }

  function ArchiveAll(vs: seq<Version>, ids: set<int>): seq<Version> {
    seq(|vs|, i requires 0 <= i < |vs| => if vs[i].id in ids then Archive(vs[i]) else vs[i])
  }

  /** The versions of one app after a run in which the store accepts the saves of `saves`. */
  function Pruned(s: Snapshot, vs: seq<Version>, k: nat, saves: set<int>): seq<Version> {
    ArchiveAll(vs, Ids(EligibleVersions(s, vs, k)) * saves)
  }

  function Without(artifacts: seq<Artifact>, deleted: set<int>): seq<Artifact> {
    if artifacts == [] then []
    else Without(artifacts[..|artifacts| - 1], deleted)
         + if artifacts[|artifacts| - 1].id in deleted then [] else [artifacts[|artifacts| - 1]]
  }

  /** A build of a retired version lets go of its packages; nothing else of a build ever changes. */
  predicate SameBuild(before: Build, after: Build) {
    after == before.(packages := after.packages)
  }
}

/** What every cleanup run keeps, and why running it again changes nothing. */
module RetentionSafety {
  import opened Common
  import opened RetentionPolicy
  import opened Sorting

  // ----- selecting and sorting -----

  predicate Descending(vs: seq<Version>) {
    forall i, j :: 0 <= i < j < |vs| ==> vs[j].revision <= vs[i].revision
  }

  lemma ByRevisionSorts(vs: seq<Version>)
    ensures Descending(ByRevision(vs)) && multiset(ByRevision(vs)) == multiset(vs)
  {
    SortMeans(vs, NewestFirst);
    forall i, j | 0 <= i < j < |ByRevision(vs)| ensures ByRevision(vs)[j].revision <= ByRevision(vs)[i].revision {
      assert NewestFirst(ByRevision(vs)[i]) <= NewestFirst(ByRevision(vs)[j]);
    }
  }

  /** Dropping elements behind the first `k` does not change the first `k`. */
  lemma TakeFromFront(head: Version, rest: seq<Version>, k: nat)
    requires k != 0
    ensures Take([head] + rest, k) == [head] + Take(rest, k - 1)
  {
  }

  lemma {:induction false} TakeKeepsPrefix(vs: seq<Version>, k: nat, p: Version -> bool)
    requires forall v :: v in Take(vs, k) ==> p(v)
    ensures Take(Select(vs, p), k) == Take(vs, k)
  {
    if vs != [] && k != 0 {
      var head, tail := vs[0], vs[1..];
      assert vs == [head] + tail;
      TakeFromFront(head, tail, k);
      assert head in Take(vs, k);
      forall v | v in Take(tail, k - 1) ensures p(v) {
        assert v in Take(vs, k);
      }
      TakeKeepsPrefix(tail, k - 1, p);
      TakeFromFront(head, Select(tail, p), k);
    }
  }

  // ----- what a run never retires -----

  ghost predicate UniqueIds(vs: seq<Version>) {
    forall i, j :: 0 <= i < j < |vs| ==> vs[i].id != vs[j].id
  }

  lemma SortedCandidates(vs: seq<Version>, current: Version, v: Version)
    ensures v in ByRevision(Select(vs, c => Rollback(current, c))) <==> v in vs && Rollback(current, v)
    ensures Descending(ByRevision(Select(vs, c => Rollback(current, c))))
  {
    var candidates := Select(vs, c => Rollback(current, c));
    ByRevisionSorts(candidates);
    SelectedIsSelected(vs, c => Rollback(current, c), v);
    assert v in ByRevision(candidates) <==> v in multiset(ByRevision(candidates));
    assert v in candidates <==> v in multiset(candidates);
  }

  /** The retained versions are rollback versions of the app, and every other rollback version is no newer. */
  lemma RetainedAreNewest(vs: seq<Version>, current: Version, k: nat, v: Version)
    requires v in vs && Rollback(current, v) && v.id !in Ids(Retained(vs, current, k))
    ensures |Retained(vs, current, k)| == k
    ensures forall kept :: kept in Retained(vs, current, k) ==>
              kept in vs && Rollback(current, kept) && kept.revision >= v.revision
  {
    var sorted := ByRevision(Select(vs, c => Rollback(current, c)));
    var retained := Retained(vs, current, k);
    SortedCandidates(vs, current, v);
    var at :| 0 <= at < |sorted| && sorted[at] == v;
    forall i | 0 <= i < |retained| ensures retained[i] != v {
      assert retained[i].id in Ids(retained);
    }
    forall kept | kept in retained ensures kept in vs && Rollback(current, kept) {
      SortedCandidates(vs, current, kept);
    }
  }

  /**
   * A retired rollback version had at least `k` others of the same app, none older than it, and none of them is
   * retired; so the `k` highest ones always survive.
   */
  lemma RetiredHasNewerOnes(s: Snapshot, vs: seq<Version>, k: nat, v: Version)
    requires v in vs && Eligible(s, vs, k, v) && Rollback(Current(vs).value, v)
    ensures var kept := Retained(vs, Current(vs).value, k);
            && |kept| == k
            && forall u :: u in kept ==>
                 u in vs && Rollback(Current(vs).value, u) && u.revision >= v.revision && !Eligible(s, vs, k, u)
  {
    var kept := Retained(vs, Current(vs).value, k);
    RetainedAreNewest(vs, Current(vs).value, k, v);
    forall u | u in kept ensures u.id in Ids(kept) {
    }
  }

  /** Keeping more retires less. */
  lemma LargerRetentionRetiresLess(s: Snapshot, vs: seq<Version>, k: nat, larger: nat, v: Version)
    requires k <= larger && Eligible(s, vs, larger, v)
    ensures Eligible(s, vs, k, v)
  {
    var current := Current(vs).value;
    var fewer, more := Retained(vs, current, k), Retained(vs, current, larger);
    forall id | id in Ids(fewer) ensures id in Ids(more) {
      var i :| 0 <= i < |fewer| && fewer[i].id == id;
      assert more[i] == fewer[i];
    }
  }

  // ----- running it again -----

  lemma CurrentIsNotRetired(s: Snapshot, vs: seq<Version>, k: nat, saves: set<int>)
    requires UniqueIds(vs)
    ensures Current(Pruned(s, vs, k, saves)) == Current(vs)
  {
    FirstWithKept(s, vs, vs, k, saves, Active);
    FirstWithKept(s, vs, vs, k, saves, Legacy);
  }

  function Retirees(s: Snapshot, vs: seq<Version>, k: nat, saves: set<int>): set<int> {
    Ids(EligibleVersions(s, vs, k)) * saves
  }

  /** Retired ids are exactly the eligible ones whose save was accepted. */
  lemma RetireeIsEligible(s: Snapshot, vs: seq<Version>, k: nat, saves: set<int>, v: Version)
    requires UniqueIds(vs) && v in vs
    ensures v.id in Retirees(s, vs, k, saves) <==> Eligible(s, vs, k, v) && v.id in saves
  {
    var eligible := EligibleVersions(s, vs, k);
    SelectedIsSelected(vs, u => Eligible(s, vs, k, u), v);
    if v.id in Ids(eligible) {
      var i :| 0 <= i < |eligible| && eligible[i].id == v.id;
      SelectedIsSelected(vs, u => Eligible(s, vs, k, u), eligible[i]);
      assert eligible[i] in vs;
    }
  }

  lemma {:induction false} FirstWithKept(s: Snapshot, vs: seq<Version>, part: seq<Version>, k: nat, saves: set<int>,
                                         status: VersionStatus)
    requires UniqueIds(vs) && (forall v :: v in part ==> v in vs) && (status.Active? || status.Legacy?)
    ensures FirstWith(ArchiveAll(part, Retirees(s, vs, k, saves)), status) == FirstWith(part, status)
  {
    if part != [] {
      RetireeIsEligible(s, vs, k, saves, part[0]);
      var after := ArchiveAll(part, Retirees(s, vs, k, saves));
      assert after[1..] == ArchiveAll(part[1..], Retirees(s, vs, k, saves));
      FirstWithKept(s, vs, part[1..], k, saves, status);
    }
  }

  /** Archiving drops exactly the retired candidates from the list the next run sorts. */
  lemma {:induction false} CandidatesAfter(vs: seq<Version>, current: Version, ids: set<int>)
    ensures Select(ArchiveAll(vs, ids), v => Rollback(current, v))
         == Select(Select(vs, v => Rollback(current, v)), (v: Version) => v.id !in ids)
  {
    if vs != [] {
      var head, tail := vs[0], vs[1..];
      var after := ArchiveAll(vs, ids);
      assert after[1..] == ArchiveAll(tail, ids);
      CandidatesAfter(tail, current, ids);
      var rest := Select(tail, v => Rollback(current, v));
      if Rollback(current, head) {
        assert Select(vs, v => Rollback(current, v)) == [head] + rest;
        assert ([head] + rest)[1..] == rest;
      } else {
        assert Select(vs, v => Rollback(current, v)) == rest;
      }
    }
  }

  /** The next run retains the very same versions. */
  lemma RetainedAgain(s: Snapshot, vs: seq<Version>, k: nat, saves: set<int>)
    requires UniqueIds(vs) && Current(vs).Some?
    ensures Retained(Pruned(s, vs, k, saves), Current(vs).value, k) == Retained(vs, Current(vs).value, k)
  {
    var current := Current(vs).value;
    var ids := Retirees(s, vs, k, saves);
    var candidates := Select(vs, v => Rollback(current, v));
    CandidatesAfter(vs, current, ids);
    SortCommutesWithSelect(candidates, NewestFirst, (v: Version) => v.id !in ids);
    forall v | v in Retained(vs, current, k) ensures v.id !in ids {
      SortedCandidates(vs, current, v);
      RetireeIsEligible(s, vs, k, saves, v);
      assert v.id in Ids(Retained(vs, current, k));
    }
    TakeKeepsPrefix(ByRevision(candidates), k, (v: Version) => v.id !in ids);
  }

  /** What may differ for the next run: builds let packages go, and artifacts disappear. */
  predicate Later(s: Snapshot, t: Snapshot, deleted: set<int>) {
    && t.containerVersions == s.containerVersions && t.targets == s.targets
    && |t.builds| == |s.builds| && (forall i :: 0 <= i < |s.builds| ==> SameBuild(s.builds[i], t.builds[i]))
    && t.artifacts == Without(s.artifacts, deleted)
  }

  lemma SameTerminalBuilds(s: Snapshot, t: Snapshot, deleted: set<int>, id: int)
    requires Later(s, t, deleted)
    ensures HasTerminalBuild(id, t.builds) <==> HasTerminalBuild(id, s.builds)
  {
    assert forall i :: 0 <= i < |s.builds| ==> SameBuild(s.builds[i], t.builds[i]);
  }

  /**
   * The same prune again retires a version exactly if nothing but a protecting build had kept it the first time and
   * that protection is gone now.
   */
  lemma SecondPruneRetiresTheUnprotected(s: Snapshot, t: Snapshot, deleted: set<int>, vs: seq<Version>, k: nat,
                                         saves: set<int>, i: nat)
    requires UniqueIds(vs) && Later(s, t, deleted) && i < |vs|
    requires Ids(EligibleVersions(s, vs, k)) <= saves
    ensures var after := Pruned(s, vs, k, saves);
            Eligible(t, after, k, after[i]) <==>
              && after[i] == vs[i] && Protected(vs[i], s.builds, s.artifacts) &&
                  !Protected(vs[i], t.builds, t.artifacts)
              && Current(vs).Some? && Current(vs).value.revision != 0 && Disposable(s, vs, Current(vs).value, k, vs[i])
  {
    var after := Pruned(s, vs, k, saves);
    CurrentIsNotRetired(s, vs, k, saves);
    if Current(vs).Some? { RetainedAgain(s, vs, k, saves); }
    RetireeIsEligible(s, vs, k, saves, vs[i]);
    SelectedIsSelected(vs, u => Eligible(s, vs, k, u), vs[i]);
    assert Eligible(s, vs, k, vs[i]) ==> vs[i].id in Ids(EligibleVersions(s, vs, k));
    SameTerminalBuilds(s, t, deleted, vs[i].id);
  }

  ghost predicate UniqueVersions(apps: seq<App>) {
    && (forall x :: 0 <= x < |apps| ==> UniqueIds(apps[x].versions))
    && (forall x, y, v, w :: 0 <= x < |apps| && 0 <= y < |apps|
                             && v in apps[x].versions && w in apps[y].versions && v.id == w.id ==>
          x == y)
  }

  /** How releases are bound: an artifact's build was made from the version that uses it, or from none. */
  ghost predicate Bound(s: Snapshot, apps: seq<App>) {
    forall x, v, a, b :: 0 <= x < |apps| && v in apps[x].versions && a in s.artifacts && b in s.builds
                         && v.imageArtifactId == Some(a.id) && a.buildId == b.id ==>
      b.sourceVersionId.None? || b.sourceVersionId == Some(v.id)
  }

  /** An image that some version to be retired uses. */
  predicate UsedIn(s: Snapshot, vs: seq<Version>, k: nat, id: int) {
    exists w :: w in vs && Eligible(s, vs, k, w) && w.imageArtifactId == Some(id)
  }

  /** An image that some retired version used. */
  ghost predicate UsedByRetired(s: Snapshot, apps: seq<App>, k: nat, id: int) {
    exists x :: 0 <= x < |apps| && UsedIn(s, apps[x].versions, k, id)
  }

  lemma {:induction false} ArtifactOfUntouched(artifacts: seq<Artifact>, deleted: set<int>, buildId: int)
    requires forall a :: a in artifacts && a.buildId == buildId ==> a.id !in deleted
    ensures ArtifactOf(Without(artifacts, deleted), buildId) == ArtifactOf(artifacts, buildId)
  {
    if artifacts != [] {
      var n := |artifacts| - 1;
      ArtifactOfUntouched(artifacts[..n], deleted, buildId);
      if artifacts[n].id !in deleted {
        var after := Without(artifacts, deleted);
        assert after[|after| - 1] == artifacts[n] && after[..|after| - 1] == Without(artifacts[..n], deleted);
      } else {
        assert Without(artifacts, deleted) == Without(artifacts[..n], deleted);
      }
    }
  }

  lemma SameVersion(vs: seq<Version>, v: Version, w: Version)
    requires UniqueIds(vs) && v in vs && w in vs && v.id == w.id
    ensures v == w
  {
    var i :| 0 <= i < |vs| && vs[i] == v;
    var j :| 0 <= j < |vs| && vs[j] == w;
    assert i == j;
  }

  /** With proper binding, an image built for a protected version is used by no retired one. */
  lemma OwnImageIsNotReleased(s: Snapshot, apps: seq<App>, k: nat, x: nat, v: Version, b: Build, a: Artifact)
    requires UniqueVersions(apps) && Bound(s, apps) && x < |apps| && v in apps[x].versions
    requires Protected(v, s.builds, s.artifacts)
    requires b in s.builds && a in s.artifacts && a.buildId == b.id && b.sourceVersionId == Some(v.id)
    ensures !UsedByRetired(s, apps, k, a.id)
  {
    forall y, w | 0 <= y < |apps| && w in apps[y].versions && w.imageArtifactId == Some(a.id)
      ensures w == v
    {
      assert w.id == v.id && x == y;
      SameVersion(apps[x].versions, v, w);
    }
  }

  /** With proper binding, deleting the images of retired versions unprotects no other version. */
  lemma ProtectionRemains(s: Snapshot, t: Snapshot, deleted: set<int>, apps: seq<App>, k: nat, x: nat, v: Version)
    requires UniqueVersions(apps) && Bound(s, apps) && Later(s, t, deleted) && x < |apps| && v in apps[x].versions
    requires forall id :: id in deleted ==> UsedByRetired(s, apps, k, id)
    requires Protected(v, s.builds, s.artifacts)
    ensures Protected(v, t.builds, t.artifacts)
  {
    var i :| 0 <= i < |s.builds| && Protects(s.builds[i], v, s.artifacts);
    var b := s.builds[i];
    assert SameBuild(b, t.builds[i]);
    forall a | a in s.artifacts && a.buildId == b.id ensures a.id !in deleted {
      OwnImageIsNotReleased(s, apps, k, x, v, b, a);
    }
    ArtifactOfUntouched(s.artifacts, deleted, b.id);
    assert Protects(t.builds[i], v, t.artifacts);
  }

  /**
   * When artifacts are bound as `bindRelease` demands and every save was accepted, running the same prune again with
   * nothing else changed retires nothing, whichever of the released images and packages the store agreed to delete.
   */
  lemma SecondPruneRetiresNothing(s: Snapshot, t: Snapshot, deleted: set<int>, apps: seq<App>, k: nat, saves: set<int>,
                                  x: nat, i: nat)
    requires UniqueVersions(apps) && Bound(s, apps) && Later(s, t, deleted) && x < |apps| && i < |apps[x].versions|
    requires forall y :: 0 <= y < |apps| ==> Ids(EligibleVersions(s, apps[y].versions, k)) <= saves
    requires forall id :: id in deleted ==> UsedByRetired(s, apps, k, id)
    ensures var after := Pruned(s, apps[x].versions, k, saves); !Eligible(t, after, k, after[i])
  {
    SecondPruneRetiresTheUnprotected(s, t, deleted, apps[x].versions, k, saves, i);
    if Protected(apps[x].versions[i], s.builds, s.artifacts) {
      ProtectionRemains(s, t, deleted, apps, k, x, apps[x].versions[i]);
    }
  }

  // ----- without the binding -----

  const CURRENT := Version(0, 9, Active, Some(90), None, [])
  const KEPT := Version(1, 8, ImageReady, Some(80), None, [])
  const OLD := Version(2, 2, ImageReady, Some(20), Some(7), [])
  const WAITING := Version(3, 1, Uploaded, None, None, [])
  const LOOSE := Snapshot({}, [Build(5, Some(3), Succeeded, []), Build(6, Some(3), Failed, [])], [Artifact(7, 5)], [])

  lemma RetainsTheNewer()
    ensures var vs := [CURRENT, KEPT, OLD, WAITING];
            Current(vs) == Some(CURRENT) && Retained(vs, CURRENT, 1) == [KEPT]
  {
    var vs := [CURRENT, KEPT, OLD, WAITING];
    var p := (c: Version) => Rollback(CURRENT, c);
    assert vs[1..] == [KEPT, OLD, WAITING] && [KEPT, OLD, WAITING][1..] == [OLD, WAITING] &&
        [OLD, WAITING][1..] == [WAITING];
    assert Select([WAITING], p) == [];
    assert Select([OLD, WAITING], p) == [OLD];
    assert Select([KEPT, OLD, WAITING], p) == [KEPT, OLD];
    assert Select(vs, p) == [KEPT, OLD];
    assert [KEPT, OLD][1..] == [OLD];
    assert [OLD][1..] == [];
    assert SortBy([OLD], NewestFirst) == Insert(OLD, SortBy([OLD][1..], NewestFirst), NewestFirst) == [OLD];
    assert NewestFirst(KEPT) <= NewestFirst(OLD);
    assert ByRevision([KEPT, OLD]) == Insert(KEPT, SortBy([OLD], NewestFirst), NewestFirst) == [KEPT, OLD];
  }

  lemma EligibleAreAmong(s: Snapshot, vs: seq<Version>, k: nat, saves: set<int>)
    requires forall v :: v in vs ==> v.id in saves
    ensures Ids(EligibleVersions(s, vs, k)) <= saves
  {
    var eligible := EligibleVersions(s, vs, k);
    forall i | 0 <= i < |eligible| ensures eligible[i].id in saves {
      SelectedIsSelected(vs, u => Eligible(s, vs, k, u), eligible[i]);
      assert eligible[i] in vs;
    }
  }

  lemma FirstPruneTakesOld()
    ensures var vs := [CURRENT, KEPT, OLD, WAITING];
            && UniqueIds(vs) && Eligible(LOOSE, vs, 1, OLD) && !Eligible(LOOSE, vs, 1, WAITING)
            && Protected(WAITING, LOOSE.builds, LOOSE.artifacts) && Disposable(LOOSE, vs, CURRENT, 1, WAITING)
  {
    var vs := [CURRENT, KEPT, OLD, WAITING];
    RetainsTheNewer();
    assert Protects(LOOSE.builds[0], WAITING, LOOSE.artifacts);
    assert LOOSE.builds[1].sourceVersionId == Some(3);
  }

  /**
   * Image 7 was built for the waiting version but is used by the old one. The first prune retires the old version and
   * deletes the image, which was all that protected the waiting version; the second prune retires that one too.
   */
  lemma UnboundImageCostsAVersion()
    ensures var vs := [CURRENT, KEPT, OLD, WAITING];
            var after := Pruned(LOOSE, vs, 1, {0, 1, 2, 3});
            && Eligible(LOOSE, vs, 1, OLD) && !Eligible(LOOSE, vs, 1, WAITING)
            && Eligible(LOOSE.(artifacts := Without(LOOSE.artifacts, {7})), after, 1, after[3])
  {
    var vs := [CURRENT, KEPT, OLD, WAITING];
    var saves := {0, 1, 2, 3};
    var t := LOOSE.(artifacts := Without(LOOSE.artifacts, {7}));
    FirstPruneTakesOld();
    RetainsTheNewer();
    RetireeIsEligible(LOOSE, vs, 1, saves, vs[3]);
    EligibleAreAmong(LOOSE, vs, 1, saves);
    assert !Protected(WAITING, t.builds, t.artifacts) by { assert t.artifacts == []; }
    SecondPruneRetiresTheUnprotected(LOOSE, t, {7}, vs, 1, saves, 3);
  }
}
