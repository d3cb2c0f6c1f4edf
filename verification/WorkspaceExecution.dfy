/** The execution view of a legacy container row, the way back, and which changes of it are accepted. */
module WorkspaceExecution {
  import opened Common

  datatype ContainerStatus = Creating | Running | Stopped | Failed
  datatype ObservedState = Absent | Unknown | Seen(status: ContainerStatus)
  datatype DesiredState = WantRunning | WantStopped
  datatype TransactionStatus =
    Requested | Progressing | Applied | AwaitingFirstStart | RolledBack | TransactionFailed | Inconsistent
  datatype Role = ActiveRole | Candidate | Previous | Retired
  datatype WorkspaceStatus = Active | Deleting | Deleted
  datatype DeletionPhase =
    Draining | RemovingEnvironments | VerifyingReferences | ReleasingStorage | Finalizing | DeletedPhase

  /** A container row. The last three fields may be missing or null; both are `None`. */
  datatype Container = Container(
    id: string, userId: string, appId: string, providerId: Option<string>, runtimeId: string, status: ContainerStatus,
    endpoint: Option<string>, stopReason: Option<int>, createdAt: int, updatedAt: int, lastActivityAt: int,
    appVersionId: Option<string>, imageArtifactId: Option<string>, imageReference: Option<string>)

  datatype Workspace = Workspace(
    id: string, ownerId: string, appId: string, appRevisionId: Option<string>, storageRefId: string,
    activeExecutionId: Option<string>, status: WorkspaceStatus, deletionTransactionId: Option<string>,
    deletionPhase: Option<DeletionPhase>, deletionFailure: Option<string>, deletedAt: Option<int>,
    createdAt: int, updatedAt: int)

  datatype Execution = Execution(
    id: string, workspaceId: string, role: Role, providerId: string, environmentRef: Option<string>,
    desiredGeneration: int, deployedGeneration: int, healthyGeneration: Option<int>,
    transactionId: Option<string>, transactionStatus: TransactionStatus,
    desiredState: DesiredState, observedState: ObservedState,
    desiredAppRevisionId: Option<string>, desiredLaunchArtifactId: Option<string>,
    desiredLaunchArtifactReference: Option<string>,
    launchArtifactId: Option<string>, launchArtifactReference: Option<string>, revision: int,
    legacyEndpoint: Option<string>, stopReason: Option<int>, lastActivityAt: int,
    retiredAt: Option<int>, updatedAt: int)

  datatype Compatibility = Compatibility(runtimeId: string, status: ContainerStatus)

  datatype Projection = Projection(workspace: Workspace, execution: Execution, compatibility: Compatibility)

  datatype Error = ProjectionMismatch | GenerationRollback

  datatype Result<+T> = Ok(value: T) | Err(error: Error)

  const DOCKER := "docker"
  const PENDING := "pending"
  const DELETED := "deleted"

  // ----- provider ids -----

  function Lower(c: char): char { if 'A' <= c <= 'Z' then c + (32 as char) else c }

  function Lowered(s: string): string {
    seq(|s|, i requires 0 <= i < |s| => Lower(s[i]))
  }

  predicate IdChar(c: char) { 'a' <= c <= 'z' || '0' <= c <= '9' || c == '.' || c == '_' || c == '-' }

  predicate ValidProviderId(s: string) {
    1 <= |s| <= 64 && 'a' <= s[0] <= 'z' && forall i :: 0 <= i < |s| ==> IdChar(s[i])
  }

  function NormalProviderId(value: Option<string>): string {
    var normalized := Lowered(TrimEnd(TrimStart(value.GetOr(""))));
    if normalized == "" then DOCKER else normalized
  }

  lemma ValidIdIsNormal(s: string)
    requires ValidProviderId(s)
    ensures NormalProviderId(Some(s)) == s
  {
    assert !IsSpace(s[0]) && IdChar(s[|s| - 1]) && !IsSpace(s[|s| - 1]);
    forall i | 0 <= i < |s| ensures Lower(s[i]) == s[i] {
      assert IdChar(s[i]);
    }
    assert Lowered(s) == s;
  }

  lemma {:induction false} BlanksAreTrimmed(before: string, s: string, after: string)
    requires s != "" && !IsSpace(s[0]) && !IsSpace(s[|s| - 1])
    requires forall i :: 0 <= i < |before| ==> IsSpace(before[i])
    requires forall i :: 0 <= i < |after| ==> IsSpace(after[i])
    ensures TrimEnd(TrimStart(before + s + after)) == s
    decreases |before| + |after|
  {
    if before != [] {
      assert (before + s + after)[1..] == before[1..] + s + after;
      BlanksAreTrimmed(before[1..], s, after);
    } else if after != [] {
      var n := |after| - 1;
      assert (before + s + after)[0] == s[0];
      assert (s + after)[..|s| + n] == s + after[..n] && before + s + after == s + after;
      BlanksAreTrimmed(before, s, after[..n]);
      assert before + s + after[..n] == s + after[..n];
    } else {
      assert before + s + after == s;
    }
  }

  /**
   * A missing or blank id means the default provider; blanks around an id and the case of its letters do not matter.
   */
  lemma ProviderIdMeans(before: string, id: string, after: string)
    requires forall i :: 0 <= i < |before| ==> IsSpace(before[i])
    requires forall i :: 0 <= i < |after| ==> IsSpace(after[i])
    requires id != "" ==> !IsSpace(id[0]) && !IsSpace(id[|id| - 1])
    ensures NormalProviderId(None) == "docker"
    ensures id != "" ==>
              var normal := NormalProviderId(Some(before + id + after));
              |normal| == |id| &&
              forall i :: 0 <= i < |id| ==> normal[i] == if 'A' <= id[i] <= 'Z' then id[i] + (32 as char) else id[i]
    ensures NormalProviderId(Some(before)) == "docker"
  {
    assert Lowered("") == "";
    OnlyBlanks(before);
    if id != "" { BlanksAreTrimmed(before, id, after); }
  }

  lemma {:induction false} OnlyBlanks(s: string)
    requires forall i :: 0 <= i < |s| ==> IsSpace(s[i])
    ensures TrimStart(s) == ""
  {
    if s != "" { OnlyBlanks(s[1..]); }
  }

  // ----- projection and back -----

  function ExecutionId(workspaceId: string, providerId: string): string { workspaceId + ":" + providerId }

  function StorageRefId(workspaceId: string): string { "workspace-storage:" + workspaceId }

  function EnvironmentOf(runtimeId: string): Option<string> {
    if runtimeId == PENDING then None else Some(runtimeId)
  }

  function ProjectContainer(c: Container): Result<Projection> {
    var providerId := NormalProviderId(c.providerId);
    if !ValidProviderId(providerId) then Err(ProjectionMismatch)
    else
      var executionId := ExecutionId(c.id, providerId);
      Ok(Projection(
        Workspace(c.id, c.userId, c.appId, c.appVersionId, StorageRefId(c.id), Some(executionId), Active,
                  None, None, None, None, c.createdAt, c.updatedAt),
        Execution(executionId, c.id, ActiveRole, providerId, EnvironmentOf(c.runtimeId),
                  1, if c.status.Creating? then 0 else 1, if c.status.Running? then Some(1) else None,
                  Some("legacy-import:" + c.id),
                  if c.status.Creating? then Progressing else if c.status.Failed? then TransactionFailed else Applied,
                  if c.status.Stopped? then WantStopped else WantRunning, Seen(c.status),
                  c.appVersionId, c.imageArtifactId, c.imageReference, c.imageArtifactId, c.imageReference, 1,
                  c.endpoint, c.stopReason, c.lastActivityAt, None, c.updatedAt),
        Compatibility(c.runtimeId, c.status)))
  }

  predicate ActiveShape(p: Projection) {
    && !p.workspace.status.Deleted?
    && p.workspace.activeExecutionId == Some(p.execution.id)
    && p.execution.role.ActiveRole?
    && p.execution.environmentRef == EnvironmentOf(p.compatibility.runtimeId)
  }

  predicate DeletedShape(p: Projection) {
    && p.workspace.status.Deleted?
    && p.workspace.activeExecutionId.None?
    && p.execution.role.Retired?
    && p.execution.environmentRef.None?
    && p.execution.observedState.Absent?
    && p.compatibility.runtimeId == DELETED
    && p.compatibility.status.Stopped?
  }

  predicate ValidDeletionState(w: Workspace) {
    if w.status.Active? then
      w.deletionTransactionId.None? && w.deletionPhase.None? && w.deletionFailure.None? && w.deletedAt.None?
    else
      && w.deletionTransactionId.GetOr("") != "" && w.deletionPhase.Some?
      && if w.status.Deleting? then !w.deletionPhase.value.DeletedPhase? && w.deletedAt.None?
         else w.deletionPhase.value.DeletedPhase? && w.deletedAt.Some?
  }

  function ProjectExecution(p: Projection): Result<Container> {
    if (!ActiveShape(p) && !DeletedShape(p))
       || p.execution.workspaceId != p.workspace.id
       || !ValidProviderId(p.execution.providerId)
       || (!p.workspace.status.Deleted? && p.execution.observedState != Seen(p.compatibility.status))
       || p.execution.desiredGeneration < p.execution.deployedGeneration
       || (p.execution.healthyGeneration.Some? && p.execution.healthyGeneration.value > p.execution.deployedGeneration)
       || p.execution.revision < 1
       || !ValidDeletionState(p.workspace)
    then Err(ProjectionMismatch)
    else Ok(Container(
      p.workspace.id, p.workspace.ownerId, p.workspace.appId,
      if p.execution.providerId == DOCKER then None else Some(p.execution.providerId),
      p.compatibility.runtimeId, p.compatibility.status, p.execution.legacyEndpoint, p.execution.stopReason,
      p.workspace.createdAt, p.execution.updatedAt, p.execution.lastActivityAt,
      p.workspace.appRevisionId, p.execution.launchArtifactId, p.execution.launchArtifactReference))
  }

  /** The same row with its provider id normalised and the default provider left out. */
  function NormalContainer(c: Container): Container {
    var providerId := NormalProviderId(c.providerId);
    c.(providerId := if providerId == DOCKER then None else Some(providerId))
  }

  /**
   * A container is projected exactly if its normalised provider id is valid; the projection is always accepted on the
   * way back, which returns the row with nothing but the provider id normalised.
   */
  lemma ContainerRoundTrip(c: Container)
    ensures ProjectContainer(c).Ok? <==> ValidProviderId(NormalProviderId(c.providerId))
    ensures ProjectContainer(c).Ok? ==> ProjectExecution(ProjectContainer(c).value) == Ok(NormalContainer(c))
  {
  }

  /**
   * What a container row says of its execution: it is wanted running unless it was stopped, deployed unless it is still
   * being created, healthy exactly while it runs, and bound to the environment unless that is pending; the import
   * counts as applied once the container is neither being created nor failed.
   */
  lemma ProjectionMeans(c: Container)
    requires ProjectContainer(c).Ok?
    ensures var p := ProjectContainer(c).value;
            && p.workspace.id == c.id && p.workspace.ownerId == c.userId && p.workspace.appId == c.appId
            && p.workspace.appRevisionId == c.appVersionId && p.workspace.status.Active?
            && p.workspace.storageRefId == "workspace-storage:" + c.id
            && p.workspace.activeExecutionId == Some(p.execution.id) && p.execution.workspaceId == c.id
            && p.execution.id == c.id + ":" + p.execution.providerId && p.execution.role.ActiveRole?
            && (p.execution.environmentRef == if c.runtimeId == "pending" then None else Some(c.runtimeId))
            && p.execution.observedState == Seen(c.status)
            && (p.execution.desiredState.WantStopped? <==> c.status.Stopped?)
            && (p.execution.deployedGeneration == if c.status.Creating? then 0 else 1)
            && p.execution.desiredGeneration == 1 && p.execution.revision == 1
            && (p.execution.healthyGeneration == if c.status.Running? then Some(1) else None)
            && (p.execution.transactionStatus.Progressing? <==> c.status.Creating?)
            && (p.execution.transactionStatus.TransactionFailed? <==> c.status.Failed?)
            && (p.execution.transactionStatus.Applied? <==> c.status.Running? || c.status.Stopped?)
            && p.execution.transactionId == Some("legacy-import:" + c.id)
            && p.execution.desiredAppRevisionId == c.appVersionId && p.execution.retiredAt.None?
            && p.execution.desiredLaunchArtifactId == p.execution.launchArtifactId == c.imageArtifactId
            && p.execution.desiredLaunchArtifactReference == p.execution.launchArtifactReference == c.imageReference
  {
  }

  /** When an execution can be shown as a container row, and what the row says. */
  lemma RowMeans(p: Projection)
    ensures ProjectExecution(p).Ok? <==>
              var (w, e, c) := (p.workspace, p.execution, p.compatibility);
              && e.workspaceId == w.id && ValidProviderId(e.providerId) && e.revision >= 1
              && e.healthyGeneration.GetOr(e.deployedGeneration) <= e.deployedGeneration <= e.desiredGeneration
              && (match w.status
                  case Deleted =>
                    && w.activeExecutionId.None? && e.role.Retired? && e.environmentRef.None? && e.observedState.Absent?
                    && c.runtimeId == "deleted" && c.status.Stopped?
                    && w.deletionTransactionId.Some? && w.deletionTransactionId != Some("")
                    && w.deletionPhase == Some(DeletedPhase) && w.deletedAt.Some?
                  case _ =>
                    && w.activeExecutionId == Some(e.id) && e.role.ActiveRole? && e.observedState == Seen(c.status)
                    && (e.environmentRef == if c.runtimeId == "pending" then None else Some(c.runtimeId))
                    && w.deletedAt.None?
                    && (w.status.Active? ==>
                          w.deletionTransactionId.None? && w.deletionPhase.None? && w.deletionFailure.None?)
                    && (w.status.Deleting? ==>
                          && w.deletionTransactionId.Some? && w.deletionTransactionId != Some("")
                          && w.deletionPhase.Some? && w.deletionPhase != Some(DeletedPhase)))
    ensures ProjectExecution(p).Ok? ==>
              var c := ProjectExecution(p).value;
              && c.id == p.workspace.id && c.userId == p.workspace.ownerId && c.appId == p.workspace.appId
              && c.runtimeId == p.compatibility.runtimeId && c.status == p.compatibility.status
              && c.providerId.GetOr("docker") == p.execution.providerId && c.providerId != Some("docker")
              && c.endpoint == p.execution.legacyEndpoint && c.stopReason == p.execution.stopReason
              && c.createdAt == p.workspace.createdAt && c.updatedAt == p.execution.updatedAt
              && c.lastActivityAt == p.execution.lastActivityAt && c.appVersionId == p.workspace.appRevisionId
              && c.imageArtifactId == p.execution.launchArtifactId
              && c.imageReference == p.execution.launchArtifactReference
  {
  }

  /** Going round once more changes nothing: the returned row projects to the same execution. */
  lemma RoundTripIsStable(c: Container)
    requires ProjectContainer(c).Ok?
    ensures NormalContainer(NormalContainer(c)) == NormalContainer(c)
    ensures ProjectContainer(NormalContainer(c)) == ProjectContainer(c)
  {
    var providerId := NormalProviderId(c.providerId);
    ValidIdIsNormal(providerId);
    assert ValidProviderId(DOCKER);
    assert Lowered("") == "";
  }

  /**
   * The other way round: a live execution whose ids are derived from its workspace and provider survives the detour
   * through a container row, except that deletion progress and the history of generations and transactions start anew.
   */
  lemma ExecutionRoundTrip(p: Projection)
    requires ProjectExecution(p).Ok? && !p.workspace.status.Deleted?
    requires p.execution.id == ExecutionId(p.workspace.id, p.execution.providerId)
    requires p.workspace.storageRefId == StorageRefId(p.workspace.id)
    ensures var c := ProjectExecution(p).value;
            && NormalContainer(c) == c
            && ProjectContainer(c).Ok?
            && var q := ProjectContainer(c).value;
               && q.compatibility == p.compatibility
               && q.workspace == p.workspace.(status := Active, deletionTransactionId := None, deletionPhase := None,
                                              deletionFailure := None, deletedAt := None,
                                              updatedAt := p.execution.updatedAt)
               && q.execution == p.execution.(
                    desiredGeneration := q.execution.desiredGeneration,
                    deployedGeneration := q.execution.deployedGeneration,
                    healthyGeneration := q.execution.healthyGeneration, transactionId := q.execution.transactionId,
                    transactionStatus := q.execution.transactionStatus, desiredState := q.execution.desiredState,
                    desiredAppRevisionId := p.workspace.appRevisionId,
                    desiredLaunchArtifactId := p.execution.launchArtifactId,
                    desiredLaunchArtifactReference := p.execution.launchArtifactReference,
                    revision := 1, retiredAt := None)
  {
    ValidIdIsNormal(p.execution.providerId);
    assert Lowered("") == "";
  }

  // ----- transitions -----

  function Generation(value: Option<int>): int { value.GetOr(-1) }

  predicate StatusMoves(current: WorkspaceStatus, next: WorkspaceStatus) {
    match current
    case Active => next.Active? || next.Deleting?
    case Deleting => next.Deleting? || next.Deleted?
    case Deleted => next.Deleted?
  }

  /** `None` when the change is accepted. */
  function AssertTransition(current: Projection, next: Projection): Option<Error> {
    if ProjectExecution(current).Err? || ProjectExecution(next).Err? then Some(ProjectionMismatch)
    else if current.workspace.id != next.workspace.id
         || current.workspace.ownerId != next.workspace.ownerId
         || current.workspace.createdAt != next.workspace.createdAt
         || current.workspace.storageRefId != next.workspace.storageRefId
         || current.execution.id != next.execution.id
         || current.execution.workspaceId != next.execution.workspaceId
         || current.execution.providerId != next.execution.providerId
         || !StatusMoves(current.workspace.status, next.workspace.status)
    then Some(ProjectionMismatch)
    else if next.execution.desiredGeneration < current.execution.desiredGeneration
         || next.execution.deployedGeneration < current.execution.deployedGeneration
         || Generation(next.execution.healthyGeneration) < Generation(current.execution.healthyGeneration)
    then Some(GenerationRollback)
    else None
  }

  /**
   * A change is accepted exactly if both projections can be shown as rows, identity, provider and storage stay,
   * deletion moves at most one stage on, and no generation falls; falling generations are reported as such.
   */
  lemma TransitionMeans(current: Projection, next: Projection)
    ensures var shown := ProjectExecution(current).Ok? && ProjectExecution(next).Ok?;
            var moves := Stage(current.workspace.status) <= Stage(next.workspace.status)
                           <= Stage(current.workspace.status) + 1;
            AssertTransition(current, next)
              == if !shown || !SameIdentity(current, next) || !moves then Some(ProjectionMismatch)
                 else if NoRollback(current, next) then None else Some(GenerationRollback)
  {
  }

  /** A run: every change from one projection to the next was accepted. */
  predicate Accepted(run: seq<Projection>) {
    forall i :: 0 < i < |run| ==> AssertTransition(run[i - 1], run[i]).None?
  }

  predicate SameIdentity(a: Projection, b: Projection) {
    && a.workspace.id == b.workspace.id && a.workspace.ownerId == b.workspace.ownerId
    && a.workspace.createdAt == b.workspace.createdAt && a.workspace.storageRefId == b.workspace.storageRefId
    && a.execution.id == b.execution.id && a.execution.workspaceId == b.execution.workspaceId
    && a.execution.providerId == b.execution.providerId
  }

  predicate NoRollback(a: Projection, b: Projection) {
    && a.execution.desiredGeneration <= b.execution.desiredGeneration
    && a.execution.deployedGeneration <= b.execution.deployedGeneration
    && Generation(a.execution.healthyGeneration) <= Generation(b.execution.healthyGeneration)
  }

  function Stage(status: WorkspaceStatus): nat {
    match status case Active => 0 case Deleting => 1 case Deleted => 2
  }

  /** Over every accepted run: identity and provider stay, no generation falls and deletion never goes back. */
  lemma {:induction false} RunKeepsIdentityAndGenerations(run: seq<Projection>, i: nat, j: nat)
    requires Accepted(run) && i <= j < |run|
    ensures SameIdentity(run[i], run[j]) && NoRollback(run[i], run[j])
    ensures Stage(run[i].workspace.status) <= Stage(run[j].workspace.status)
    decreases j - i
  {
    if i < j {
      RunKeepsIdentityAndGenerations(run, i, j - 1);
      assert AssertTransition(run[j - 1], run[j]).None?;
    }
  }

  /** Nothing is deleted without having been deleting first. */
  lemma {:induction false} DeletedOnlyThroughDeleting(run: seq<Projection>, i: nat, j: nat) returns (k: nat)
    requires Accepted(run) && i <= j < |run|
    requires run[i].workspace.status.Active? && run[j].workspace.status.Deleted?
    ensures i < k < j && run[k].workspace.status.Deleting?
    decreases j - i
  {
    assert i != j;
    assert AssertTransition(run[j - 1], run[j]).None?;
    if run[j - 1].workspace.status.Deleting? {
      k := j - 1;
    } else {
      k := DeletedOnlyThroughDeleting(run, i, j - 1);
    }
  }

  /** In a run of at least two projections, each one has healthy at most deployed at most desired generation. */
  lemma GenerationsStayOrdered(run: seq<Projection>, i: nat)
    requires Accepted(run) && i < |run| && 1 < |run|
    ensures Generation(run[i].execution.healthyGeneration) <= run[i].execution.deployedGeneration ||
        run[i].execution.healthyGeneration.None?
    ensures run[i].execution.deployedGeneration <= run[i].execution.desiredGeneration
    ensures ProjectExecution(run[i]).Ok?
  {
    assert AssertTransition(run[0], run[1]).None?;
    if i > 0 { assert AssertTransition(run[i - 1], run[i]).None?; }
  }

  /** Everything that grows out of a projected container keeps the ids derived from the container and its provider. */
  lemma IdsStayDerived(c: Container, run: seq<Projection>, i: nat)
    requires Accepted(run) && i < |run| && ProjectContainer(c) == Ok(run[0])
    ensures run[i].workspace.id == c.id && run[i].workspace.storageRefId == StorageRefId(c.id)
    ensures run[i].execution.providerId == NormalProviderId(c.providerId)
    ensures run[i].execution.id == ExecutionId(c.id, NormalProviderId(c.providerId))
    ensures run[i].execution.desiredGeneration >= 1
    ensures !c.status.Creating? ==> run[i].execution.deployedGeneration >= 1
    ensures c.status.Running? ==>
        run[i].execution.healthyGeneration.Some? && run[i].execution.healthyGeneration.value >= 1
  {
    RunKeepsIdentityAndGenerations(run, 0, i);
  }
}
