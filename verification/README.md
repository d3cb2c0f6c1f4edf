# Verification of the control plane's protocols

This project models the stateful core of a control plane that gives each user a container, and proves what its
protocols promise. It consists of independent models, one per component:

- **Administrator operations** (`OperationRecords`, `OperationStore`, `OperationManager`, `OperationProtocol`,
  `OperationSafety`, `OperationProgress`, `OperationRetry`): durable records move from queued over running to a terminal
  status by optimistic compare-and-save. `OperationStore` is the in-memory store, `OperationManager` the manager's loops over it.
  `OperationProtocol` interleaves any number of managers, stale recovery, pruning and retries on one record, one step per
  stretch between two awaits; `OperationSafety` holds the theorems over whole runs, `OperationProgress` says that
  the calls take effect. `OperationRetry` interleaves retries over all records.
- **Upgrade safety** (`UpgradeActivity`, `LeaseSession`): the decision that an instance was quiet for a whole window, and
  the queue of a lease session.
- **Forwarding policy cache** (`ForwardingCache`, `ForwardingWindow`, `ForwardingProgress`): a revision-bracketed read
  with a generation counter, used by concurrent gets and updates.
- **Graph copy** (`GraphCopy`): deep copy and deep freeze over heap graphs with cycles and sharing.
- **Capacity and quota** (`Capacity`, `CapacityEveryRun`, `CapacityProgress`, `InstanceLifecycle`, `QuotaLedger`,
  `QuotaLimits`, `QuotaAdmission`, `LifecycleQuota`): instance limits kept by a `creating` row while slow work runs
  outside the lock, the resource ledger over four kinds of scope and eight dimensions, and the two together.
- **Retention** (`RetentionPolicy`, `RetentionRule`, `ResourceCleanup`), **build strategies** (`StrategyContracts`,
  `ImageBuilds`), **proxy addresses** (`ProxyAddress`), **request fingerprints** (`OperationFingerprint`) and the
  **execution view** of container rows (`WorkspaceExecution`). `Sorting` holds the stable sort and selection that several of them use.

Concurrent components appear twice: as a class whose methods do what the code does between two awaits, proved against
functions on values, and as a machine that interleaves those functions in every possible order. Times, ids and results
are integers; texts are strings where their characters matter. Store and runtime calls are atomic: each takes effect and
answers, or does nothing.

The functions that both share are pinned down twice more: by contracts and lemmas that say on the stored fields when each
outcome occurs and what it leaves, and by lemmas that a call which nothing disturbs takes effect, so that neither a
wrongly refused request nor a step that does nothing would go unnoticed.

Where the code does less than one might expect, the model follows the code and a lemma shows the case:

- The running limit can be exceeded once a live container is disowned: a provision throws after its container came up
  and the row is marked failed, or a start is cut off between the runtime call and the store. A later sync turns that row
  back to running (`CapacitySafety.DisownedContainerOverbooks`). `CapacitySafety.StepKeepsInv` says exactly which steps
  do this, and `CapacityEveryRun.DisowningCanOverbook` that each of them can lead to overbooking whenever more containers
  may exist than may run. The total limit and one container per user hold regardless. The stored answer of a start is
  returned without being awaited inside its `try`, so a rejected one skips the recovery branch.
- A confirmation confirms the observation it captured before its awaits. Two that overlap can both answer ready on one
  assessment (`UpgradeActivityRuns.OverlappingConfirmations`), and one can answer ready although an assessment has found a
  reason against it meanwhile (`UpgradeActivityRuns.ContradictedConfirmation`). Both cases are characterised exactly.
- A write of another policy between an update's write and its revision read pairs a policy with another's revision
  (`ForwardingRuns.WindowIsNeeded`). Every such write can lead to a stale answer
  (`ForwardingWindow.DisturbingCanAnswerStale`), and without one there is none (`ForwardingRuns.AnswersAreFreshEnough`).
- A task that reports the stage `cancelling` ends cancelled although nobody cancelled it
  (`OperationSafety.ReservedStageBreaksCompletion`).
- Registration reads before it saves, so racing registrations can reuse a revision (`RegistrationRuns.RacingRegistrationsCollide`).
- An image bound to another version than its build's source can cost that version its protection
  (`RetentionSafety.UnboundImageCostsAVersion`).
- The rollback of a failed stop can be denied when the reservation was not running before the stop. A start that throws
  although its container came up moves the reservation back to stopped and then stores the container as running; a later
  stop is granted without taking anything, and its rollback asks for a place like any newcomer
  (`QuotaSafety.RollbackWithoutStop`, `QuotaSafety.RollbackCanBeDenied`).
- The proxy refuses requests that repeat a query name, since the second one conflicts with the first, and a rewritten
  redirect keeps the endpoint's own fragment.

## Model

| member | source | states |
|---|---|---|
| OperationStore.MemoryOperationStore.CreateOperation | backend/src/admin-operations.ts:99-108 | a second create of one actor under the same idempotency key answers the first record and stores nothing; otherwise the record is stored as it is |
| OperationStore.MemoryOperationStore.CompareAndSave | backend/src/admin-operations.ts:110-116 | a save takes effect exactly while the row has the expected revision, raises it by one and touches no other row |
| OperationStore.MemoryOperationStore.RecoverStaleOperations | backend/src/admin-operations.ts:118-137 | exactly the queued or running rows whose heartbeat, else start, else creation is not after the cutoff fail with the given end and are listed once, every other row untouched |
| OperationStore.MemoryOperationStore.PruneFinishedOperations | backend/src/admin-operations.ts:172-180 | exactly the terminal rows finished before the cutoff disappear and are counted |
| OperationManager.AdminOperationManager.Cancel | backend/src/admin-operations.ts:291-318 | the five-attempt loop against a rival before every save: refused exactly if the record read is missing, finished or not cancellable; a queued one ends cancelled with its end and next revision, a running one is asked to stop, and its controller is aborted; without a rival there is no conflict |
| OperationManager.AdminOperationManager.CommitPoint | backend/src/admin-operations.ts:412-434 | the ten-attempt commit loop: refused exactly if aborted, missing, not running or being cancelled, else the record can no longer be cancelled; every way out but success aborts the task |
| OperationManager.AdminOperationManager.Complete | backend/src/admin-operations.ts:455-485 | the ten-attempt terminal save: a running record ends cancelled exactly if aborted or asked to stop before its commit point, else as the task did, any other record is left alone |
| OperationManager.CompletionMeans | backend/src/admin-operations.ts:455-485 | the terminal record field by field: when it is cancelled, what progress, stage, result, partial result, error and end it shows, and that nothing else changes |
| OperationManager.AdminOperationManager.Finish | backend/src/admin-operations.ts:466-477 | the terminal record written field by field is the one the protocol speaks of |
| OperationManager.AdminOperationManager.Report | backend/src/admin-operations.ts:391-411 | one attempt; a changed record or a lost save aborts the task |
| OperationManager.AdminOperationManager.Claim | backend/src/admin-operations.ts:367-379 | only a stored claim registers the controller |
| OperationManager.AdminOperationManager.TouchHeartbeat | backend/src/admin-operations.ts:487-503 | one attempt; anything but a stored heartbeat aborts the task |
| OperationManager.AdminOperationManager.MarkStartFailure | backend/src/admin-operations.ts:505-524 | a queued operation whose claim threw is failed for good, any other left alone |
| OperationManager.AdminOperationManager.Retry | backend/src/admin-operations.ts:320-361 | a retry takes the flag and starts one child; a failed start restores the flag unless the record was pruned, a missing task forfeits it, and a record that moved first is a conflict |
| OperationSafety.CommitExcludesCancel | backend/src/admin-operations.ts:291-318 | in every interleaving of managers, recovery, pruning and retries a successful commit point and an accepted cancel never both happen; committed never ends cancelled, cancelled never ends succeeded, and cancelled needs an accepted cancel |
| OperationSafety.CompletionReportsTheTruth | backend/src/admin-operations.ts:455-485 | the terminal write says cancelled exactly if a cancel was accepted before, and else what the task did, even if a later report overwrote the finalizing stage |
| OperationSafety.InterferenceIsBounded | backend/src/admin-operations.ts:412-434 | other managers spoil at most two saves of an executor call, so the exhausted-retry throws of commit point and completion are unreachable |
| OperationSafety.ClaimedAtMostOnce | backend/src/admin-operations.ts:363-379 | a task is claimed at most once, never after a queued cancel; progress is 100 exactly on success, an error exactly on failure, a finish time exactly when terminal |
| OperationSafety.StepMovesRow | backend/src/admin-operations.ts:110-137 | every step leaves the record, prunes a terminal one, or stores its next revision with the same identity and never a regained cancellability |
| OperationSafety.StepIsLifecycleMove | backend/src/admin-operations.ts:363-524 | apart from the retry's own write every step is a lifecycle move; the retry model relies on it |
| OperationSafety.TerminalIsFinal | backend/src/admin-operations.ts:455-485 | over every later run a terminal record keeps all but its retry flag and revision |
| OperationSafety.StepKeepsInv | backend/src/admin-operations.ts:291-524 | every step of every manager keeps the invariant behind these theorems |
| OperationSafety.ReservedStageBreaksCompletion | backend/src/admin-operations.ts:470-471 | the demand on tasks is needed: one that reports the stage word cancelling ends cancelled though nobody cancelled it |
| OperationProgress.CancelTakesEffect | backend/src/admin-operations.ts:291-318 | in any world an undisturbed cancel cancels a cancellable queued operation on the spot, asks a running one to stop and aborts its controller, and changes nothing exactly if the operation is missing, finished or not cancellable |
| OperationProgress.ClaimTakesEffect | backend/src/admin-operations.ts:363-379 | an undisturbed claim starts exactly a queued operation under this manager |
| OperationProgress.ReportTakesEffect | backend/src/admin-operations.ts:391-411 | an undisturbed report of a running task that is not being cancelled stores progress and stage, any other aborts the task |
| OperationProgress.CommitTakesEffect | backend/src/admin-operations.ts:412-434 | an undisturbed task passes its commit point unless it was aborted, is being cancelled or does not run |
| OperationProgress.CompletionTakesEffect | backend/src/admin-operations.ts:455-485 | the end of a running task is stored, cancelled exactly if it was stopped before its commit point |
| OperationProgress.HeartbeatTakesEffect | backend/src/admin-operations.ts:487-503 | a heartbeat of a running operation shows in its record and nowhere else |
| OperationProgress.StartFailureTakesEffect | backend/src/admin-operations.ts:505-524 | a claim that hit a store fault fails the waiting operation for good |
| OperationProgress.LostSavesAreRetried | backend/src/admin-operations.ts:293-316 | a lost save is followed by another attempt exactly while fewer than five of a cancel, ten of a commit or completion were lost |
| OperationProgress.RecoveryTakesEffect | backend/src/admin-operations.ts:274-289 | recovery fails exactly a waiting or running record without a sign of life since the cutoff and aborts the task this manager runs |
| OperationProgress.PruningTakesEffect | backend/src/admin-operations.ts:172-182 | pruning removes exactly a record that finished before the cutoff |
| OperationProgress.UndisturbedTaskSucceeds | backend/src/admin-operations.ts:363-443 | a fresh operation that nobody disturbs can run, commit and end succeeded with its result |
| OperationProgress.CancelledTaskEndsCancelled | backend/src/admin-operations.ts:291-485 | a cancellable operation that another manager cancels while it runs ends cancelled, whatever its task returns |
| OperationProgress.CancelledWhileQueuedNeverStarts | backend/src/admin-operations.ts:291-379 | one that is cancelled while it waits is never started by a later claim |
| OperationRetry.AtMostOneRetryChild | backend/src/admin-operations.ts:320-361 | without an explicit task an operation gets at most one retry child however retries, recovery and pruning interleave |
| OperationRetry.RetriesFormChains | backend/src/admin-operations.ts:320-361 | retry links of such children form disjoint chains that lead back in time to one origin |
| OperationRetry.TakingCarriesTheFlag | backend/src/admin-operations.ts:328-340 | taking the flag removes from the record exactly what the retry then carries |
| OperationRetry.FailedRetryGivesBack | backend/src/admin-operations.ts:341-358 | a retry whose start fails stores exactly the taken record with its flag restored, unless retention pruned it |
| OperationRetry.FailedStartReachesGiveBack | backend/src/admin-operations.ts:350-355 | after a failed start the reread always finds the record as taken, or pruned, and waits with exactly that record for the last save |
| OperationRetry.RetryTakesEffect | backend/src/admin-operations.ts:320-349 | an undisturbed retry with a task, or with flag and remembered task, starts one child that carries the flag on |
| OperationRetry.RetryIsRefused | backend/src/admin-operations.ts:322-325 | a retry of a record that is missing, not failed or cancelled, or not retryable changes nothing |
| OperationRetry.FailedRetryTakesNothing | backend/src/admin-operations.ts:350-357 | a retry whose start fails leaves the record as it was but for its revision |
| OperationRetry.StepKeepsInv | backend/src/admin-operations.ts:139-151 | every step under the per-id retry lock keeps the flag in one place: the record, the section, or one child |
| ForwardingCache.ForwardingPolicyManager.Begin | backend/src/forwarding-policy.ts:58-67 | a fresh cached policy is answered, else a read of the current generation begins |
| ForwardingCache.ForwardingPolicyManager.RevisionBeforeRead | backend/src/forwarding-policy.ts:71-75 | after the first revision read: superseded or revalidated calls answer the cache, only the latter touch its age |
| ForwardingCache.ForwardingPolicyManager.RevisionAfterRead | backend/src/forwarding-policy.ts:84-106 | after the second revision read: superseded, start over (five attempts), or publish |
| ForwardingCache.ForwardingPolicyManager.UpdateWritten | backend/src/forwarding-policy.ts:147-155 | an update publishes its policy and generation before it yields |
| ForwardingCache.ForwardingPolicyManager.UpdateRevisionRead | backend/src/forwarding-policy.ts:153-155 | the revision read last is stored and nothing else |
| ForwardingCache.ForwardingPolicyManager.Invalidate | backend/src/forwarding-policy.ts:160-162 | only the age of the cache is forgotten |
| ForwardingRuns.AnswersAreFreshEnough | backend/src/forwarding-policy.ts:58-108 | under any interleaving of gets, updates and foreign writers, as long as nobody writes another policy inside an update's window, every answer was the durable policy at some moment between the call's beginning and its answer, or less than the time-to-live before it began |
| ForwardingRuns.StepKeepsInv | backend/src/forwarding-policy.ts:58-157 | every stretch keeps cached policy, revision and generation matched to moments of the durable history |
| ForwardingRuns.WindowIsNeeded | backend/src/forwarding-policy.ts:147-156 | a foreign write between an update's write and its revision read leads to an answer that was durable neither during the call nor within the time-to-live |
| ForwardingWindow.DisturbingCanAnswerStale | backend/src/forwarding-policy.ts:147-156 | the demand on writers is exact: after any undisturbed run, any write of another policy inside an update's window has a continuation without further writes in which a get answers a policy that was durable neither during the call nor within the time-to-live |
| ForwardingCache.ForwardingPolicyManager.ListRead | backend/src/forwarding-policy.ts:78-84 | after the policy was read: an overtaken call answers the cache, any other goes on |
| ForwardingProgress.GetTakesEffect | backend/src/forwarding-policy.ts:58-108 | an undisturbed get answers the cached policy if it is young or its revision still durable, else the durable policy or the default, and caches it |
| ForwardingProgress.UpdateTakesEffect | backend/src/forwarding-policy.ts:136-156 | an undisturbed update makes its policy durable and caches it with its own revision |
| ForwardingProgress.InvalidatedIsReadAgain | backend/src/forwarding-policy.ts:58-161 | after an invalidation a get answers the durable policy, unless the cached one still has the durable revision |
| ForwardingProgress.UpdateIsRead | backend/src/forwarding-policy.ts:58-156 | a get after an undisturbed update answers its policy, however much later |
| GraphCopy.CloneData | backend/src/legacy-host.ts:214-229 | the recursion with half-built nodes: it ends on every finite graph and completes exactly the copies it began |
| GraphCopy.Clone | backend/src/legacy-host.ts:214-229 | the copy is isomorphic to exactly the reachable part, made only of new objects, with the originals untouched |
| GraphCopy.SamePaths | backend/src/legacy-host.ts:214-229 | every path of entries leads in the copy to the counterpart of what it leads to in the original |
| GraphCopy.SameSharing | backend/src/legacy-host.ts:214-229 | two paths meet in one object of the copy exactly if they do in the original |
| GraphCopy.FreezeData | backend/src/legacy-host.ts:231-241 | the recursion freezes what it newly sees and nothing else |
| GraphCopy.Freeze | backend/src/legacy-host.ts:231-241 | exactly the reachable objects become frozen, no entry changes, frozen ones stay frozen |
| UpgradeActivity.InstanceUpgradeActivityPolicy.AssessInstance | backend/src/instance-upgrade-activity.ts:395-459 | one assessment on its inputs: which of open HTTP lease, active websocket, unreadable or recent timestamp, missing metrics and missing quiet window decides, exactly when it is ready, and what both maps remember |
| UpgradeActivity.InstanceUpgradeActivityPolicy.ConfirmInstance | backend/src/instance-upgrade-activity.ts:461-512 | one confirmation on its inputs: exactly when it is ready, what forbids it, and that the ready observation is consumed by every answer |
| UpgradeActivityRuns.ReadyMeansQuietWindow | backend/src/instance-upgrade-activity.ts:395-459 | over every run of overlapping calls a ready answer has a baseline sample at least one window old; since then every look and the assessment itself saw no HTTP lease, no websocket active within the window and a readable timestamp, one window old for assessments, and every sample the same counters and low CPU |
| UpgradeActivityRuns.ConfirmationRestsOnAssessment | backend/src/instance-upgrade-activity.ts:461-512 | a ready confirmation saw no HTTP lease, no active websocket, the timestamp and counters of a ready assessment of the same rollout and attempt, untouched until it began, and until the answer exactly if nothing touched it meanwhile |
| UpgradeActivityRuns.ConfirmsAtMostOnce | backend/src/instance-upgrade-activity.ts:439-445 | a confirmation that begins after another was answered ready rests on a new ready assessment made since, and shares none with it |
| UpgradeActivityRuns.SharedExactlyIfUntouchedBetween | backend/src/instance-upgrade-activity.ts:461-506 | two ready confirmations of an instance share a ready assessment if and only if nothing touched its ready observation between their beginnings |
| UpgradeActivityRuns.OverlappingConfirmations | backend/src/instance-upgrade-activity.ts:461-506 | the counterexample: two overlapping confirmations both answer ready on one observation |
| UpgradeActivityRuns.ContradictedConfirmation | backend/src/instance-upgrade-activity.ts:461-506 | the other counterexample: an assessment that sees an open lease while a confirmation runs does not stop that one from answering ready |
| UpgradeActivityRuns.StepKeepsInv | backend/src/instance-upgrade-activity.ts:395-517 | every stretch keeps baseline and ready observation explained by the log |
| LeaseSession.ActivityLeaseSession.CallTouch | backend/src/instance-upgrade-activity.ts:207-225 | a touch is queued exactly if open, unfailed, due and not queued yet |
| LeaseSession.ActivityLeaseSession.CallClose | backend/src/instance-upgrade-activity.ts:227-238 | the first close queues one close job and later ones nothing |
| LeaseSession.ActivityLeaseSession.Fail | backend/src/instance-upgrade-activity.ts:274-282 | the first failure aborts and closes, later ones do nothing |
| LeaseSession.ActivityLeaseSession.RunNext | backend/src/instance-upgrade-activity.ts:207-272 | the next queued job rechecks the session when its turn comes |
| LeaseSession.ActivityLeaseSession.ReceiveAnswer | backend/src/instance-upgrade-activity.ts:218-224 | a store answer ends the job: failure closes the session, a written activity is remembered |
| LeaseSession.CallsAreOrderedAndSpaced | backend/src/instance-upgrade-activity.ts:203-282 | for every interleaving the store sees renewals, then at most one close, then nothing, and activity writes at least the interval apart |
| LeaseSession.CloseIsNeverLost | backend/src/instance-upgrade-activity.ts:227-282 | a closed or failed session has its close issued or still queued, never both, and no other session has |
| LeaseSession.HeartbeatRenews | backend/src/instance-upgrade-activity.ts:203-205 | at its turn a heartbeat of an open session renews the lease |
| LeaseSession.TouchWrites | backend/src/instance-upgrade-activity.ts:207-225 | at its turn a touch of an open session writes the activity if still due and is forgotten otherwise |
| LeaseSession.ClosedSessionsClose | backend/src/instance-upgrade-activity.ts:227-282 | from every reachable state a closed or failed session gets its close through by running its queue |
| InstanceLifecycle.InstanceLifecycleManager.CountOccupied | backend/src/instance-lifecycle.ts:580-580 | the count is the number of running and creating rows |
| InstanceLifecycle.InstanceLifecycleManager.ReserveProvision | backend/src/instance-lifecycle.ts:564-633 | a creating row is stored exactly if the user has none, may have one, and both limits and the quota leave room; otherwise the right refusal and no change |
| InstanceLifecycle.InstanceLifecycleManager.Provision | backend/src/instance-lifecycle.ts:635-681 | the row ends as the runtime answered, or failed if the call threw, with every other row untouched; all stays valid if and only if a call that threw left no live container |
| InstanceLifecycle.InstanceLifecycleManager.SyncRecord | backend/src/instance-lifecycle.ts:802-823 | a visible container's state is stored: up runs, coming is being created, broken has failed, down leaves a stopped row exactly as it was and fails a running one without a reason; an invisible one leaves the row alone |
| InstanceLifecycle.InstanceLifecycleManager.Start | backend/src/instance-lifecycle.ts:718-766 | row, runtime and outcome of a start in every case: a stopped container with room and quota runs, one without is refused and unchanged, a throwing call is followed by a look |
| InstanceLifecycle.InstanceLifecycleManager.Stop | backend/src/instance-lifecycle.ts:768-800 | row, runtime and outcome of a stop in every case; no place is ever taken by it |
| InstanceLifecycle.InstanceLifecycleManager.Remove | backend/src/instance-lifecycle.ts:494-515 | container and row are both gone and the user may provision again; a runtime call that threw keeps the row |
| Capacity.ProjectRow | backend/src/instance-lifecycle.ts:846-903 | what becomes of a row in every runtime state: counted exactly if the container lives, failed if it went down unexpectedly, failed rows stay failed until recovered, any other one that is down is stopped for the reason handed in |
| CapacitySafety.RunningLimitHolds | backend/src/instance-lifecycle.ts:564-800 | under every interleaving of provisions, starts, stops, removals, syncs, crashes and failed calls in which no live container is disowned, running plus creating rows and the containers that really live stay within the running limit |
| CapacityEveryRun.TotalLimitHolds | backend/src/instance-lifecycle.ts:564-633 | over every run whatsoever rows and containers stay within the total limit, every container belongs to a row, and no user has two; if no more may exist than may run, the running limit holds as well |
| CapacityEveryRun.StepKeepsPlaced | backend/src/instance-lifecycle.ts:564-823 | every step, disowning ones included, keeps containers with their rows and rows within the total limit, one for each user |
| CapacityEveryRun.DisowningCanOverbook | backend/src/instance-lifecycle.ts:663-678 | the demand of the running limit is exact: if more may exist than may run, any first disowning step has a continuation after which more rows count than may run |
| CapacitySafety.StepKeepsInv | backend/src/instance-lifecycle.ts:564-823 | a step keeps every live container counted if and only if it does not give up the only record that counts one |
| CapacitySafety.LivingFit | backend/src/instance-lifecycle.ts:718-766 | the container being started fits beside all counted ones while the start holds the lock |
| CapacitySafety.DisownedContainerOverbooks | backend/src/instance-lifecycle.ts:663-678 | the running limit fails when a provision throws after its container came up: its failed row later syncs to running beside a second user's |
| CapacityProgress.StartTakesEffect | backend/src/instance-lifecycle.ts:718-750 | an undisturbed start of a stopped container runs it if there is room and changes nothing otherwise |
| CapacityProgress.ThrowingStartIsCounted | backend/src/instance-lifecycle.ts:750-764 | a start whose call throws although the container came up ends with the row running |
| CapacityProgress.StopTakesEffect | backend/src/instance-lifecycle.ts:768-800 | an undisturbed stop stops a running container for its reason, a stopped one only gets the reason |
| CapacityProgress.RemoveTakesEffect | backend/src/instance-lifecycle.ts:494-515 | an undisturbed removal takes container and row away, whatever state they are in |
| CapacityProgress.SyncTakesEffect | backend/src/instance-lifecycle.ts:802-823 | an undisturbed sync of a running row stores what the runtime shows, and a container found down as a failure |
| CapacityProgress.ProvisionTakesEffect | backend/src/instance-lifecycle.ts:564-681 | a user without a container gets a running one if both limits leave room |
| CapacityProgress.ProvisionIsRefused | backend/src/instance-lifecycle.ts:569-584 | a user who has one, or for whom there is no room, gets none and nothing changes |
| QuotaLedger.ScopesAreThoseInScope | backend/src/quota-admission.ts:289-302 | the walked scopes are exactly the policy's scopes of the request, with their limits |
| QuotaLedger.DeniedIffItDoesNotFit | backend/src/quota-admission.ts:199-214 | a request is denied if and only if some scope and dimension would exceed its limit, and the denial names such a pair |
| QuotaLedger.UsageExcept | backend/src/quota-admission.ts:216-225 | leaving a reservation out of the sum subtracts exactly its contribution |
| QuotaLedger.UsageOfUpdate | backend/src/quota-admission.ts:216-225 | replacing a reservation changes each sum by the difference of the contributions |
| QuotaLedger.UsageOfRemoval | backend/src/quota-admission.ts:216-225 | releasing a reservation lowers each sum by its contribution |
| QuotaAdmission.InMemoryQuotaAdmission.Admit | backend/src/quota-admission.ts:125-149 | the answer of `admit` in every case, nothing changed; what it is on the fields of the request says `QuotaLimits.ReserveAnswers` |
| QuotaAdmission.InMemoryQuotaAdmission.Reserve | backend/src/quota-admission.ts:151-165 | the answer of `reserve` and the new ledger; usage stays within every limit; what it is on the fields of the request says `QuotaLimits.ReserveAnswers` |
| QuotaAdmission.InMemoryQuotaAdmission.Transition | backend/src/quota-admission.ts:167-179 | the answer of `transition` and the new ledger; usage stays within every limit |
| QuotaAdmission.InMemoryQuotaAdmission.Release | backend/src/quota-admission.ts:181-183 | exactly the named reservation leaves the ledger |
| QuotaAdmission.InMemoryQuotaAdmission.FindDenial | backend/src/quota-admission.ts:199-214 | the nested loops find the first exceeded dimension of the first exceeded scope, or none if the request fits |
| QuotaAdmission.InMemoryQuotaAdmission.UsageFor | backend/src/quota-admission.ts:216-225 | the accumulated usage is the sum over the live reservations in the scope |
| QuotaAdmission.InMemoryQuotaAdmission.Snapshot | backend/src/quota-admission.ts:186-197 | a snapshot holds exactly the scopes with reservations and shows the very sums the limits are checked against |
| QuotaSafety.UsageNeverExceedsLimits | backend/src/quota-admission.ts:125-183 | through every run of calls usage stays within the limit in every scope and dimension and ids stay unique |
| QuotaLimits.EveryScopeKeepsItsLimits | backend/src/quota-admission.ts:125-183 | through every run the number of reservations, the number of running ones and the sum of each named field stay within the limit, for all together and for each tenant, user and provider the policy names |
| QuotaLimits.UsageMeans | backend/src/quota-admission.ts:216-225 | the usage of a scope is the count, the running count, or the sum of one field of its reservations |
| QuotaLimits.DeniedIffTooMuch | backend/src/quota-admission.ts:199-214 | a request is denied exactly if a count or field sum of one of its scopes with its own added exceeds the limit, and the denial names that scope and dimension |
| QuotaLimits.NormalizedMeans | backend/src/quota-admission.ts:234-259 | exactly which requests parse, and which field each normalised field comes from |
| QuotaLimits.ReserveAnswers | backend/src/quota-admission.ts:125-165 | what `admit` and `reserve` answer and store in every case, on the fields of request and reservations |
| QuotaLimits.TransitionAnswers | backend/src/quota-admission.ts:167-179 | what a transition answers and stores in every case, on those fields |
| QuotaLimits.ReleaseAnswers | backend/src/quota-admission.ts:181-183 | a release takes exactly the reservation of its id away |
| QuotaSafety.StoppingIsNeverDenied | backend/src/quota-admission.ts:167-179 | in every reachable state stopping a held reservation is granted while the ledger is available |
| QuotaSafety.RollbackIsNeverDenied | backend/src/instance-lifecycle.ts:785-798 | after a granted stop of a running reservation and any releases, stops and admissions of others the way back to running is granted if the ledger is available |
| LifecycleQuota.HolderCanUndo | backend/src/instance-lifecycle.ts:785-798 | over every interleaving of lifecycle operations under the capacity lock, their quota calls and failed provisions that release without it: while the operation that moved its running reservation to stopped holds the lock, an available ledger grants the way back and restores the very reservation if it is still held, and otherwise says so and changes nothing |
| LifecycleQuota.StepKeepsInv | backend/src/instance-lifecycle.ts:718-798 | every lifecycle step and quota call keeps one acting operation under the lock, usage within the limits and room for the reservation its holder moved to stopped |
| QuotaSafety.RollbackWithoutStop | backend/src/instance-lifecycle.ts:785-798 | the remaining case: a stop of a reservation that is not running changes nothing, and its rollback is granted if and only if running fits beside the others |
| QuotaSafety.RollbackCanBeDenied | backend/src/instance-lifecycle.ts:742-762 | a reachable ledger in which that rollback is denied: the reservation was moved back to stopped and another took the place |
| QuotaSafety.ReserveIsIdempotent | backend/src/quota-admission.ts:151-165 | repeating a granted reservation is granted and changes nothing, even when full or unavailable, until its id is moved or released; any other request under the id conflicts |
| RetentionSafety.RetiredHasNewerOnes | backend/src/resource-cleanup.ts:232-251 | a retired rollback version had k others none of them older, and all of those survive |
| RetentionRule.RetiredExactly | backend/src/resource-cleanup.ts:228-271 | on the stored fields: a run archives exactly the versions that are not current, not among the first k by revision and list order one could roll back to, and held by no container, rollout, build or status, and leaves every other version as it is |
| RetentionRule.PinnedVersionsStay | backend/src/resource-cleanup.ts:228-251 | the current version, the newest k, and every version that a container runs, a live rollout moves from or to by id, image or reference, or a build is under way for, come out exactly as they were |
| RetentionRule.RetainedMeans | backend/src/resource-cleanup.ts:232-239 | a version is retained exactly if fewer than k others one could roll back to go before it |
| RetentionSafety.RetainedAreNewest | backend/src/resource-cleanup.ts:232-239 | sorting and slicing retains rollback versions only, and no other one is newer than a retained one |
| RetentionSafety.LargerRetentionRetiresLess | backend/src/resource-cleanup.ts:232-251 | keeping more retires a subset |
| RetentionSafety.SecondPruneRetiresTheUnprotected | backend/src/resource-cleanup.ts:217-272 | the same prune again retires a version if and only if a protecting build alone had kept it and that protection is gone |
| RetentionSafety.SecondPruneRetiresNothing | backend/src/resource-cleanup.ts:217-272 | with images bound as `bindRelease` demands and accepted saves the same prune again retires nothing, whichever released images and packages were deleted |
| RetentionSafety.ProtectionRemains | backend/src/resource-cleanup.ts:447-459 | deleting images of retired versions unprotects no other version under that binding |
| RetentionSafety.UnboundImageCostsAVersion | backend/src/image-builds.ts:301-306 | without the binding the second prune may retire a version the first one protected |
| Sorting.SortCommutesWithSelect | backend/src/resource-cleanup.ts:232-239 | the stable sort by revision commutes with filtering, so dropping retired versions keeps the order |
| Sorting.SortMeans | backend/src/resource-cleanup.ts:237-237 | the stable sort orders by its key and changes nothing else |
| Sorting.SortedAtRank | backend/src/resource-cleanup.ts:232-239 | the stable sort puts every selected element at the number of selected ones with a smaller key, or the same key earlier in the list |
| ResourceCleanup.ResourceCleanupManager.RetireEach | backend/src/resource-cleanup.ts:253-271 | each eligible version whose save is accepted is archived in place; the images and packages of all of them are noted |
| ResourceCleanup.ResourceCleanupManager.PruneApp | backend/src/resource-cleanup.ts:217-272 | one app is pruned to exactly its eligible versions, which on the stored fields are the superseded ones |
| ResourceCleanup.ResourceCleanupManager.ReleaseBuilds | backend/src/resource-cleanup.ts:274-287 | exactly the finished builds of retired versions that name packages let them go |
| ResourceCleanup.ResourceCleanupManager.DeleteImages | backend/src/resource-cleanup.ts:289-298 | exactly the noted images that exist, that no version uses and nothing pins disappear |
| ResourceCleanup.ResourceCleanupManager.DeletePackages | backend/src/resource-cleanup.ts:299-308 | exactly the noted packages that exist and that no version and no build names disappear |
| ResourceCleanup.ResourceCleanupManager.Prune | backend/src/resource-cleanup.ts:197-317 | a whole run: an invalid retention changes nothing; else apps, builds, images and packages change exactly as far as the parts above say |
| ResourceCleanup.ResourceCleanupManager.PruneTwice | backend/src/resource-cleanup.ts:197-317 | two whole runs in a row: with bound images and accepted saves the second one retires nothing |
| StrategyContracts.SameIsEquivalence | backend/src/image-builds.ts:427-444 | `sameRequirements` is reflexive, symmetric and transitive on all lists |
| StrategyContracts.SameMeansSameSetOfSlots | backend/src/image-builds.ts:427-444 | for lists without repeated keys it holds if and only if both offer the same set of slots, whatever the order of slots and extensions |
| StrategyContracts.SameMeansSameSlots | backend/src/image-builds.ts:427-444 | for all lists it holds if and only if the slots agree in key order |
| ImageBuilds.ImageBuildManager.Initialize | backend/src/image-builds.ts:90-113 | seeding only ever saves strategies whose id was absent, also when it stops half way; success means every stored active strategy has its adapter and agrees with its definition |
| ImageBuilds.ImageBuildManager.RegisterStrategy | backend/src/image-builds.ts:115-146 | the revision a registration gets, exactly when it is refused and why, and the strategy stored otherwise |
| ImageBuilds.ValidatedMeans | packages/contracts/src/package-requirements.ts:14-33 | exactly which slot lists are accepted and what is stored of each slot |
| ImageBuilds.ImageBuildManager.CreateBuild | backend/src/image-builds.ts:175-202 | a build is frozen exactly if the strategy is stored, active, supported, of the asked revision and its other input valid, and its snapshot is the stored strategy |
| ImageBuilds.ImageBuildManager.SnapshotsAgree | backend/src/image-builds.ts:199-202 | any two build snapshots with equal strategy id and revision have equal contracts |
| ImageBuilds.AnotherSave | backend/src/image-builds.ts:121-133 | a save keeps revisions from falling and one revision on one contract over the whole history if and only if it follows the stored strategy |
| RegistrationRuns.StepKeepsHistory | backend/src/image-builds.ts:115-146 | with registrations split into a read and a later save, a step keeps the history if and only if it is not a save over a strategy it does not follow |
| RegistrationRuns.UndisturbedSaveFollows | backend/src/image-builds.ts:121-132 | a save that finds the strategy it read is never stale |
| RegistrationRuns.HistoryHolds | backend/src/image-builds.ts:115-146 | over every run of interleaved registrations without a stale save revisions never fall and one revision means one contract |
| RegistrationRuns.RacingRegistrationsCollide | backend/src/image-builds.ts:120-145 | a run of two registrations that both read before either saves stores different contracts under one revision |
| ProxyAddress.ResolveProxyTarget | backend/src/proxy.ts:194-209 | a request is refused exactly for a foreign origin, credentials, or a query name taken by the endpoint or repeated in the request; else base path, collapsed path and both queries are joined |
| ProxyAddress.RewriteLocation | backend/src/proxy.ts:434-450 | a foreign redirect is left as it came; else the endpoint's query names go and the base path is cut |
| ProxyAddress.RewriteUndoesResolve | backend/src/proxy.ts:194-209 | rewriting a resolved address gives prefix, request path with leading slashes collapsed, exactly the request's query pairs in order, and the endpoint's fragment |
| ProxyAddress.RedirectComesBack | backend/src/proxy.ts:434-450 | a followed redirect is refused if and only if its public path starts with two slashes, and comes back to the path the upstream named if and only if that path lies below the base with one slash after it |
| ProxyAddress.StripLeadingMeans | backend/src/proxy.ts:203-203 | collapsing drops leading slashes and nothing else |
| ProxyAddress.BasePathMeans | backend/src/proxy.ts:202-202 | the base is the endpoint's path without its trailing slashes |
| ProxyAddress.PublicPathMeans | backend/src/proxy.ts:434-450 | below the base the rest is public, the base itself is the root, any other path is public as it is |
| OperationFingerprint.FeedHash | backend/src/portal-app.ts:2678-2688 | the updates fed to the hash add up to the encoding of all parts |
| OperationFingerprint.DecodeUndoesEncode | backend/src/portal-app.ts:2678-2688 | the fed string can be decoded back to the list of parts |
| OperationFingerprint.DifferentPartsDifferentStrings | backend/src/portal-app.ts:2678-2688 | two different lists never feed the same string |
| WorkspaceExecution.ContainerRoundTrip | backend/src/workspace-execution-model.ts:39-140 | a container projects exactly if its normalised provider id is valid, and the way back returns it with only the provider id normalised |
| WorkspaceExecution.ProjectionMeans | backend/src/workspace-execution-model.ts:39-96 | what a container row says of its execution: wanted running unless stopped, deployed unless being created, healthy while running, and all derived ids |
| WorkspaceExecution.RowMeans | backend/src/workspace-execution-model.ts:98-140 | exactly which executions can be shown as a row, and what the row says |
| WorkspaceExecution.ProviderIdMeans | backend/src/workspace-execution-model.ts:196-202 | a missing or blank provider id is the default one, blanks around an id and the case of its letters do not matter |
| WorkspaceExecution.TransitionMeans | backend/src/workspace-execution-model.ts:142-190 | a change is accepted exactly if both sides can be shown, identity stays, deletion moves at most one stage on and no generation falls |
| WorkspaceExecution.RoundTripIsStable | backend/src/workspace-execution-model.ts:39-96 | the returned row is normal and projects to the very same execution |
| WorkspaceExecution.ExecutionRoundTrip | backend/src/workspace-execution-model.ts:98-140 | a live execution with derived ids survives the detour through a container row except for deletion progress and the history of generations and transactions |
| WorkspaceExecution.RunKeepsIdentityAndGenerations | backend/src/workspace-execution-model.ts:142-167 | over every accepted run identity and provider stay, the three generations never fall and deletion never goes back, so deleted is final |
| WorkspaceExecution.DeletedOnlyThroughDeleting | backend/src/workspace-execution-model.ts:183-190 | an active workspace that is deleted later was deleting in between |
| WorkspaceExecution.GenerationsStayOrdered | backend/src/workspace-execution-model.ts:111-122 | healthy at most deployed at most desired generation throughout |
| WorkspaceExecution.IdsStayDerived | backend/src/workspace-execution-model.ts:142-167 | whatever grows out of a projected container keeps the ids derived from container and provider, and the generations it started with |

## Left out

- HTTP routes, sessions, CORS, uploads, the command line, monitoring and the frontend: no state invariant of their own.
- Docker, the filesystem, SHA-256, timers, and the URL, date and regular expression engines: URLs are origin, path, query pairs and fragment, times are integers, and removal of directories does not appear.
- Store failures half way and lost connections: a store call takes effect and answers, or does nothing.
- Redaction and sanitising of task errors and results: results are opaque and an error is its bounded text.
- Task code that reports the word `cancelling`: excluded from the operation theorems, with a lemma that shows why.
- OperationManager.AdminOperationManager.Retry: the retry lock and retries by other managers do not appear here; how retries interleave is the matter of `OperationRetry`.
- The give-up branch of `cancel`: five foreign saves in a row remain possible there, so only commit point and completion are proved never to exhaust their attempts.
- The bound on the number of remembered retry tasks: a task may be forgotten at any time.
- ForwardingRuns.AnswersAreFreshEnough: assumes that every durable write raises the revision and that nobody writes another policy inside an update's window, a demand that `ForwardingWindow` shows to be exact; monotone reads are not claimed, since an old get may answer after a newer one.
- Host matching and validation of the forwarding policy: no protocol state.
- GraphCopy.Clone: property descriptors, prototypes and keys that a JavaScript object treats specially are not modelled; an object is its kind and its list of entries.
- UpgradeActivityRuns.ConfirmsAtMostOnce: speaks of confirmations that do not overlap; overlapping ones are covered by `SharedExactlyIfUntouchedBetween`.
- CapacitySafety.RunningLimitHolds: asks that no step disowns a live container; policy changes during a run and `rebuild`, which does not check the running limit, are outside it.
- CapacitySafety.StepKeepsInv: the stored lease, user lock and container lock appear as one operation per container at a time.
- InstanceLifecycle.InstanceLifecycleManager.Start: without interference; the quota's answer is a parameter, and owner, provider and catalog checks and activity baselines are left out.
- InstanceLifecycle.InstanceLifecycleManager.Stop: the quota transition and its rollback are left to `LifecycleQuota` and `QuotaSafety.RollbackIsNeverDenied`.
- InstanceLifecycle.InstanceLifecycleManager.Provision: the release of the reservation after a failure is part of `LifecycleQuota`; owner, provider and catalog refusals are left out.
- InstanceLifecycle.InstanceLifecycleManager.Remove: the release of the reservation is part of `LifecycleQuota`; the tombstone path is left out.
- LifecycleQuota.HolderCanUndo: an operation may call the ledger at any point while it holds the lock and a release may come at any time, which covers the order of calls in the code and more.
- InstanceLifecycle.InstanceLifecycleManager.ReserveProvision: the checks of live workspace and authorisation and the quota's answer are parameters.
- The tombstone path of `remove` through a workspace deletion: it belongs to code outside this model.
- QuotaAdmission.InMemoryQuotaAdmission.Snapshot: sums are unbounded integers; a scope without a limit in some dimension can exceed what a JavaScript number holds exactly, a limited one cannot.
- Trimming and validation of quota identifiers and of the quota policy: an identifier that does not parse is `None` and the policy is taken as normalised.
- ResourceCleanup.ResourceCleanupManager.Prune: which saves the store accepts is a parameter; storage directories, the order of packages and the preview are left out.
- ResourceCleanup.ResourceCleanupManager.PruneTwice: versions and images are not touched by anyone else between the two runs.
- RetentionSafety.SecondPruneRetiresNothing: the version list keeps its order between the two runs, as saving a row does not move it; revisions need not be distinct then.
- ImageBuilds.ImageBuildManager.RegisterStrategy: one call runs at a time here, races are the matter of `RegistrationRuns`; names, descriptions and timestamps are left out, and stored maxima are taken as valid.
- ImageBuilds.ImageBuildManager.CreateBuild: the checks of packages, actor and release are one parameter.
- The matching of release packages against a build and the normalisation of uploaded packages: easy beside the history of contracts.
- ProxyAddress.ResolveProxyTarget: paths are taken as parsed; percent-encoding and dot segments belong to the URL engine.
- Header filtering and cookie rewriting in the proxy: string pipelines without state.
- OperationFingerprint.DecodeUndoesEncode: stops before the hash.
- WorkspaceExecution.ContainerRoundTrip: provider ids are trimmed and lowered as ASCII text.
