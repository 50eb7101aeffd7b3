# YDB Kubernetes operator: reconcilers as verified state machines

The operator keeps no memory between two passes over an object. All it knows is what it persisted: a
state, a list of typed conditions, the generation each condition was observed at, and at times the
identifier of an operation of the cluster management service (CMS), stored as a condition's message.
This project models the passes of its reconcilers as steps over that persisted state, lets everything
else happen between them (spec edits, Job and StatefulSet progress, CMS operations that end well or
badly, failing calls, crashes), and proves what every run keeps, what runs reach, and where the code
falls short of what it is meant to do.

Each protocol comes in the same parts:

- a *model* module: `Decide` or its like says what one pass does, `Pass` performs it, `Step` and `Run`
  interleave passes with events;
- a *reconciler* module: a class whose methods follow the steps of the source, with loops and in-place
  updates of the status, and whose `Sync` is proved to do exactly what the model's pass says;
- modules of lemmas about the passes and runs of the model.

| files | subject |
|---|---|
| `Wrappers.dfy`, `Conditions.dfy`, `Cms.dfy` | options; status conditions and `SetStatusCondition`; CMS operations |
| `Stages.dfy`, `Scaling.dfy` | what the statuses of Storages, node sets and Databases have in common; StatefulSets and the wait for nodes, spelled out |
| `StorageModel.dfy`, `StorageReconciler.dfy` | a Storage: initialization Job, ReplaceConfig pipeline, scaling, pause |
| `StorageSafety.dfy`, `ConfigSafety.dfy`, `StorageCalls.dfy` | invariants of all runs; what a synchronized configuration stands on; what each call and each answer leaves |
| `StorageProgress.dfy`, `StoragePause.dfy`, `StorageResume.dfy` | a rank that healthy passes lower, and when they get stuck; pausing and the StatefulSet; getting a resized or resumed Storage to run |
| `NodeSetModel.dfy`, `NodeSetReconciler.dfy`, `NodeSetProgress.dfy`, `OwnedNodeSets.dfy`, `Handshake.dfy`, `StaleCertificates.dfy` | a StorageNodeSet; the parent's pushing and pruning; the handshake between both, and where it blocks |
| `DatabaseModel.dfy`, `DatabaseReconciler.dfy`, `TenantSafety.dfy`, `DatabaseWait.dfy`, `DatabaseProgress.dfy` | a Database: the tenant it creates in the CMS, the wait for its nodes, and its progress |
| `MirrorModel.dfy`, `MirrorReconciler.dfy`, `MirrorSafety.dfy`, `MirrorProgress.dfy`, `MirrorPair.dfy` | a RemoteStorageNodeSet: copying objects between two clusters, cleaning up, finalizer; two of them over shared copies |
| `GuardedApply.dfy` | the create-or-update primitive and its guards |
| `Hosts.dfy`, `Labels.dfy` | generated hosts against pods; selectors against pod labels |

`dafny verify dfyconfig.toml` checks the whole project.

## What turned out not to hold

The code is modelled as it is. Where a promise fails, a lemma says exactly when it holds, and where
that is not plain another one shows an input or a run where it does not.

- A failed ReplaceConfig operation is noted in memory only, so a Storage whose operation failed polls it
  for ever: healthy rounds end in Ready if and only if the Storage is not in that situation
  (`StorageProgress.HealthyRoundsFinish`, `FailedOperationSticks`). Seven healthy passes over a new
  Storage and one failure lead there (`StuckHappens`). A failed tenant creation, in contrast, is persisted
  and retried (`TenantSafety.FailureIsRetried`).
- Readiness does not always propagate after a spec edit. A child that goes on running the number of nodes
  it is asked for keeps the certificate of the older generation, and no pass of the parent gets past the
  wait until the child's controller has once seen another number
  (`StaleCertificates.StaleBlocksEveryPass`, `OnlyGivingUpRenews`, `RenewalUnblocks`); an edit that leaves the number of nodes
  alone leads there (`StaleHappens`).
- Pausing does not always reach Paused: the builder scales to zero while the wait, which comes first,
  asks for all nodes. Without another edit, a Storage asked to pause and not reported paused yet can still
  reach Paused with every condition true if and only if it has no nodes in its spec, or its StatefulSet has
  not been scaled below them, or as many pods are still ready; a failed configuration apart
  (`StoragePause.PausedIff`, `NeverArrives`). A running Storage whose pods stop right after the first pass
  stays Ready for good (`RunningIsBlocked`, and `StorageResume.RunningNeverPauses` for a run from a new
  Storage), until an edit resumes it: an unpaused Storage can always get Ready, unless it asks for a negative
  number of nodes or is stuck (`StorageResume.ReadyIff`, `EditedCanFinish`).
- A ReplaceConfig request whose answer gets lost is not recorded, so the next pass sends it again, and the
  CMS has two operations with the same configuration (`StorageCalls.LostAnswersRepeat`).
- A Database that is made serverless while its nodes lag keeps the report of the lag, which takes readiness
  back with every write: it is never ready again (`DatabaseProgress.LosingNodesWhileLagging`; exactly when a
  Database gets there is `DatabaseProgress.HealthyRoundsFinish`).
- Owned and desired node sets agree if and only if no listed one was already being deleted
  (`OwnedNodeSets.OwnedEqualsDesired`, and `ListedAgainTooEarly` for a case).
- The mirror settles if and only if no entry of its status list has lost both its place in the spec and
  its copy (`MirrorProgress.MirrorConverges`). One cleaning pass whose status write fails brings this about
  for good (`FailedWriteLosesTheCopy`, `FailedWriteBlocksForEver`).
- Cleaning up after one of two mirrors takes a shared copy from the other, unless a database claims it or
  the call fails (`MirrorPair.SharedCopySurvivesIff`); a run of two mirrors shows it
  (`MirrorPair.SharedCopyIsTaken`).
- Removing a status entry that is not listed removes the first one (`MirrorSafety.RemovalOfTheUnlisted`);
  no pass does so (`MirrorReconciler.FirstIsListed`).
- Generated hosts are the pods if and only if the node counts, negative ones taken as none, add up; the
  admission check adds in 32 bits and so accepts other counts (`Hosts.HostsAreThePods`,
  `Hosts.WrappedCountsAreAdmitted`). They do not follow later edits (`Hosts.HostsFollowEditsIff`,
  `Hosts.ScalingOutrunsTheHosts`).
- Applying panics exactly when a paused DatabaseNodeSet is to create its StatefulSet
  (`GuardedApply.PanicsExactly`).

## Model

| member | source | states |
|---|---|---|
| Conditions.SetStatusCondition | internal/controllers/storage/init.go:65-78 | the condition set is the one found afterwards, every other type keeps its condition, and the list is not empty (the library function every step uses) |
| Conditions.SetKeepsTheList | internal/controllers/storage/init.go:65-78 | setting keeps types distinct and the listed types in place, and lengthens the list exactly when the type was not there |
| Cms.CheckOperationStatus | internal/cms/operation.go:58-72 | finished without failure exactly for a ready operation with SUCCESS or ALREADY_EXISTS; neither finished nor failed only for one that is not ready |
| StorageModel.CheckLogs | internal/controllers/storage/init.go:228-268 | the first failed pod whose log is unreadable or matches decides which of the two it is; there is no match exactly if no pod decides |
| StorageReconciler.Reconciler.Sync | internal/controllers/storage/sync.go:27-86 | the step-by-step pass leaves status, Job, CMS log and calls exactly as the decision list of the model says |
| StorageReconciler.Reconciler.UpdateStatus | internal/controllers/storage/sync.go:591-656 | an unmet stage takes readiness, or the pause, back before the one status write |
| StorageReconciler.Reconciler.InitializeBlobstorage | internal/controllers/storage/init.go:80-226 | Job creation, success, failed pods and deletion of the Job, as the initialization stage of the model |
| StorageReconciler.Reconciler.CheckPods | internal/controllers/storage/init.go:228-268 | the loop over the pods finds the first failed pod that decides |
| StorageReconciler.Reconciler.SetConfigPipelineStatus | internal/controllers/storage/config.go:158-260 | how configuration synchronization starts for a new generation, as `ConfigSafety.StartReports` spells it out |
| StorageReconciler.Reconciler.HandleConfigurationSync | internal/controllers/storage/config.go:262-327 | polling, submitting or completing, as the synchronization stage of the model |
| StorageReconciler.Reconciler.ReplaceConfig | internal/controllers/storage/config.go:19-76 | what a request leaves in the CMS log and in the status for every answer |
| StorageReconciler.Reconciler.CheckReplaceConfigOperation | internal/controllers/storage/config.go:78-156 | what polling leaves in the status for every answer |
| StorageReconciler.Reconciler.WaitForStatefulSetToScale | internal/controllers/storage/sync.go:121-193 | stopping passes end as the model says; continuing leaves everything unchanged and means the replicas are ready and reported |
| StorageReconciler.Reconciler.WaitForNodeSetsToProvisioned | internal/controllers/storage/sync.go:195-294 | the same for node sets, all of which hold a true certificate at their current generation |
| StorageReconciler.Reconciler.HandlePauseResume | internal/controllers/storage/sync.go:658-735 | stopping passes end as the model says; continuing leaves everything unchanged |
| StorageSafety.InvHolds | internal/controllers/storage/sync.go:27-86 | every reachable world has agreeing stages, bounded generations, a faithful CMS log and conditions that tell the truth about it |
| StorageSafety.InitializedOnlyWithGrounds | internal/controllers/storage/init.go:47-190 | in every run of a new Storage, the very pass that turned initialized true found the skip annotation set, the Job succeeded, or a failed pod reporting it; the legacy shortcut never decides |
| StorageSafety.StateMachine | internal/controllers/storage/sync.go:48-85 | the state only moves along Pending, Preparing, Initializing, Provisioning, Ready and Paused; initialization is never taken back and every later state implies it |
| StorageSafety.ConfigConditionsAreTruthful | internal/controllers/storage/config.go:309-326 | a completed ConfigurationSynced at a generation implies ReplaceConfigOperation true there, which implies a successful CMS operation with that generation's configuration |
| StorageSafety.SubmissionsAreGuarded | internal/controllers/storage/config.go:309-318 | at most one request a pass, with the current configuration, never while an operation of this generation is recorded as running |
| StorageSafety.NoMoveBeforeConfigSynced | internal/controllers/storage/sync.go:48-61 | no state change past Initializing unless the current generation's configuration is synchronized |
| StorageSafety.StatusWriteIsLast | internal/controllers/storage/sync.go:591-656 | a pass persists at most one status and changes nothing after it |
| StorageSafety.ReadinessIsHonest | internal/controllers/storage/sync.go:591-656 | in every run without a pause or a resumption, readiness, or the pause, is never true next to a stage reported unmet |
| StorageSafety.OneOfTheTwo | internal/controllers/storage/sync.go:658-735 | in every run readiness is only true in the state Ready and the pause only in Paused |
| ConfigSafety.StartReports | internal/controllers/storage/config.go:158-260 | a pass that starts the synchronization reports it unneeded exactly for a static configuration or one the CMS holds a later version of, and otherwise in progress |
| ConfigSafety.SyncedOnlyWithGrounds | internal/controllers/storage/config.go:239-259 | in every run, synchronized at a generation means a static configuration, a successful operation carrying it, or a pass over that very generation that read a later version |
| StorageCalls.EffectsAreCalls | internal/controllers/storage/sync.go:27-86 | Jobs come and go, CMS operations begin and the status changes exactly with the calls of the pass that say so |
| StorageCalls.PreparationIsReported | internal/controllers/storage/sync.go:307-422 | a switched-off pass changes nothing; a failed sync or pruning takes the preparation and readiness back; the first success reports it |
| StorageCalls.JobDecides | internal/controllers/storage/init.go:80-226 | what every state of the Job and its pods leads to: creation, completion, deletion, or waiting |
| StorageCalls.FailedJobIsReplaced | internal/controllers/storage/init.go:193-216 | a Job that failed for good is made anew by two passes whose calls succeed |
| StorageCalls.ShortcutsInitialize | internal/controllers/storage/init.go:47-63 | the annotation and the condition of an older release complete the initialization without the Job |
| StorageCalls.PollLeaves | internal/controllers/storage/config.go:78-156 | what each answer to polling leaves; a failed operation, and an unknown one, leaves everything as it was |
| StorageCalls.SubmitLeaves | internal/controllers/storage/config.go:19-76 | what each answer to a request leaves; one refused or unanswered is not recorded |
| StorageCalls.LostAnswersRepeat | internal/controllers/storage/config.go:25-37 | after a lost answer the same configuration is sent again, and the CMS has two operations of it |
| StorageProgress.HealthyPassDescends | internal/controllers/storage/sync.go:34-85 | from any reachable world neither done nor stuck, a healthy pass strictly lowers the rank |
| StorageProgress.DoneIsFinal | internal/controllers/storage/sync.go:718-734 | once Ready with every condition true, passes write nothing |
| StorageProgress.HealthyRoundsFinish | internal/controllers/storage/sync.go:34-85 | after as many healthy rounds as the rank, the Storage is Ready, or Paused if asked to be, if and only if it was not stuck on a failed operation |
| StorageProgress.FailedOperationSticks | internal/controllers/storage/config.go:113-128 | a recorded operation that failed is never given up without a spec edit, whatever happens |
| StorageProgress.StuckHappens | internal/controllers/storage/config.go:113-128 | a run of a new Storage, healthy but for the failed operation, that ends stuck |
| StorageResume.OperatorScales | internal/resources/storage_statefulset.go:64-70 | a pass past Pending whose sync succeeds leaves a StatefulSet with the nodes asked for, none while paused, and the ready replicas it had |
| StorageResume.ReadyIff | internal/controllers/storage/sync.go:121-193 | an unpaused Storage not reported ready, whatever its StatefulSet, can get Ready with every condition true in some run without a spec edit if and only if it asks for no negative number of nodes and is not stuck |
| StorageResume.EditedCanFinish | internal/controllers/storage/sync.go:27-86 | so it can after every edit that resizes or resumes it, even from a stuck or blocked Storage |
| StoragePause.NeverArrives | internal/controllers/storage/sync.go:163-178 | once a paused Storage with nodes has neither the replicas nor the ready pods for them, in any state, it arrives in no other state and its pause is never reported, in any run without a spec edit |
| StoragePause.PausedIff | internal/controllers/storage/sync.go:658-735 | a Storage asked to pause and not reported paused can reach Paused with every condition true in some run without a spec edit if and only if a pass may still read as many ready replicas as it has nodes, and it is not stuck |
| StoragePause.RunningIsBlocked | internal/controllers/storage/sync.go:163-178 | a running Storage with nodes that is paused, synced once and loses its pods is blocked in Ready, for every answer of the environment in that pass |
| StorageResume.RunningNeverPauses | internal/controllers/storage/sync.go:27-86 | a run from a new Storage through Ready, with every condition true, to a pause that can never be reached |
| Stages.UpdatedFinds | internal/controllers/storage/sync.go:591-656 | a write leaves the condition put and every other one, readiness and the pause apart |
| Stages.UnmetTakesBack | internal/controllers/storage/sync.go:591-656 | a write with a stage unmet leaves readiness, or the pause, false; any other changes nothing but the condition put |
| Stages.PauseStepReports | internal/controllers/storage/sync.go:658-735 | past the wait: arrival in the state asked for is reported, leaving the other one taken back first, and staying confirmed |
| Scaling.ScaleMeans | internal/controllers/storage/sync.go:121-294 | the wait goes on exactly for the asked number of ready replicas, or a true certificate at the current generation for every listed node set; it reports a lag exactly for another number, or the first node set that was read and has none |
| NodeSetReconciler.Reconciler.Sync | internal/controllers/storagenodeset/sync.go:24-52 | the step-by-step pass over a StorageNodeSet equals the model's |
| NodeSetReconciler.Reconciler.WaitForStatefulSetToScale | internal/controllers/storagenodeset/sync.go:193-265 | the readiness certificate as the model says; continuing changes nothing |
| NodeSetModel.CertificatesAreEarned | internal/controllers/storagenodeset/sync.go:235-261 | a certificate is only put at the generation read, and a true one only on seeing exactly the asked number of ready replicas |
| NodeSetModel.TrueCertificateChangesIff | internal/controllers/storagenodeset/sync.go:252-261 | a true certificate, stale or not, changes if and only if a compared StatefulSet runs another number |
| NodeSetModel.SyncScales | internal/resources/storage_statefulset.go:64-70 | a syncing pass leaves a StatefulSet with the nodes asked for, none while paused, and the ready replicas it had; any other leaves it alone |
| NodeSetProgress.HealthyPassesFinish | internal/controllers/storagenodeset/sync.go:24-52 | after more healthy passes than its rank a node set is Ready, or Paused, with every condition true if and only if it runs the nodes asked for |
| NodeSetProgress.FailuresAreReported | internal/controllers/storagenodeset/sync.go:88-265 | a failed sync takes the preparation and readiness back, an unreadable StatefulSet leaves the status, a switched-off pass everything |
| OwnedNodeSets.Pusher.SyncBuilders | internal/controllers/storage/sync.go:336-397 | the node sets are created or updated one by one until one fails, as the model's push says |
| OwnedNodeSets.Pusher.PruneKind | internal/controllers/storage/sync.go:424-531 | the owned node sets of one kind that are not listed are deleted, and only those |
| OwnedNodeSets.PushAllDelivers | internal/resources/storage.go:236-338 | after a push that succeeds every listed node set is owned and has the spec recast from its deciding entry |
| OwnedNodeSets.PushAllFrame | internal/resources/storage.go:236-281 | a push changes listed node sets only, keeps certificates it does not outdate, and deletes nothing |
| OwnedNodeSets.PushSucceedsIff | internal/controllers/storage/sync.go:336-397 | the push succeeds if and only if every call does and no listed node set is another controller's |
| OwnedNodeSets.OthersAreLeft | internal/controllers/storage/sync.go:336-397 | objects of other controllers are not touched |
| OwnedNodeSets.ListedAgainTooEarly | internal/controllers/storage/sync.go:336-407 | a remote node set listed again while its deletion waits for its finalizer: the push succeeds and the object is not live |
| OwnedNodeSets.OwnedEqualsDesired | internal/controllers/storage/sync.go:336-407 | whatever was there before, live owned node sets equal the listed ones, kind by kind, if and only if no listed one was already being deleted |
| Handshake.ProvisionedOnlyPastTheWait | internal/controllers/storage/sync.go:213-281 | StorageProvisioned turns true, and the state leaves Provisioning, only in a pass that gets past the wait |
| Handshake.WaitReports | internal/controllers/storage/sync.go:121-294 | a writing pass at the wait reports a lag and takes readiness back, reports all nodes running once, and otherwise reports nothing |
| Handshake.EntersUnknown | internal/controllers/storage/sync.go:121-141 | on entering Provisioning the nodes are reported as not known yet |
| Handshake.WaitNeeds | internal/controllers/storage/sync.go:307-422 | the wait is only passed when every builder and the pruning succeeded, and every listed node set is readable and not another controller's |
| Handshake.FailedSyncLeaves | internal/controllers/storage/sync.go:307-422 | where a builder fails nothing is deleted, and where one before the node sets does nothing is pushed |
| Handshake.PushReachesTheStatefulSet | internal/resources/storage.go:283-338 | after a push, the next syncing pass of a listed child scales its StatefulSet to the nodes listed, or to none if the parent is paused |
| Handshake.HandshakeHolds | internal/controllers/storage/sync.go:213-281 | in every run, past the wait each local node set has the listed nodes, a true certificate at its current generation, and a controller that saw exactly that number ready |
| Handshake.NoResizeOnOldCertificate | internal/controllers/storage/sync.go:213-281 | a pass that pushes a changed spec to a local child does not get past the wait |
| Handshake.CertifiedCountsSumToNodes | internal/resources/storage.go:283-298 | the spec counts of the objects waited for, local or remote, sum to the nodes of the Storage if and only if those of the overridden entries add up to nothing |
| Handshake.NoNodesShadowed | internal/resources/storage.go:283-298 | with no negative count they do so only if no overridden entry has nodes |
| StaleCertificates.StaleBlocksEveryPass | internal/controllers/storagenodeset/sync.go:252-261 | while a child keeps its incarnation and never gives up a true certificate of an older generation, no pass of a Storage listing it gets past the wait, over any stretch of any run |
| StaleCertificates.GivingUpRenews | internal/controllers/storagenodeset/sync.go:235-261 | one pass that sees another number and one that sees the asked number again certify the current generation and change nothing else |
| StaleCertificates.OnlyGivingUpRenews | internal/controllers/storagenodeset/sync.go:252-261 | in any run in which the incarnation stays, a certificate that is no longer stale was given up on the way |
| StaleCertificates.UpToDatePasses | internal/controllers/storage/sync.go:213-281 | a pass that comes to the wait gets past it once every listed child is pushed, certified at its generation and readable |
| StaleCertificates.RenewalUnblocks | internal/controllers/storage/sync.go:213-281 | after the renewal, with every other listed child up to date, the next such pass of the parent gets past the wait |
| StaleCertificates.OldCertificatesAreStale | internal/controllers/storagenodeset/sync.go:193-265 | in every run a local child with a true certificate is past its preparation, so that an older generation makes it stale |
| StaleCertificates.StaleHappens | internal/controllers/storage/sync.go:213-281 | a run from a new cluster in which an edit without another number of nodes leaves a listed child stale |
| DatabaseReconciler.Reconciler.Sync | internal/controllers/database/sync.go:29-73 | the step-by-step pass over a Database equals the model's |
| DatabaseReconciler.Reconciler.UpdateStatus | internal/controllers/database/sync.go:488-554 | an unmet stage takes readiness, or the pause, back before the one status write |
| DatabaseReconciler.Reconciler.SetInitPipelineStatus | internal/controllers/database/init.go:21-54 | start of initialization and the two shortcuts; continuing changes nothing |
| DatabaseReconciler.Reconciler.CheckCreateDatabaseOperation | internal/controllers/database/init.go:78-164 | what polling the creation leaves in the status for every answer |
| DatabaseReconciler.Reconciler.WaitForNodeSetsToProvisioned | internal/controllers/database/sync.go:187-285 | stopping passes end as the model says; continuing changes nothing and leaves the pause step to decide |
| DatabaseReconciler.Reconciler.WaitForStatefulSetToScale | internal/controllers/database/sync.go:287-363 | the same for one StatefulSet, with serverless Databases let through |
| DatabaseReconciler.Reconciler.InitializeTenant | internal/controllers/database/init.go:166-321 | polling or submitting, as the tenant stage of the model |
| TenantSafety.InitializedOnlyWithTenant | internal/controllers/database/init.go:21-76 | in every run, initialized implies a completed CreateDatabaseOperation, and the very pass that turned it true saw the skip annotation, or an older release's condition was there at the start, or the CMS had confirmed a tenant at exactly the path |
| TenantSafety.CreatedForGood | internal/controllers/database/init.go:166-321 | a confirmed tenant stays confirmed through every continuation of the run |
| TenantSafety.RequestsAreGuarded | internal/controllers/database/init.go:271-320 | over any run a pass asks for the tenant at most once, at its own path, with its Storage initialized, its resources described and credentials at hand, never while an operation is recorded as running or after initialization |
| TenantSafety.PathIsConstant | api/v1alpha1/database_webhook.go:213-224 | the path and the domain are the same throughout every run of accepted edits |
| TenantSafety.FailureIsRetried | internal/controllers/database/init.go:121-138 | whatever a failed creation left behind, three healthy rounds initialize the Database |
| TenantSafety.RoundDescends | internal/controllers/database/init.go:78-164 | each healthy round strictly lowers what the tenant still needs |
| TenantSafety.UnaskedLeaves | internal/controllers/database/init.go:21-54 | without description, credentials or a ready shared Database nothing changes; the annotation and the old condition complete the tenant |
| TenantSafety.PollLeaves | internal/controllers/database/init.go:78-164 | what each answer to polling leaves: completed, still recorded, given up, or unchanged |
| TenantSafety.SubmitLeaves | internal/controllers/database/init.go:271-320 | what each answer to a request leaves; only a running operation is recorded |
| DatabaseModel.LegacyPathsDiffer | api/v1alpha1/database_webhook.go:41-43 | two Databases get the same path of their own if and only if their names and their domains are the same |
| DatabaseModel.DefaultSettlesThePath | api/v1alpha1/database_webhook.go:54-121 | defaulting fills domain and path, and only while the operator is on |
| DatabaseWait.UnpreparedIsReported | internal/controllers/database/sync.go:108-185 | an unreadable Storage changes nothing; one not initialized, or a failed sync, takes the preparation and readiness back |
| DatabaseWait.SyncsOnlyOnInitializedStorage | internal/controllers/database/sync.go:29-73 | resources are synced exactly by passes past Pending that find the Storage initialized and the operator on |
| DatabaseWait.WaitReports | internal/controllers/database/sync.go:187-363 | a writing pass at the wait reports a lag and takes readiness back, reports all nodes running once, and otherwise reports nothing |
| DatabaseWait.ProvisionedOnlyPastTheWait | internal/controllers/database/sync.go:187-363 | DatabaseProvisioned turns true only in a pass that read the asked number, or a true certificate at its generation for every listed node set; the state leaves Provisioning only then, or for a serverless Database without node sets |
| DatabaseWait.ProvisionedStandsOnAReading | internal/controllers/database/sync.go:187-363 | in every run a true DatabaseProvisioned stands on such a reading, since which no writing pass at the wait has read a lag |
| DatabaseProgress.HealthyPassDescends | internal/controllers/database/sync.go:29-73 | a healthy pass over a Database neither done nor blocked strictly lowers its rank |
| DatabaseProgress.HealthyRoundsFinish | internal/controllers/database/sync.go:29-73 | after as many healthy rounds as its rank a Database is Ready, or Paused, if and only if something says where its tenant comes from and no lag was left behind when it lost its own nodes |
| DatabaseProgress.LosingNodesWhileLagging | internal/controllers/database/sync.go:293-348 | an accepted edit to a serverless Database without node sets right after a lag blocks it |
| MirrorReconciler.Reconciler.Reconcile | internal/controllers/remotestoragenodeset/controller.go:56-108 | the step-by-step pass, with its finalizer handling, equals the model's |
| MirrorReconciler.Reconciler.Sync | internal/controllers/remotestoragenodeset/sync.go:20-54 | the order of the steps of a pass, as the model says |
| MirrorReconciler.Reconciler.InitRemoteObjectsStatus | internal/controllers/remotestoragenodeset/remote_objects.go:25-51 | the first object that is not listed is appended and the pass stops; continuing means all are listed |
| MirrorReconciler.Reconciler.SyncRemoteObjects | internal/controllers/remotestoragenodeset/remote_objects.go:53-196 | the loop changes at most one copy and marks its entry, which is always found |
| MirrorReconciler.Reconciler.RemoveUnusedRemoteObjects | internal/controllers/remotestoragenodeset/remote_objects.go:198-325 | the loops over list and candidates release copies and cut entries as the model says, never from an empty list |
| MirrorReconciler.Reconciler.CopyPrimaryAnnotations | internal/resources/resource.go:265-274 | exactly the ownership annotations are taken over |
| MirrorReconciler.Reconciler.DeleteExternalResources | internal/controllers/remotestoragenodeset/controller.go:227-256 | the node set goes first, then the copies are released; success as the model says |
| MirrorReconciler.FirstIsListed | internal/resources/remotestoragenodeset.go:220-232 | the entry to cut out is in the list, for the first candidate and for those after it |
| MirrorSafety.NothingToPatch | internal/resources/resource.go:322-338 | no patch is left exactly when content, plain annotations and version agree with the remote object and the owners are in place |
| MirrorSafety.UpdateIsIdempotent | internal/resources/resource.go:239-283 | identity, service addresses and owners of the local object are kept, and a second update changes nothing |
| MirrorSafety.PatchIsEnough | internal/resources/resource.go:322-338 | after one patch the copy is faithful, the same object, and owned by whom it was, else by the remote object's owner, else by the mirror's Storage |
| MirrorSafety.CreationLacksTheOwner | internal/resources/resource.go:217-237 | a created copy is faithful exactly if the remote object already named a storage owner |
| MirrorSafety.SyncContinuesInOrder | internal/controllers/remotestoragenodeset/remote_objects.go:151-192 | synchronization continues if and only if every object was readable, is listed as synced and is faithfully copied |
| MirrorSafety.RefsAreNeeded | internal/resources/remotestoragenodeset.go:92-145 | what is mirrored is exactly the Secrets named in the spec, the ConfigMap of the Storage and its three Services |
| MirrorSafety.MarksAreEarned | internal/controllers/remotestoragenodeset/remote_objects.go:53-196 | an entry is marked synced exactly if the copy was made, patched or found right, and failed otherwise; an unreadable remote object changes nothing |
| MirrorSafety.CleanUpIsExact | internal/controllers/remotestoragenodeset/remote_objects.go:207-322 | the new list is the old one, in order, without the unused entries whose copies were found; copies still in the spec are untouched |
| MirrorSafety.RemovalIsExact | internal/resources/remotestoragenodeset.go:220-232 | cutting a listed entry out of a list without duplicates leaves exactly the others |
| MirrorSafety.RemovalOfTheUnlisted | internal/resources/remotestoragenodeset.go:220-232 | the head of the list goes exactly when it is the entry asked for or none is |
| MirrorSafety.NeverListedTwice | internal/controllers/remotestoragenodeset/remote_objects.go:32-47 | over any run no object is listed twice |
| MirrorSafety.ClaimsStand | internal/controllers/remotestoragenodeset/remote_objects.go:278-320 | over any run a database annotation on a copy is neither removed nor changed and the copy not deleted |
| MirrorSafety.ReleaseDeletesTheUnclaimed | internal/controllers/remotestoragenodeset/remote_objects.go:298-320 | one release, whether or not other node sets are there, deletes the copy exactly when it bears no database annotation and the call succeeds |
| MirrorSafety.ReleaseDisowns | internal/controllers/remotestoragenodeset/remote_objects.go:278-320 | a copy that stays loses its storage annotation exactly if no other node set is there and the call succeeds, and nothing else |
| MirrorSafety.LetsGoIff | internal/controllers/remotestoragenodeset/controller.go:69-102 | a pass lets a RemoteStorageNodeSet under deletion go if and only if every call it takes succeeds; otherwise the finalizer stays |
| MirrorSafety.CleaningDecides | internal/controllers/remotestoragenodeset/remote_objects.go:242-322 | the loop over the candidates decides for each copy found as if it were the only one |
| MirrorSafety.NoOrphans | internal/controllers/remotestoragenodeset/controller.go:69-102 | over any run a mirrored node set that is not on its way out has a RemoteStorageNodeSet with its finalizer; when that goes, a node set of the name is left if and only if a finalizer holds it, and then on its way out |
| MirrorProgress.PassDescends | internal/controllers/remotestoragenodeset/remote_objects.go:25-325 | a healthy pass runs to its end exactly when nothing is left to do and otherwise strictly lowers the weighted rest |
| MirrorProgress.AbsentSticks | internal/controllers/remotestoragenodeset/remote_objects.go:261-267 | an unused entry without its copy stays, and no pass ends, whatever the calls answer |
| MirrorProgress.FailedWriteLosesTheCopy | internal/controllers/remotestoragenodeset/remote_objects.go:304-324 | a cleaning pass whose status write fails deletes an unclaimed copy and keeps its entry |
| MirrorProgress.FailedWriteBlocksForEver | internal/controllers/remotestoragenodeset/remote_objects.go:261-324 | after that no pass over the same spec ever runs to its end, whatever the calls answer |
| MirrorPair.SharedCopySurvivesIff | internal/controllers/remotestoragenodeset/remote_objects.go:240-320 | over any run of two mirrors, a copy one of them cleans up while the other asks for it survives if and only if a database claims it or its deletion fails |
| MirrorPair.OtherBringsItBack | internal/controllers/remotestoragenodeset/remote_objects.go:53-196 | the other mirror has the copy back after as many healthy passes as its world weighs |
| MirrorPair.SharedCopyIsTaken | internal/controllers/remotestoragenodeset/controller.go:227-256 | a run in which two mirrors settle and deleting one takes a Secret the other has in order |
| MirrorProgress.MirrorConverges | internal/controllers/remotestoragenodeset/sync.go:20-54 | after as many healthy passes as the world weighs, passes run to their end if and only if no unused entry had lost its copy |
| MirrorProgress.FinishedIsSettled | internal/controllers/remotestoragenodeset/sync.go:20-185 | such a pass leaves every needed object in order and no other listed, spec and status carried over; the next one changes nothing |
| MirrorProgress.FinishesIff | internal/controllers/remotestoragenodeset/sync.go:20-54 | a pass runs to its end if and only if every needed object has a faithful copy reported so, no other is listed, and the calls that are left succeed |
| MirrorProgress.PushedNodeSet | internal/controllers/remotestoragenodeset/sync.go:56-109 | a pushed StorageNodeSet has the spec of the mirror and is otherwise as it was; a new one is in its first state |
| GuardedApply.Client.CreateOrUpdateOrMaybeIgnore | internal/resources/resource.go:150-193 | the method leaves the cluster and answers exactly as the model's application |
| GuardedApply.Client.TryProcessNonExistingObject | internal/resources/resource.go:110-148 | an existing object is left for updating; otherwise the application is complete |
| GuardedApply.Client.CompareMaps | internal/resources/resource.go:573-583 | the loop decides equality of maps |
| GuardedApply.ApplyIsLocal | internal/resources/resource.go:91-193 | one application touches no other object and moves or removes none |
| GuardedApply.SelectorsNeverChange | internal/resources/resource.go:171-178 | over any run an existing StatefulSet keeps its selector, and every object its type, name and namespace |
| GuardedApply.ProtectedNeverRewritten | internal/controllers/database/sync.go:365-381 | over any run an object its owners' guard protects is not rewritten, whatever is built |
| GuardedApply.UnprotectedIsReplaced | internal/resources/resource.go:150-193 | for every guard, kind and answer: an existing object the guard does not protect becomes what is built, under its old selector, and the answer is Updated exactly if that differs |
| GuardedApply.MissingIsCreated | internal/resources/resource.go:110-148 | for every guard a missing object is created as built, but for the case that panics |
| GuardedApply.StatefulSetApplied | internal/controllers/storagenodeset/sync.go:333-342 | for every owner: nothing new for a StatefulSet at zero while paused, otherwise the template and replicas asked for under the old selector |
| GuardedApply.GeneratedKeyStands | internal/resources/encryption.go:21-46 | the encryption Secret keeps the first key drawn through every run in which it is applied by Databases, whatever happens to other objects |
| GuardedApply.PauseAndResume | internal/resources/storage_statefulset.go:64-75 | for every owner, pausing scales to zero, holds exactly so, and resuming restores the replicas under the first selector |
| GuardedApply.PanicsExactly | internal/controllers/databasenodeset/sync.go:333-342 | applying panics if and only if a paused DatabaseNodeSet creates its StatefulSet |
| Hosts.GenerateHosts | api/v1alpha1/configuration.go:14-48 | the loops give the hosts of the specification, or run past the list exactly when that has none |
| Hosts.BuildConfiguration | api/v1alpha1/configuration.go:50-88 | hosts are generated only where the configuration has none |
| Hosts.HostsAreDistinct | api/v1alpha1/configuration.go:17-44 | hosts are numbered from 1 and have pairwise distinct names if the node sets have |
| Hosts.RacksAreDistinct | api/v1alpha1/configuration.go:24-34 | racks are pairwise distinct, bodies count up from 12340, and the port is 19001 |
| Hosts.OneZoneOtherwise | api/v1alpha1/configuration.go:17-34 | without mirror-3-dc there is one zone; the host configuration is always the first |
| Hosts.NamesSpelled | api/v1alpha1/configuration.go:24-44 | the names of hosts and pods, spelled out |
| Hosts.HostsAreThePods | api/v1alpha1/configuration.go:36-45 | the host names are exactly the pods of the StatefulSets if and only if the node counts add up; generation leaves its bounds exactly if they exceed the nodes |
| Hosts.HostsAreThePodsOfOne | internal/resources/storage_statefulset.go:64-75 | without node sets the host names are always exactly the pods |
| Hosts.CountNodes | api/v1alpha1/storage_webhook.go:259-267 | the loop adds the counts with 32-bit wrap-around |
| Hosts.AdmittedHostsAreThePods | api/v1alpha1/storage_webhook.go:221-267 | for non-negative counts an admitted Storage with generated hosts has an exact sum and hosts that are the pods |
| Hosts.AdmittedIffEnoughNodes | api/v1alpha1/storage_webhook.go:221-236 | without node sets a Storage is admitted if and only if it has 3, 8 or 1 nodes for its erasure |
| Hosts.FrozenWhileOff | api/v1alpha1/storage_webhook.go:408-424 | switching the operator off is accepted, and then no edit changes anything until it is on again |
| Hosts.PausedAsksForNone | internal/resources/storage_statefulset.go:64-67 | a paused Storage asks for no pods |
| Hosts.WrappedCountsAreAdmitted | api/v1alpha1/storage_webhook.go:259-267 | a concrete Storage with negative counts that is admitted although its host is no pod |
| Hosts.ZonesAreBalanced | api/v1alpha1/configuration.go:17-33 | for mirror-3-dc two zones differ by at most one host, and an admitted Storage has one in each |
| Hosts.HostsStay | api/v1alpha1/configuration.go:72-85 | hosts once in the configuration stay through every run of edits that carry the configuration on |
| Hosts.SamePodsIff | internal/resources/storage_statefulset.go:64-75 | two Storages ask for the same pods if and only if they ask for as many replicas under every name |
| Hosts.HostsFollowEditsIff | api/v1alpha1/storage_webhook.go:345-446 | after any run of such edits the generated hosts are the pods if and only if every name has the replicas it had when they were generated |
| Hosts.ScalingOutrunsTheHosts | api/v1alpha1/storage_webhook.go:345-446 | an accepted scaling edit whose new pod is no host |
| Labels.LabelSet.Merge | internal/labels/label.go:61-71 | every key of the other map wins, every other key stays |
| Labels.MakeCommonLabels | internal/labels/label.go:73-100 | each common label, with part-of kept and the node-set and cluster labels carried over |
| Labels.BuildNodeSet | internal/resources/storage.go:59-68 | the labels of a node set key by key |
| Labels.BuildServiceLabels | internal/resources/storage.go:97-107 | service labels are merged on a copy |
| Labels.BuildStatefulSet | internal/resources/storage_statefulset.go:105-113 | the labels of the pods key by key |
| Labels.ServicesSelectDirectPods | internal/resources/storage.go:34-46 | services select the pods of a Storage if and only if the labels users add agree with the selector |
| Labels.SelectedAreItsOwn | internal/resources/storage.go:34-39 | what is selected is a storage node of the Storage of that name |
| Labels.ServicesSelectOthersIff | internal/labels/label.go:73-100 | the pods of another Storage are selected if and only if names, application and carried-over labels agree, so never in one namespace |
| Labels.ServicesSelectNodeSetPods | api/v1alpha1/storagenodeset_types.go:77-90 | through recasting, services select a node set's pods if and only if the added labels agree and the node set does not rename the application |
| Labels.ReservedKeysKept | internal/resources/storagenodeset.go:56-79 | with user maps off the reserved keys, they do if and only if the Storage's own labels name no other node set or remote cluster |
| Labels.StatefulSetsSelectTheirOwn | internal/resources/storage_statefulset.go:69-76 | siblings select their own pods and not each other's if and only if added pod labels leave their key alone |

## Left out

- Each key has one worker and reads are fresh within a pass; stale caches are not modelled, and a write conflict is a call that fails.
- Timestamps, requeue delays, events, logs and metrics; condition messages except where they are read back, that is whether one is empty and which operation it names.
- gRPC connections, credentials and TLS loading are single answers of the environment; the self-check that ends a Storage pass only reads and reports, and is not modelled.
- YAML and its parsing: a configuration is its hosts, its version, whether its mandatory fields are present, and an abstract rest. A configuration taken from a Database instead of its Storage is not modelled.
- The three-way patch and the last-applied annotation: a patch is empty exactly when two objects are equal but for their status, and applying it yields the updated object.
- Pod specs beyond replicas, selectors and labels; PVCs, volumes, probes; the monitoring resources.
- OwnedNodeSets.Pusher.SyncBuilders: runs the builders of the node sets only; those before and after them in the list are single answers of the environment in `Handshake`.
- The database versions of the node-set and mirror code.
- The database-side cleanup of the mirror, which does not spare the storage annotation.
- The deletion of the initialization Job and of mirrored Secrets, ConfigMaps and Services takes effect at once; finalizers are modelled on node sets and on the RemoteStorageNodeSet.
- Remote node sets in the handshake: their conditions are copied with another object's generation, so no certificate is claimed for them.
- Parts of the admission webhooks other than node counts, hosts, and a Database's domain and path.
