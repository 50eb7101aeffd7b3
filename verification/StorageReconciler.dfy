/** The Storage reconciler step by step: each step edits an in-memory copy of the status and either
    stops the pass, possibly persisting the copy, or lets it continue with the status untouched.
    `Sync` is proved to do exactly what `StorageModel.Pass` says. */
module StorageReconciler {
  import opened Wrappers
  import opened Conditions
  import opened Cms
  import opened Stages
  import opened Scaling
  import opened StorageModel

  class Reconciler {
    // What the API server and the CMS hold.
    const past: seq<StorageSpec>
    const spec: StorageSpec
    const skipInit: bool
    var stored: Status
    var job: Option<Job>
    var cms: seq<ConfigOperation>
    // The pass under way: its copy of the status, and what it has called so far.
    var status: Status
    var actions: seq<Action>

    constructor (w: World)
      ensures Here() == w
    {
      past, spec, skipInit := w.past, w.spec, w.skipInit;
      stored, job, cms := w.status, w.job, w.cms;
      status, actions := w.status, [];
    }

    ghost function Here(): World reads this { World(past, spec, skipInit, stored, job, cms) }

    ghost function Now(): Outcome reads this { Outcome(stored, job, cms, actions) }

    /** A step is entered with the status as read and nothing but the resource sync behind it. */
    ghost predicate Entered(acts: seq<Action>) reads this { status == stored && actions == acts }

    method SetCondition(kind: ConditionType, value: ConditionStatus, reason: Reason, generation: nat, message: Message)
      modifies this`status
      ensures status == Status(old(status.state),
                SetStatusCondition(old(status.conditions), Condition(kind, value, reason, generation, message)))
    {
      status := status.(conditions :=
        SetStatusCondition(status.conditions, Condition(kind, value, reason, generation, message)));
    }

    method UpdateStatus(env: PassEnv)
      modifies this`status, this`stored, this`actions
      ensures var s := Status(old(status.state),
                              Demote(STORAGE_STAGES, spec.pause, |past| + 1, old(status.conditions)));
              if env.statusWritten then stored == s && actions == old(actions) + [WriteStatus(s)]
              else stored == old(stored) && actions == old(actions)
    {
      if Is(status.conditions, StoragePrepared, False)
        || Is(status.conditions, StorageInitialized, False)
        || Is(status.conditions, StorageProvisioned, False)
      {
        if spec.pause {
          SetCondition(StoragePaused, False, InProgress, |past| + 1, Empty);
        } else {
          SetCondition(StorageReady, False, InProgress, |past| + 1, Empty);
        }
      }
      if env.statusWritten {
        stored := status;
        actions := actions + [WriteStatus(status)];
      }
    }

    /** Set one condition, move the state and persist: how a stage ends the pass. */
    method Finish(env: PassEnv, state: ClusterState, kind: ConditionType, value: ConditionStatus,
                  reason: Reason, message: Message)
      requires status == stored
      modifies this`status, this`stored, this`actions
      ensures var s := Updated(STORAGE_STAGES, spec.pause, |past| + 1, old(stored.conditions),
                               Put(state, Condition(kind, value, reason, |past| + 1, message)));
              if env.statusWritten then stored == s && actions == old(actions) + [WriteStatus(s)]
              else stored == old(stored) && actions == old(actions)
    {
      SetCondition(kind, value, reason, |past| + 1, message);
      status := status.(state := state);
      UpdateStatus(env);
    }

    method SetInitialStatus(env: PassEnv) returns (stop: bool)
      requires Entered([])
      modifies this`status, this`stored, this`actions
      ensures stop == (old(stored.conditions) == [])
      ensures stop ==> Now() == Pass(old(Here()), env)
      ensures !stop ==> unchanged(this)
    {
      if status.conditions == [] {
        if spec.pause {
          Finish(env, status.state, StoragePaused, Unknown, InProgress, Note);
        } else {
          Finish(env, status.state, StorageReady, Unknown, InProgress, Note);
        }
        return true;
      }
      return false;
    }

    method HandleResourcesSync(env: PassEnv) returns (stop: bool)
      requires Entered([]) && stored.conditions != []
      modifies this`status, this`stored, this`actions
      ensures stop ==> Now() == Pass(old(Here()), env)
      ensures !stop ==> Entered([SyncResources]) && stored == old(stored) && ResourcesSynced(old(Here()), env)
    {
      if status.state.Pending? {
        Finish(env, Preparing, StoragePrepared, Unknown, InProgress, Note);
        return true;
      }
      if !spec.operatorSync {
        return true;
      }
      ghost var w := Here();
      actions := actions + [SyncResources];
      stop := ReportSync(env);
      if stop {
        SyncStops(w, env);
      }
    }

    method ReportSync(env: PassEnv) returns (stop: bool)
      requires Entered([SyncResources])
      modifies this`status, this`stored, this`actions
      ensures stop == !(Synced(env) && Is(old(stored.conditions), StoragePrepared, True))
      ensures !stop ==> unchanged(this)
      ensures stop ==>
                && stored == (if env.statusWritten
                              then Updated(STORAGE_STAGES, spec.pause, |past| + 1, old(stored.conditions),
                                           Put(old(stored.state), PreparedCondition(Synced(env), |past| + 1)))
                              else old(stored))
                && actions == [SyncResources] + (if env.statusWritten then [WriteStatus(stored)] else [])
    {
      if !env.resourcesOk || !env.nodeSetsPrunedOk {
        Finish(env, status.state, StoragePrepared, False, InProgress, Note);
        return true;
      }
      if !Is(status.conditions, StoragePrepared, True) {
        Finish(env, status.state, StoragePrepared, True, Completed, Note);
        return true;
      }
      return false;
    }

    method SetInitPipelineStatus(env: PassEnv) returns (stop: bool)
      requires Entered([SyncResources]) && ResourcesSynced(Here(), env)
      requires !Is(stored.conditions, StorageInitialized, True)
      modifies this`status, this`stored, this`actions
      ensures stop ==> Now() == Pass(old(Here()), env)
      ensures !stop ==> unchanged(this) && !stored.state.Preparing? && !skipInit
                        && !Is(stored.conditions, OLD_STORAGE_INITIALIZED, True)
    {
      if status.state.Preparing? {
        Finish(env, Initializing, StorageInitialized, Unknown, InProgress, Note);
        return true;
      }
      if skipInit {
        Finish(env, status.state, StorageInitialized, True, Completed, Note);
        return true;
      }
      if Is(status.conditions, OLD_STORAGE_INITIALIZED, True) {
        Finish(env, status.state, StorageInitialized, True, Completed, Note);
        return true;
      }
      return false;
    }

    /** The pods of the Job are read in order until one decides. */
    method CheckPods(pods: Option<seq<Pod>>) returns (r: LogCheck)
      ensures r == CheckFailedJob(pods)
    {
      if pods.None? {
        return LogError;
      }
      for i := 0 to |pods.value|
        invariant CheckFailedJob(pods) == CheckLogs(pods.value[i..])
      {
        var pod := pods.value[i];
        assert pods.value[i..][1..] == pods.value[i + 1..];
        if pod.failed {
          if pod.log.None? {
            return LogError;
          }
          if pod.log.value {
            return AlreadyInitialized;
          }
        }
      }
      return NoMatch;
    }

    method HasFailedCondition(conditions: seq<JobCondition>) returns (failed: bool)
      ensures failed == (JobFailed in conditions)
    {
      failed := false;
      for i := 0 to |conditions|
        invariant failed == (JobFailed in conditions[..i])
      {
        if conditions[i].JobFailed? {
          failed := true;
          break;
        }
      }
    }

    method DeleteJobAndFinish(env: PassEnv, value: ConditionStatus, reason: Reason, message: Message)
      requires Entered([SyncResources]) && env.jobDeleted
      modifies this`status, this`stored, this`actions, this`job
      ensures job == None && cms == old(cms)
      ensures var s := Updated(STORAGE_STAGES, spec.pause, |past| + 1, old(stored.conditions),
                               Put(old(stored.state),
                                   Condition(StorageInitialized, value, reason, |past| + 1, message)));
              if env.statusWritten then stored == s && actions == [SyncResources, DeleteJob, WriteStatus(s)]
              else stored == old(stored) && actions == [SyncResources, DeleteJob]
    {
      job := None;
      actions := actions + [DeleteJob];
      Finish(env, status.state, StorageInitialized, value, reason, message);
    }

    method InitializeBlobstorage(env: PassEnv)
      requires Entered([SyncResources])
      requires !stored.state.Preparing? && !skipInit && !Is(stored.conditions, OLD_STORAGE_INITIALIZED, True)
      modifies this`status, this`stored, this`actions, this`job
      ensures Now() == Commit(old(Here()), env, DecideInitialization(old(Here()), env))
    {
      if !env.jobReadable {
        return;
      }
      if job.None? {
        if env.jobCreated {
          job := Some(FRESH_JOB);
          actions := actions + [CreateJob];
        }
        return;
      }
      if job.value.succeeded > 0 {
        Finish(env, status.state, StorageInitialized, True, Completed, Note);
        return;
      }
      var conditionFailed := HasFailedCondition(job.value.conditions);
      var logs := CheckPods(env.pods);
      if logs.LogError? {
        return;
      }
      if logs.AlreadyInitialized? {
        if env.jobDeleted {
          DeleteJobAndFinish(env, True, Completed, Note);
        }
        return;
      }
      if job.value.failed == job.value.backoffLimit || conditionFailed {
        if env.jobDeleted {
          DeleteJobAndFinish(env, False, InProgress, Empty);
        }
      }
    }

    method HandleBlobstorageInit(env: PassEnv)
      requires Entered([SyncResources]) && ResourcesSynced(Here(), env)
      requires !Is(stored.conditions, StorageInitialized, True)
      modifies this`status, this`stored, this`actions, this`job
      ensures Now() == Pass(old(Here()), env)
    {
      var stop := SetInitPipelineStatus(env);
      if !stop {
        InitializeBlobstorage(env);
      }
    }

    method SetConfigPipelineStatus(env: PassEnv)
      requires Entered([SyncResources]) && InitializationDone(Here(), env) && ConfigStale(Here())
      modifies this`status, this`stored, this`actions
      ensures Now() == Pass(old(Here()), env)
    {
      match spec.config
      case Static(_) =>
        Finish(env, status.state, ConfigurationSynced, True, NotRequired, Note);
      case Dynamic(_, version, _) =>
        if !env.credentials || env.cmsVersion.None? {
          return;
        }
        if env.cmsVersion.value > version {
          Finish(env, status.state, ConfigurationSynced, True, NotRequired, Note);
        } else {
          Finish(env, status.state, ConfigurationSynced, Unknown, InProgress, Note);
        }
    }

    method Record(env: PassEnv, check: Check)
      requires status == stored
      modifies this`status, this`stored, this`actions
      ensures var s := Updated(STORAGE_STAGES, spec.pause, |past| + 1, old(stored.conditions),
                               Put(old(stored.state), ReplyCondition(|past| + 1, check)));
              if env.statusWritten then stored == s && actions == old(actions) + [WriteStatus(s)]
              else stored == old(stored) && actions == old(actions)
    {
      if check.failed {
        Finish(env, status.state, ReplaceConfigOperation, False, Failed, Note);
      } else if !check.finished {
        Finish(env, status.state, ReplaceConfigOperation, Unknown, InProgress, check.id);
      } else {
        Finish(env, status.state, ReplaceConfigOperation, True, Completed, Note);
      }
    }

    /** The CMS takes the request: its log grows by one operation. */
    method Take(result: OpResult) returns (id: nat)
      modifies this`cms
      ensures id == |old(cms)| && cms == old(cms) + [ConfigOperation(|past| + 1, spec.config, result)]
    {
      id := |cms|;
      cms := cms + [ConfigOperation(|past| + 1, spec.config, result)];
    }

    /** The request was taken: its answer is recorded, unless the call failed. */
    method RecordReply(env: PassEnv, reply: Option<Check>)
      requires status == stored
      modifies this`status, this`stored, this`actions
      ensures reply.None? || !env.statusWritten ==> stored == old(stored) && actions == old(actions)
      ensures reply.Some? && env.statusWritten ==>
                && stored == Updated(STORAGE_STAGES, spec.pause, |past| + 1, old(stored.conditions),
                                     Put(old(stored.state), ReplyCondition(|past| + 1, reply.value)))
                && actions == old(actions) + [WriteStatus(stored)]
    {
      if reply.None? {
        SetCondition(ReplaceConfigOperation, False, Failed, |past| + 1, Note);
      } else {
        Record(env, reply.value);
      }
    }

    method ReplaceConfig(env: PassEnv)
      requires Entered([SyncResources])
      modifies this`status, this`stored, this`actions, this`cms
      ensures Now() == Commit(old(Here()), env, DecideSubmit(old(Here()), env))
    {
      ghost var w := Here();
      actions := actions + [SubmitConfig(|past| + 1, spec.config)];
      if env.submission.Refused? {
        SetCondition(ReplaceConfigOperation, False, Failed, |past| + 1, Note);
        return;
      }
      var id := Take(env.submission.taken);
      RecordReply(env, ReplyTo(env.submission, id));
      SubmitTaken(w, env);
    }

    method CheckReplaceConfigOperation(env: PassEnv)
      requires Entered([SyncResources]) && Polling(Here())
      modifies this`status, this`stored, this`actions
      ensures Now() == Commit(old(Here()), env, DecidePoll(old(Here()), env))
    {
      var id := Find(status.conditions, ReplaceConfigOperation).value.message;
      if id.Empty? {
        SetCondition(ReplaceConfigOperation, False, Failed, 0, Note);
        UpdateStatus(env);
        return;
      }
      if env.poll.PollFailed? {
        return;
      }
      var check := CheckOperationStatus(PollReply(Logged(cms, id), id, env.poll));
      if check.failed {
        SetCondition(ReplaceConfigOperation, False, Failed, 0, Note);
        return;
      }
      Record(env, check);
    }

    method HandleConfigurationSync(env: PassEnv)
      requires Entered([SyncResources]) && InitializationDone(Here(), env) && !ConfigStale(Here())
      requires !Is(stored.conditions, ConfigurationSynced, True)
      modifies this`status, this`stored, this`actions, this`cms
      ensures Now() == Pass(old(Here()), env)
    {
      if spec.config.Static? || !spec.config.valid || !env.credentials {
        return;
      }
      var condition := Find(status.conditions, ReplaceConfigOperation);
      if condition.Some? && condition.value.observedGeneration == |past| + 1 && condition.value.status.Unknown? {
        CheckReplaceConfigOperation(env);
      } else if condition.None? || condition.value.observedGeneration < |past| + 1 || condition.value.status.False? {
        ReplaceConfig(env);
      } else {
        Finish(env, status.state, ConfigurationSynced, True, Completed, Note);
      }
    }

    method WaitForStatefulSetToScale(env: PassEnv) returns (stop: bool)
      requires Entered([SyncResources]) && ConfigSettled(Here(), env) && spec.nodeSets.None?
      modifies this`status, this`stored, this`actions
      ensures stop ==> Now() == Pass(old(Here()), env)
      ensures !stop ==> unchanged(this) && ScaleReached(Here(), env)
    {
      if status.state.Initializing? {
        Finish(env, Provisioning, StorageProvisioned, Unknown, InProgress, Note);
        return true;
      }
      match env.statefulSet
      case Unreadable =>
        return true;
      case Replicas(ready) =>
        if ready != spec.nodes {
          Finish(env, status.state, StorageProvisioned, False, InProgress, Note);
          return true;
        }
        if !Is(status.conditions, StorageProvisioned, True) {
          Finish(env, status.state, StorageProvisioned, True, Completed, Note);
          return true;
        }
        return false;
    }

    method WaitForNodeSetsToProvisioned(env: PassEnv) returns (stop: bool)
      requires Entered([SyncResources]) && ConfigSettled(Here(), env) && spec.nodeSets.Some?
      modifies this`status, this`stored, this`actions
      ensures stop ==> Now() == Pass(old(Here()), env)
      ensures !stop ==> unchanged(this) && ScaleReached(Here(), env)
    {
      if status.state.Initializing? {
        Finish(env, Provisioning, StorageProvisioned, Unknown, InProgress, Note);
        return true;
      }
      var entries := spec.nodeSets.value;
      for i := 0 to |entries|
        invariant unchanged(this)
        invariant Scaled(spec, env) == ScanNodeSets(entries[i..], env.nodeSets)
      {
        var ref := NodeSetRef(entries[i].remote, entries[i].name);
        assert entries[i..][1..] == entries[i + 1..];
        if ref !in env.nodeSets {
          return true;
        }
        var view := env.nodeSets[ref];
        var condition := Find(view.conditions, NodeSetProvisioned);
        if condition.None? || condition.value.observedGeneration != view.generation || !condition.value.status.True? {
          Finish(env, status.state, StorageProvisioned, False, InProgress, Note);
          return true;
        }
      }
      if !Is(status.conditions, StorageProvisioned, True) {
        Finish(env, status.state, StorageProvisioned, True, Completed, Note);
        return true;
      }
      return false;
    }

    method HandlePauseResume(env: PassEnv) returns (stop: bool)
      requires Entered([SyncResources]) && ConfigSettled(Here(), env) && ScaleReached(Here(), env)
      modifies this`status, this`stored, this`actions
      ensures Now() == Pass(old(Here()), env)
      ensures !stop ==> unchanged(this)
    {
      if status.state.Provisioning? {
        if spec.pause {
          Finish(env, Paused, StoragePaused, True, Completed, Empty);
        } else {
          Finish(env, Ready, StorageReady, True, Completed, Empty);
        }
        return true;
      }
      if status.state.Ready? && spec.pause {
        Finish(env, Paused, StorageReady, False, NotRequired, Note);
        return true;
      }
      if status.state.Paused? && !spec.pause {
        Finish(env, Ready, StoragePaused, False, NotRequired, Note);
        return true;
      }
      if spec.pause {
        if !Is(status.conditions, StoragePaused, True) {
          Finish(env, status.state, StoragePaused, True, Completed, Empty);
          return true;
        }
      } else {
        if !Is(status.conditions, StorageReady, True) {
          Finish(env, status.state, StorageReady, True, Completed, Empty);
          return true;
        }
      }
      return false;
    }

    method Sync(env: PassEnv)
      modifies this
      ensures Now() == Pass(old(Here()), env)
    {
      status, actions := stored, [];
      var stop := SetInitialStatus(env);
      if stop {
        return;
      }
      stop := HandleResourcesSync(env);
      if stop {
        return;
      }
      if !Is(status.conditions, StorageInitialized, True) {
        HandleBlobstorageInit(env);
        return;
      }
      var configSync := Find(status.conditions, ConfigurationSynced);
      if configSync.None? || configSync.value.observedGeneration < |past| + 1 {
        SetConfigPipelineStatus(env);
        return;
      }
      if !Is(status.conditions, ConfigurationSynced, True) {
        HandleConfigurationSync(env);
        return;
      }
      if spec.nodeSets.Some? {
        stop := WaitForNodeSetsToProvisioned(env);
      } else {
        stop := WaitForStatefulSetToScale(env);
      }
      if stop {
        return;
      }
      stop := HandlePauseResume(env);
    }
  }

  predicate Synced(env: PassEnv) { env.resourcesOk && env.nodeSetsPrunedOk }

  function PreparedCondition(ok: bool, generation: nat): Condition {
    if ok then Condition(StoragePrepared, True, Completed, generation, Note)
    else Condition(StoragePrepared, False, InProgress, generation, Note)
  }

  /** A pass that ends with its resource sync, spelled out. */
  lemma SyncStops(w: World, env: PassEnv)
    requires w.status.conditions != [] && !w.status.state.Pending? && w.spec.operatorSync
    requires !(Synced(env) && Is(w.status.conditions, StoragePrepared, True))
    ensures var s := NewStatus(w, Put(w.status.state, PreparedCondition(Synced(env), w.Generation())));
            Pass(w, env) == if env.statusWritten then Outcome(s, w.job, w.cms, [SyncResources, WriteStatus(s)])
                            else Outcome(w.status, w.job, w.cms, [SyncResources])
  {
  }

  /** A request that was taken, spelled out. */
  lemma SubmitTaken(w: World, env: PassEnv)
    requires !env.submission.Refused?
    ensures var cms := w.cms + [ConfigOperation(w.Generation(), w.spec.config, env.submission.taken)];
            var asked := [SyncResources, SubmitConfig(w.Generation(), w.spec.config)];
            var reply := ReplyTo(env.submission, |w.cms|);
            Commit(w, env, DecideSubmit(w, env))
            == if reply.None? || !env.statusWritten then Outcome(w.status, w.job, cms, asked)
               else
                 var s := NewStatus(w, Put(w.status.state, ReplyCondition(w.Generation(), reply.value)));
                 Outcome(s, w.job, cms, asked + [WriteStatus(s)])
  {
  }

  // ----- How far a pass has come -----

  predicate ResourcesSynced(w: World, env: PassEnv) {
    && w.status.conditions != [] && !w.status.state.Pending? && w.spec.operatorSync
    && env.resourcesOk && env.nodeSetsPrunedOk && Is(w.status.conditions, StoragePrepared, True)
  }

  predicate InitializationDone(w: World, env: PassEnv) {
    ResourcesSynced(w, env) && Is(w.status.conditions, StorageInitialized, True)
  }

  predicate ConfigSettled(w: World, env: PassEnv) {
    InitializationDone(w, env) && !ConfigStale(w) && Is(w.status.conditions, ConfigurationSynced, True)
  }

  predicate ScaleReached(w: World, env: PassEnv) {
    && !w.status.state.Initializing? && Scaled(w.spec, env).Settled?
    && Is(w.status.conditions, StorageProvisioned, True)
  }
}
