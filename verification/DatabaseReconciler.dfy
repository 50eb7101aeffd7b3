/** The Database reconciler step by step; `Sync` is proved to do exactly what `DatabaseModel.Pass` says. */
module DatabaseReconciler {
  import opened Wrappers
  import opened Conditions
  import opened Cms
  import opened Scaling
  import opened Stages
  import opened DatabaseModel

  class Reconciler {
    // What the API server and the CMS hold.
    const name: string
    const generation: nat
    const spec: DatabaseSpec
    const skipInit: bool
    var stored: Status
    var cms: seq<TenantOperation>
    // The pass under way: its copy of the status, and what it has called so far.
    var status: Status
    var actions: seq<Action>

    constructor (w: World)
      ensures Here() == w
    {
      name, generation, spec, skipInit := w.name, w.generation, w.spec, w.skipInit;
      stored, cms := w.status, w.cms;
      status, actions := w.status, [];
    }

    ghost function Here(): World reads this { World(name, generation, spec, skipInit, stored, cms) }

    ghost function Now(): Outcome reads this { Outcome(stored, cms, actions) }

    ghost predicate Entered(acts: seq<Action>) reads this { status == stored && actions == acts }

    method SetCondition(kind: ConditionType, value: ConditionStatus, reason: Reason, message: Message)
      modifies this`status
      ensures status == Status(old(status.state),
                SetStatusCondition(old(status.conditions), Condition(kind, value, reason, generation, message)))
    {
      status := status.(conditions :=
        SetStatusCondition(status.conditions, Condition(kind, value, reason, generation, message)));
    }

    method UpdateStatus(env: PassEnv)
      modifies this`status, this`stored, this`actions
      ensures var s := Status(old(status.state),
                              Demote(DATABASE_STAGES, spec.pause, generation, old(status.conditions)));
              if env.statusWritten then stored == s && actions == old(actions) + [WriteStatus(s)]
              else stored == old(stored) && actions == old(actions)
    {
      if Is(status.conditions, DatabasePrepared, False)
        || Is(status.conditions, DatabaseInitialized, False)
        || Is(status.conditions, DatabaseProvisioned, False)
      {
        if spec.pause {
          SetCondition(DatabasePaused, False, InProgress, Empty);
        } else {
          SetCondition(DatabaseReady, False, InProgress, Empty);
        }
      }
      if env.statusWritten {
        stored := status;
        actions := actions + [WriteStatus(status)];
      }
    }

    /** Set one condition, move the state and persist: how a stage ends the pass. */
    method Finish(env: PassEnv, state: ClusterState, kind: ConditionType, value: ConditionStatus,
                  reason: Reason, message: Message)
      requires status == stored
      modifies this`status, this`stored, this`actions
      ensures var s := Persisted(spec.pause, generation, old(stored.conditions),
                               Put(state, Condition(kind, value, reason, generation, message)), None);
              if env.statusWritten then stored == s && actions == old(actions) + [WriteStatus(s)]
              else stored == old(stored) && actions == old(actions)
    {
      SetCondition(kind, value, reason, message);
      status := status.(state := state);
      UpdateStatus(env);
    }

    method SetInitDatabaseCompleted(env: PassEnv)
      requires status == stored
      modifies this`status, this`stored, this`actions
      ensures var s := Persisted(spec.pause, generation, old(stored.conditions),
                                 Put(old(stored.state),
                                     Condition(DatabaseInitialized, True, Completed, generation, Note)),
                               Some(Condition(CreateDatabaseOperation, True, Completed, generation, Note)));
              if env.statusWritten then stored == s && actions == old(actions) + [WriteStatus(s)]
              else stored == old(stored) && actions == old(actions)
    {
      SetCondition(DatabaseInitialized, True, Completed, Note);
      SetCondition(CreateDatabaseOperation, True, Completed, Note);
      UpdateStatus(env);
    }

    method SetInitialStatus(env: PassEnv) returns (stop: bool)
      requires Entered([])
      modifies this`status, this`stored, this`actions
      ensures stop == (old(stored.conditions) == [])
      ensures stop ==> Now() == Pass(old(Here()), env)
      ensures !stop ==> unchanged(this)
    {
      if status.conditions == [] {
        if spec.pause {
          Finish(env, status.state, DatabasePaused, Unknown, InProgress, Note);
        } else {
          Finish(env, status.state, DatabaseReady, Unknown, InProgress, Note);
        }
        return true;
      }
      return false;
    }

    method WaitForClusterResources(env: PassEnv) returns (stop: bool)
      requires Entered([]) && stored.conditions != []
      modifies this`status, this`stored, this`actions
      ensures stop ==> Now() == Pass(old(Here()), env)
      ensures !stop ==> unchanged(this) && !stored.state.Pending? && env.storage == Some(true)
    {
      if status.state.Pending? {
        Finish(env, Preparing, DatabasePrepared, Unknown, InProgress, Note);
        return true;
      }
      if env.storage.None? {
        return true;
      }
      if !env.storage.value {
        Finish(env, status.state, DatabasePrepared, False, InProgress, Note);
        return true;
      }
      return false;
    }

    method HandleResourcesSync(env: PassEnv) returns (stop: bool)
      requires Entered([]) && stored.conditions != [] && !stored.state.Pending? && env.storage == Some(true)
      modifies this`status, this`stored, this`actions
      ensures stop ==> Now() == Pass(old(Here()), env)
      ensures !stop ==> Entered([SyncResources]) && stored == old(stored) && ResourcesSynced(old(Here()), env)
    {
      if !spec.operatorSync {
        return true;
      }
      actions := actions + [SyncResources];
      stop := ReportSync(env);
    }

    method ReportSync(env: PassEnv) returns (stop: bool)
      requires Entered([SyncResources])
      requires stored.conditions != [] && !stored.state.Pending? && env.storage == Some(true) && spec.operatorSync
      modifies this`status, this`stored, this`actions
      ensures stop ==> Now() == Pass(old(Here()), env)
      ensures !stop ==> unchanged(this) && ResourcesSynced(Here(), env)
    {
      if !env.resourcesOk {
        Finish(env, status.state, DatabasePrepared, False, InProgress, Note);
        return true;
      }
      if !Is(status.conditions, DatabasePrepared, True) {
        Finish(env, status.state, DatabasePrepared, True, Completed, Note);
        return true;
      }
      return false;
    }

    method SetInitPipelineStatus(env: PassEnv) returns (stop: bool)
      requires Entered([SyncResources])
      modifies this`status, this`stored, this`actions
      ensures stop ==> Now() == Commit(old(Here()), env, DecideTenant(old(Here()), env))
      ensures !stop ==> unchanged(this) && !stored.state.Preparing? && !skipInit
                        && !Is(stored.conditions, OLD_DATABASE_INITIALIZED, True)
    {
      if status.state.Preparing? {
        Finish(env, Initializing, DatabaseInitialized, False, InProgress, Note);
        return true;
      }
      if skipInit || Is(status.conditions, OLD_DATABASE_INITIALIZED, True) {
        SetInitDatabaseCompleted(env);
        return true;
      }
      return false;
    }

    method CheckCreateDatabaseOperation(env: PassEnv)
      requires Entered([SyncResources]) && Is(stored.conditions, CreateDatabaseOperation, Unknown)
      modifies this`status, this`stored, this`actions
      ensures Now() == Commit(old(Here()), env, DecidePoll(old(Here()), env))
    {
      var id := Find(status.conditions, CreateDatabaseOperation).value.message;
      if id.Empty? {
        Finish(env, status.state, CreateDatabaseOperation, False, Failed, Note);
        return;
      }
      if env.poll.PollFailed? {
        return;
      }
      var check := CheckOperationStatus(PollReply(Logged(cms, id), id, env.poll));
      if check.failed {
        Finish(env, status.state, CreateDatabaseOperation, False, Completed, Note);
      } else if !check.finished {
        Finish(env, status.state, CreateDatabaseOperation, Unknown, InProgress, check.id);
      } else {
        SetInitDatabaseCompleted(env);
      }
    }

    /** The CMS takes the request: its log grows by one operation on this Database's path. */
    method Take(result: OpResult) returns (id: nat)
      modifies this`cms
      ensures id == |old(cms)| && cms == old(cms) + [TenantOperation(DatabasePath(name, spec), result)]
    {
      id := |cms|;
      cms := cms + [TenantOperation(DatabasePath(name, spec), result)];
    }

    method CheckCreateDatabaseResponse(env: PassEnv, check: Check)
      requires status == stored
      modifies this`status, this`stored, this`actions
      ensures check.failed || !env.statusWritten ==> stored == old(stored) && actions == old(actions)
      ensures !check.failed && env.statusWritten ==>
                && actions == old(actions) + [WriteStatus(stored)]
                && stored == if !check.finished
                     then Persisted(spec.pause, generation, old(stored.conditions), Put(old(stored.state),
                            Condition(CreateDatabaseOperation, Unknown, InProgress, generation, check.id)), None)
                     else Persisted(spec.pause, generation, old(stored.conditions), Put(old(stored.state),
                            Condition(DatabaseInitialized, True, Completed, generation, Note)),
                            Some(Condition(CreateDatabaseOperation, True, Completed, generation, Note)))
    {
      if check.failed {
        return;
      }
      if !check.finished {
        Finish(env, status.state, CreateDatabaseOperation, Unknown, InProgress, check.id);
      } else {
        SetInitDatabaseCompleted(env);
      }
    }

    method CreateTenantOnce(env: PassEnv)
      requires Entered([SyncResources])
      modifies this`status, this`stored, this`actions, this`cms
      ensures Now() == Commit(old(Here()), env, DecideSubmit(old(Here()), env))
    {
      ghost var w := Here();
      actions := actions + [CreateTenant(DatabasePath(name, spec))];
      if env.submission.Refused? {
        return;
      }
      var id := Take(env.submission.taken);
      var reply := ReplyTo(env.submission, id);
      SubmitTaken(w, env);
      if reply.None? {
        return;
      }
      CheckCreateDatabaseResponse(env, reply.value);
    }

    method InitializeTenant(env: PassEnv)
      requires Entered([SyncResources])
      requires !stored.state.Preparing? && !skipInit && !Is(stored.conditions, OLD_DATABASE_INITIALIZED, True)
      modifies this`status, this`stored, this`actions, this`cms
      ensures Now() == Commit(old(Here()), env, DecideTenant(old(Here()), env))
    {
      if spec.dedicated || spec.shared {
      } else if spec.serverless {
        if !env.sharedReady {
          return;
        }
      } else {
        return;
      }
      if !env.credentials {
        return;
      }
      if Is(status.conditions, CreateDatabaseOperation, Unknown) {
        CheckCreateDatabaseOperation(env);
      } else {
        CreateTenantOnce(env);
      }
    }

    method HandleTenantCreation(env: PassEnv)
      requires Entered([SyncResources]) && ResourcesSynced(Here(), env)
      requires !Is(stored.conditions, DatabaseInitialized, True)
      modifies this`status, this`stored, this`actions, this`cms
      ensures Now() == Pass(old(Here()), env)
    {
      var stop := SetInitPipelineStatus(env);
      if !stop {
        InitializeTenant(env);
      }
    }

    method WaitForNodeSetsToProvisioned(env: PassEnv) returns (stop: bool)
      requires Entered([SyncResources]) && TenantDone(Here(), env) && spec.nodeSets.Some?
      modifies this`status, this`stored, this`actions
      ensures stop ==> Now() == Pass(old(Here()), env)
      ensures !stop ==> unchanged(this) && Decide(Here(), env) == DecidePause(Here())
    {
      if status.state.Initializing? {
        Finish(env, Provisioning, DatabaseProvisioned, Unknown, InProgress, Note);
        return true;
      }
      var entries := spec.nodeSets.value;
      for i := 0 to |entries|
        invariant unchanged(this)
        invariant Scaled(spec, env) == ScanNodeSets(entries[i..], env.nodeSets)
      {
        var ref := NodeSetRef(entries[i].remote, entries[i].name);
        assert entries[i..][1..] == entries[i + 1..];
        if ref !in env.nodeSets {
          return true;
        }
        var view := env.nodeSets[ref];
        var condition := Find(view.conditions, NodeSetProvisioned);
        if condition.None? || condition.value.observedGeneration != view.generation || !condition.value.status.True? {
          Finish(env, status.state, DatabaseProvisioned, False, InProgress, Note);
          return true;
        }
      }
      if !Is(status.conditions, DatabaseProvisioned, True) {
        Finish(env, status.state, DatabaseProvisioned, True, Completed, Note);
        return true;
      }
      return false;
    }

    method WaitForStatefulSetToScale(env: PassEnv) returns (stop: bool)
      requires Entered([SyncResources]) && TenantDone(Here(), env) && spec.nodeSets.None?
      modifies this`status, this`stored, this`actions
      ensures stop ==> Now() == Pass(old(Here()), env)
      ensures !stop ==> unchanged(this) && Decide(Here(), env) == DecidePause(Here())
    {
      if status.state.Initializing? {
        Finish(env, Provisioning, DatabaseProvisioned, Unknown, InProgress, Note);
        return true;
      }
      if spec.serverless {
        return false;
      }
      match env.statefulSet
      case Unreadable =>
        return true;
      case Replicas(ready) =>
        if ready != spec.nodes {
          Finish(env, status.state, DatabaseProvisioned, False, InProgress, Note);
          return true;
        }
        if !Is(status.conditions, DatabaseProvisioned, True) {
          Finish(env, status.state, DatabaseProvisioned, True, Completed, Note);
          return true;
        }
        return false;
    }

    method HandlePauseResume(env: PassEnv)
      requires Entered([SyncResources])
      modifies this`status, this`stored, this`actions
      ensures Now() == Commit(old(Here()), env, DecidePause(old(Here())))
    {
      if status.state.Provisioning? {
        if spec.pause {
          Finish(env, Paused, DatabasePaused, True, Completed, Empty);
        } else {
          Finish(env, Ready, DatabaseReady, True, Completed, Empty);
        }
        return;
      }
      if status.state.Ready? && spec.pause {
        Finish(env, Paused, DatabaseReady, False, NotRequired, Note);
        return;
      }
      if status.state.Paused? && !spec.pause {
        Finish(env, Ready, DatabasePaused, False, NotRequired, Note);
        return;
      }
      if spec.pause {
        if !Is(status.conditions, DatabasePaused, True) {
          Finish(env, status.state, DatabasePaused, True, Completed, Empty);
        }
      } else {
        if !Is(status.conditions, DatabaseReady, True) {
          Finish(env, status.state, DatabaseReady, True, Completed, Empty);
        }
      }
    }

    method Sync(env: PassEnv)
      modifies this
      ensures Now() == Pass(old(Here()), env)
    {
      status, actions := stored, [];
      var stop := SetInitialStatus(env);
      if stop {
        return;
      }
      stop := WaitForClusterResources(env);
      if stop {
        return;
      }
      stop := HandleResourcesSync(env);
      if stop {
        return;
      }
      if !Is(status.conditions, DatabaseInitialized, True) {
        HandleTenantCreation(env);
        return;
      }
      if spec.nodeSets.Some? {
        stop := WaitForNodeSetsToProvisioned(env);
      } else {
        stop := WaitForStatefulSetToScale(env);
      }
      if stop {
        return;
      }
      HandlePauseResume(env);
    }
  }

  predicate ResourcesSynced(w: World, env: PassEnv) {
    && w.status.conditions != [] && !w.status.state.Pending? && env.storage == Some(true)
    && w.spec.operatorSync && env.resourcesOk && Is(w.status.conditions, DatabasePrepared, True)
  }

  predicate TenantDone(w: World, env: PassEnv) {
    ResourcesSynced(w, env) && Is(w.status.conditions, DatabaseInitialized, True)
  }

  /** A request that was taken, spelled out. */
  lemma SubmitTaken(w: World, env: PassEnv)
    requires !env.submission.Refused?
    ensures var cms := w.cms + [TenantOperation(w.Path(), env.submission.taken)];
            var taken := Plan(cms, [SyncResources, CreateTenant(w.Path())], None, None);
            var reply := ReplyTo(env.submission, |w.cms|);
            && (reply.None? || reply.value.failed || !env.statusWritten ==>
                  Commit(w, env, DecideSubmit(w, env)) == Outcome(w.status, cms, taken.actions))
            && (reply.Some? && !reply.value.failed && env.statusWritten ==>
                  var s := NewStatus(w, AfterResponse(w, taken, reply.value));
                  Commit(w, env, DecideSubmit(w, env)) == Outcome(s, cms, taken.actions + [WriteStatus(s)]))
  {
  }
}
