/** What a Database waits for after its tenant: what its passes must have read before it is reported
    provisioned, and what they report when they read something else. */
module DatabaseWait {
  import opened Wrappers
  import opened Conditions
  import opened Scaling
  import opened Stages
  import opened DatabaseModel
  import Tenant = TenantSafety

  function Report(w: World): Option<Condition> { Find(w.status.conditions, DatabaseProvisioned) }

  predicate Provisioned(w: World) { Is(w.status.conditions, DatabaseProvisioned, True) }

  function Goal(w: World): ConditionType { if w.spec.pause then DatabasePaused else DatabaseReady }

  /** The pass is done with the resources and the tenant. */
  predicate TenantDone(w: World, env: PassEnv) {
    && w.status.conditions != [] && !w.status.state.Pending? && env.storage == Some(true)
    && w.spec.operatorSync && env.resourcesOk
    && Is(w.status.conditions, DatabasePrepared, True) && Is(w.status.conditions, DatabaseInitialized, True)
    && !w.status.state.Initializing?
  }

  /** A serverless Database has no nodes of its own to wait for. */
  predicate HasNodes(w: World) { !w.spec.serverless || w.spec.nodeSets.Some? }

  predicate Runs(w: World, env: PassEnv) { AllRun(w.spec.nodes, w.spec.nodeSets, env.statefulSet, env.nodeSets) }

  predicate Lags(w: World, env: PassEnv) { SomeLag(w.spec.nodes, w.spec.nodeSets, env.statefulSet, env.nodeSets) }

  lemma ScaledMeans(w: World, env: PassEnv)
    ensures Scaled(w.spec, env).Settled? <==> Runs(w, env)
    ensures Scaled(w.spec, env).Lagging? <==> Lags(w, env)
  {
    ScaleMeans(w.spec.nodes, w.spec.nodeSets, env.statefulSet, env.nodeSets);
  }

  // ----- One pass -----

  function Passed(w: World, env: PassEnv): World { After(w, Pass(w, env)) }

  lemma PutIsFound(w: World, env: PassEnv)
    ensures var p := Decide(w, env);
            p.also.None? ==>
              Report(Passed(w, env)) == if p.put.Some? && env.statusWritten
                                           && p.put.value.condition.kind.DatabaseProvisioned?
                                        then Some(p.put.value.condition) else Report(w)
  {
    var p := Decide(w, env);
    if p.put.Some? { Tenant.NewStatusFinds(w, p, DatabaseProvisioned); }
  }

  /** With a stage unmet, the write takes readiness, or the pause, back. */
  lemma LagTakesBack(w: World, state: ClusterState)
    ensures var c := Condition(DatabaseProvisioned, False, InProgress, w.generation, Note);
            var goal := Goal(w);
            Find(NewStatus(w, Plan([], [], Some(Put(state, c)), None)).conditions, goal)
              == Some(Condition(goal, False, InProgress, w.generation, Empty))
  {
  }

  /** What a writing pass that comes to the wait reports: a lag as that, taking readiness back; all nodes
      running, once; and nothing when it could not read enough. */
  lemma WaitReports(w: World, env: PassEnv)
    requires TenantDone(w, env) && HasNodes(w) && env.statusWritten
    ensures Lags(w, env) ==>
              && Report(Passed(w, env)) == Some(Condition(DatabaseProvisioned, False, InProgress, w.generation, Note))
              && Is(Passed(w, env).status.conditions, Goal(w), False) && Passed(w, env).status.state == w.status.state
    ensures Runs(w, env) && !Provisioned(w) ==>
              && Report(Passed(w, env)) == Some(Condition(DatabaseProvisioned, True, Completed, w.generation, Note))
              && Passed(w, env).status.state == w.status.state
    ensures !Lags(w, env) && (!Runs(w, env) || Provisioned(w)) ==> Report(Passed(w, env)) == Report(w)
    ensures !Lags(w, env) && !Runs(w, env) ==> Passed(w, env).status == w.status
  {
    ScaledMeans(w, env);
    PutIsFound(w, env);
    LagTakesBack(w, w.status.state);
    if Runs(w, env) && Provisioned(w) { PausePutsOther(w); }
  }

  lemma PausePutsOther(w: World)
    ensures var p := DecidePause(w);
            p.also.None? && (p.put.Some? ==> !p.put.value.condition.kind.DatabaseProvisioned?)
  {
  }

  lemma TenantPutsOther(w: World, env: PassEnv)
    ensures var p := DecideTenant(w, env);
            p.put.Some? ==>
              && !p.put.value.condition.kind.DatabaseProvisioned?
              && (p.also.Some? ==> p.also.value.kind.CreateDatabaseOperation?)
              && (w.status.state.Provisioning? ==> p.put.value.state.Provisioning?)
  {
  }

  lemma OtherPlansStayBehind(w: World, env: PassEnv)
    requires !(TenantDone(w, env) && HasNodes(w)) && !Tenant.ReachesTenant(w, env)
    ensures var p := Decide(w, env);
            && p.also.None?
            && (p.put.Some? ==>
                 && !(p.put.value.condition.kind.DatabaseProvisioned? && p.put.value.condition.status.True?)
                 && (w.status.state.Provisioning? && !p.put.value.state.Provisioning? ==> TenantDone(w, env)))
  {
    if TenantDone(w, env) {
      assert Decide(w, env) == DecidePause(w);
      PausePutsOther(w);
    }
  }

  /** A pass that does not come to the wait neither reports the nodes provisioned nor leaves Provisioning,
      except that a Database without nodes of its own does the latter. */
  lemma OthersStayBehind(w: World, env: PassEnv)
    requires !(TenantDone(w, env) && HasNodes(w))
    ensures Provisioned(Passed(w, env)) ==> Report(Passed(w, env)) == Report(w)
    ensures w.status.state.Provisioning? && Passed(w, env).status.state != w.status.state ==> TenantDone(w, env)
  {
    var p := Decide(w, env);
    if Tenant.ReachesTenant(w, env) {
      TenantPutsOther(w, env);
      if p.put.Some? { Tenant.NewStatusFinds(w, p, DatabaseProvisioned); }
    } else {
      OtherPlansStayBehind(w, env);
      PutIsFound(w, env);
    }
  }

  /** DatabaseProvisioned turns true only in a pass that read the asked number of ready replicas, or found
      every listed node set with a true certificate for its current generation; and the state leaves
      Provisioning only in such a pass, or for a serverless Database without node sets. */
  lemma ProvisionedOnlyPastTheWait(w: World, env: PassEnv)
    ensures Provisioned(Passed(w, env)) && !Provisioned(w) ==> TenantDone(w, env) && HasNodes(w) && Runs(w, env)
    ensures w.status.state.Provisioning? && Passed(w, env).status.state != w.status.state ==>
              TenantDone(w, env) && (HasNodes(w) ==> Runs(w, env) && Provisioned(w))
  {
    if !(TenantDone(w, env) && HasNodes(w)) {
      OthersStayBehind(w, env);
    } else if env.statusWritten {
      WaitReports(w, env);
    }
  }

  /** Past the wait, once that is reported, or without nodes to wait for, a writing pass leaves what the pause
      step leaves. */
  lemma PastTheWait(w: World, env: PassEnv)
    requires TenantDone(w, env) && env.statusWritten && (HasNodes(w) ==> Runs(w, env) && Provisioned(w))
    ensures Pass(w, env).status == PauseStep(DATABASE_STAGES, w.spec.pause, w.generation, w.status)
  {
    ScaledMeans(w, env);
  }

  // ----- Before the tenant -----

  /** The first two passes only say where they are. */
  lemma FirstReports(w: World, env: PassEnv)
    requires env.statusWritten
    ensures w.status.conditions == [] ==>
              Passed(w, env).status
                == Status(w.status.state, [Condition(Goal(w), Unknown, InProgress, w.generation, Note)])
    ensures w.status.conditions != [] && w.status.state.Pending? ==>
              && Passed(w, env).status.state.Preparing?
              && Find(Passed(w, env).status.conditions, DatabasePrepared)
                   == Some(Condition(DatabasePrepared, Unknown, InProgress, w.generation, Note))
    ensures w.status.conditions == [] || w.status.state.Pending? ==>
              Pass(w, env).actions == [WriteStatus(Passed(w, env).status)]
  {
  }

  /** Resources are synced by exactly the passes that find the Storage initialized and may act. */
  lemma SyncsOnlyOnInitializedStorage(w: World, env: PassEnv)
    ensures SyncResources in Pass(w, env).actions <==>
            && w.status.conditions != [] && !w.status.state.Pending?
            && env.storage == Some(true) && w.spec.operatorSync
  {
    Tenant.PassActions(w, env);
    DecisionSyncs(w, env);
  }

  lemma DecisionSyncs(w: World, env: PassEnv)
    ensures SyncResources in Decide(w, env).actions <==>
            && w.status.conditions != [] && !w.status.state.Pending?
            && env.storage == Some(true) && w.spec.operatorSync
  {
    if Tenant.ReachesTenant(w, env) {
      TenantSyncs(w, env);
      assert DecideTenant(w, env).actions[0] in DecideTenant(w, env).actions;
    } else {
      OtherStagesSync(w, env);
    }
  }

  lemma TenantSyncs(w: World, env: PassEnv)
    ensures DecideTenant(w, env).actions != [] && DecideTenant(w, env).actions[0] == SyncResources
  {
  }

  lemma OtherStagesSync(w: World, env: PassEnv)
    requires !Tenant.ReachesTenant(w, env)
    ensures Decide(w, env).actions == if w.status.conditions != [] && !w.status.state.Pending?
                                         && env.storage == Some(true) && w.spec.operatorSync
                                      then [SyncResources] else []
  {
  }

  /** A pass that cannot read the Storage, or may not act, changes nothing; one that finds the Storage not
      initialized, or fails to sync, reports the preparation unmet and takes readiness back. */
  lemma UnpreparedIsReported(w: World, env: PassEnv)
    requires w.status.conditions != [] && !w.status.state.Pending? && env.statusWritten
    ensures env.storage.None? || (env.storage.value && !w.spec.operatorSync) ==> Passed(w, env) == w
    ensures env.storage == Some(false) || (env.storage == Some(true) && w.spec.operatorSync && !env.resourcesOk) ==>
              var cs := Passed(w, env).status.conditions;
              && Find(cs, DatabasePrepared) == Some(Condition(DatabasePrepared, False, InProgress, w.generation, Note))
              && Is(cs, Goal(w), False) && Passed(w, env).status.state == w.status.state
  {
  }

  lemma EntersByDecision(w: World, env: PassEnv)
    requires !w.status.state.Provisioning?
    ensures var p := Decide(w, env);
            p.put.Some? && p.put.value.state.Provisioning? ==>
              p.also.None?
              && p.put.value.condition == Condition(DatabaseProvisioned, Unknown, InProgress, w.generation, Note)
  {
    TenantNeverEnters(w, env);
    assert DecidePause(w).put.Some? ==> !DecidePause(w).put.value.state.Provisioning?;
  }

  lemma TenantNeverEnters(w: World, env: PassEnv)
    requires !w.status.state.Provisioning?
    ensures DecideTenant(w, env).put.Some? ==> !DecideTenant(w, env).put.value.state.Provisioning?
  {
  }

  /** On entering Provisioning, the nodes are reported as not known yet. */
  lemma EntersUnknown(w: World, env: PassEnv)
    requires !w.status.state.Provisioning?
    ensures Passed(w, env).status.state.Provisioning? ==>
              Report(Passed(w, env)) == Some(Condition(DatabaseProvisioned, Unknown, InProgress, w.generation, Note))
  {
    EntersByDecision(w, env);
    PutIsFound(w, env);
  }

  // ----- Whole runs -----

  /** What an event has read of the nodes, if it is a pass that comes to the wait; a lag counts if the
      pass writes its status. */
  datatype Reading = NoReading | ReadRunning | ReadLag

  function ReadingOf(w: World, e: Event): Reading {
    if !e.Reconcile? || !TenantDone(w, e.env) || !HasNodes(w) then NoReading
    else if Runs(w, e.env) then ReadRunning
    else if Lags(w, e.env) && e.env.statusWritten then ReadLag
    else NoReading
  }

  /** The readings of a run, event by event. */
  function Readings(w: World, events: seq<Event>): (r: seq<Reading>)
    ensures |r| == |events|
    decreases |events|
  {
    if events == [] then []
    else
      var n := |events| - 1;
      Readings(w, events[..n]) + [ReadingOf(Run(w, events[..n]), events[n])]
  }

  /** All nodes were read to run there, and no lag was read since. */
  predicate StandsOn(readings: seq<Reading>, k: nat) {
    k < |readings| && readings[k].ReadRunning? && forall j :: k < j < |readings| ==> !readings[j].ReadLag?
  }

  lemma StepReports(w: World, e: Event)
    ensures Provisioned(Step(w, e)) && !Provisioned(w) ==> ReadingOf(w, e).ReadRunning?
    ensures ReadingOf(w, e).ReadLag? ==> !Provisioned(Step(w, e))
  {
    if e.Reconcile? {
      ProvisionedOnlyPastTheWait(w, e.env);
      if TenantDone(w, e.env) && HasNodes(w) && e.env.statusWritten { WaitReports(w, e.env); }
    }
  }

  /** Over every run, a report that the nodes are provisioned stands on a pass of that run which read that
      they all run, and no writing pass since has come to the wait and read a lag. */
  lemma {:induction false} ProvisionedStandsOnAReading(w: World, events: seq<Event>)
    requires !Provisioned(w)
    ensures Provisioned(Run(w, events)) ==> exists k :: 0 <= k < |events| && StandsOn(Readings(w, events), k)
    decreases |events|
  {
    if events != [] {
      var n := |events| - 1;
      var readings := Readings(w, events);
      StepReports(Run(w, events[..n]), events[n]);
      ProvisionedStandsOnAReading(w, events[..n]);
      assert readings[..n] == Readings(w, events[..n]);
      if k :| 0 <= k < n && StandsOn(readings[..n], k) {
        assert readings[n].ReadLag? || StandsOn(readings, k);
      }
      assert readings[n].ReadRunning? ==> StandsOn(readings, n);
    }
  }
}
