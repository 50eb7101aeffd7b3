/** Getting a Storage to run: resized, resumed or new, it can become Ready, since a pass first scales its
    StatefulSet to the nodes asked for. */
module StorageResume {
  import opened Wrappers
  import opened Conditions
  import opened Cms
  import opened Scaling
  import opened Stages
  import opened StorageModel
  import opened StorageSafety
  import opened StorageProgress
  import opened StoragePause

  predicate Running(w: World) { w.status.state.Ready? && Is(w.status.conditions, StorageReady, True) }

  predicate Past(w: World) { w.status.conditions != [] && !w.status.state.Pending? && w.spec.operatorSync }

  /** A pass past Pending whose resource sync succeeds leaves a StatefulSet with the replicas asked for,
      none while paused, and with the ready ones there were; any other pass leaves it alone. */
  lemma OperatorScales(d: Deployment, env: PassEnv)
    ensures DeployStep(d, Operator(env)).statefulSet
         == if Past(d.storage) && env.resourcesOk
            then Some(StatefulSet(if d.storage.spec.pause then 0 else d.storage.spec.nodes,
                                  if d.statefulSet.Some? then d.statefulSet.value.ready else 0))
            else d.statefulSet
  {
  }

  // ----- A run that gets there -----

  /** What an unpaused Storage starts from. */
  ghost predicate CanStart(d: Deployment) {
    && Inv(d.storage) && Steady(d.storage) && !Stuck(d.storage) && Counted(d)
    && !d.storage.spec.pause && d.storage.spec.nodes >= 0
  }

  /** Before the resources are synced, a pass that writes its status gets nearer to that. */
  lemma EarlyPass(d: Deployment)
    requires CanStart(d) && !Past(d.storage)
    ensures var v := DeployStep(d, Operator(Well(d.storage.spec)));
            && CanStart(v) && v.storage.spec == d.storage.spec && v.storage.status.conditions != []
            && (d.storage.status.conditions != [] ==> Past(v.storage))
  {
    var w := d.storage;
    var env := Answers(d, Well(w.spec));
    PassKeepsInv(w, env);
    EarlyPut(w, env);
    UnrelatedCommit(w, env, Decide(w, env));
  }

  lemma EarlyPut(w: World, env: PassEnv)
    requires w.status.conditions == [] || w.status.state.Pending?
    ensures var p := Decide(w, env);
            && p.cms == w.cms && p.put.Some?
            && p.put.value.condition.kind in {StorageReady, StoragePaused, StoragePrepared}
            && (w.status.conditions != [] ==> p.put.value.state.Preparing?)
  {
  }

  lemma EarlyRun(d: Deployment) returns (events: seq<DeployEvent>, v: Deployment)
    requires CanStart(d) && !Past(d.storage)
    ensures WithoutEdits(events) && v == DeployRun(d, events)
    ensures CanStart(v) && v.storage.spec == d.storage.spec && v.storage.status.conditions != []
    ensures d.storage.status.conditions != [] ==> Past(v.storage)
  {
    var e := Operator(Well(d.storage.spec));
    EarlyPass(d);
    StoragePause.RunAppends(d, [], e);
    events, v := [] + [e], DeployStep(d, e);
  }

  lemma GetsToSync(d: Deployment) returns (events: seq<DeployEvent>)
    requires CanStart(d)
    ensures WithoutEdits(events)
    ensures var v := DeployRun(d, events); CanStart(v) && v.storage.spec == d.storage.spec && Past(v.storage)
  {
    if Past(d.storage) {
      events := [];
    } else {
      var v;
      events, v := EarlyRun(d);
      if !Past(v.storage) {
        var more, u := EarlyRun(v);
        RunsCompose(d, events, more);
        events := events + more;
      }
    }
  }

  /** An environment in which calls fail from the resource sync on. */
  function Crash(spec: StorageSpec): PassEnv {
    Well(spec).(jobReadable := false, credentials := false, statusWritten := false)
  }

  /** A pass that is cut short after its resource sync changes nothing but the StatefulSet. */
  lemma CutShort(d: Deployment)
    requires Past(d.storage)
    ensures DeployStep(d, Operator(Crash(d.storage.spec))).storage == d.storage
  {
    var w, env := d.storage, Answers(d, Crash(d.storage.spec));
    assert DecideConfigSync(w, env) == Hold(w, [SyncResources]);
    assert Decide(w, env).job == w.job && Decide(w, env).cms == w.cms;
  }

  lemma TwoMore(d: Deployment, events: seq<DeployEvent>, a: DeployEvent, b: DeployEvent)
    ensures DeployRun(d, events + [a] + [b]) == DeployStep(DeployStep(DeployRun(d, events), a), b)
  {
    StoragePause.RunAppends(d, events, a);
    StoragePause.RunAppends(d, events + [a], b);
  }

  /** Once scaled, all the pods can get ready. */
  lemma ScaledGetsReady(d: Deployment)
    requires CanStart(d) && Past(d.storage)
    ensures var spec := d.storage.spec;
            var v := DeployStep(DeployStep(d, Operator(Crash(spec))), Pods(spec.nodes));
            CanStart(v) && AllReady(v) && v.storage.spec == spec && v.statefulSet.Some?
  {
    var spec := d.storage.spec;
    CutShort(d);
    OperatorScales(d, Crash(spec));
    PodsComeUp(DeployStep(d, Operator(Crash(spec))));
  }

  lemma PodsComeUp(d: Deployment)
    requires CanStart(d) && d.statefulSet.Some? && d.statefulSet.value.replicas == d.storage.spec.nodes
    ensures var v := DeployStep(d, Pods(d.storage.spec.nodes));
            CanStart(v) && AllReady(v) && v.storage.spec == d.storage.spec && v.statefulSet.Some?
  {
  }

  lemma GetsReady(d: Deployment) returns (events: seq<DeployEvent>)
    requires CanStart(d)
    ensures WithoutEdits(events)
    ensures var v := DeployRun(d, events);
            CanStart(v) && AllReady(v) && v.storage.spec == d.storage.spec && v.statefulSet.Some?
  {
    events := GetsToSync(d);
    var spec := d.storage.spec;
    ScaledGetsReady(DeployRun(d, events));
    TwoMore(d, events, Operator(Crash(spec)), Pods(spec.nodes));
    events := events + [Operator(Crash(spec))] + [Pods(spec.nodes)];
  }

  lemma StartFinishes(d: Deployment)
    requires CanStart(d)
    ensures CanFinish(d)
  {
    var events := GetsReady(d);
    var more := SomeRunFinishes(DeployRun(d, events));
    RunsCompose(d, events, more);
    assert WithoutEdits(events + more);
  }

  // ----- And only then -----

  /** A pass that does not read the asked number does not report readiness. */
  lemma ReadyNeedsNodes(w: World, env: PassEnv)
    requires !Scaled(w.spec, env).Settled?
    ensures Running(After(w, Pass(w, env))) ==> Running(w)
  {
    WaitsForNodes(w, env);
    NoReadyPut(w, env);
    var p := Decide(w, env);
    if p.put.Some? { NewStatusFinds(w, p.put.value, StorageReady); }
  }

  lemma NoReadyPut(w: World, env: PassEnv)
    requires !Scaled(w.spec, env).Settled?
    ensures var p := Decide(w, env);
            p.put.Some? && p.put.value.condition.kind.StorageReady? ==> !p.put.value.condition.status.True?
  {
    InitializationNotReady(w, env);
    ConfigNotReady(w, env);
  }

  lemma InitializationNotReady(w: World, env: PassEnv)
    ensures var p := DecideInitialization(w, env); p.put.Some? ==> !p.put.value.condition.kind.StorageReady?
  {
  }

  lemma ConfigNotReady(w: World, env: PassEnv)
    ensures var p := DecideConfigStart(w, env); p.put.Some? ==> !p.put.value.condition.kind.StorageReady?
    ensures var p := DecideConfigSync(w, env); p.put.Some? ==> !p.put.value.condition.kind.StorageReady?
  {
  }

  lemma {:induction false} NegativeNeverRuns(d: Deployment, events: seq<DeployEvent>)
    requires d.storage.spec.nodes < 0 && d.storage.spec.nodeSets.None? && Counted(d)
    requires !Running(d.storage) && WithoutEdits(events)
    ensures var v := DeployRun(d, events);
            v.storage.spec == d.storage.spec && Counted(v) && !Running(v.storage)
    decreases |events|
  {
    if events != [] {
      NegativeNeverRuns(d, events[..|events| - 1]);
      NegativeStaysDown(DeployRun(d, events[..|events| - 1]), events[|events| - 1]);
    }
  }

  lemma NegativeStaysDown(d: Deployment, e: DeployEvent)
    requires d.storage.spec.nodes < 0 && d.storage.spec.nodeSets.None? && Counted(d)
    requires !Running(d.storage) && !EditsSpec(e)
    ensures var v := DeployStep(d, e);
            v.storage.spec == d.storage.spec && Counted(v) && !Running(v.storage)
  {
    if e.Operator? {
      NegativeIsNeverRead(d, e.env);
      ReadyNeedsNodes(d.storage, Answers(d, e.env));
    }
  }

  lemma NegativeIsNeverRead(d: Deployment, env: PassEnv)
    requires d.storage.spec.nodes < 0 && d.storage.spec.nodeSets.None? && Counted(d)
    ensures !Scaled(d.storage.spec, Answers(d, env)).Settled? && Counted(DeployStep(d, Operator(env)))
  {
  }

  lemma NegativeNeverFinishes(d: Deployment)
    requires d.storage.spec.nodes < 0 && d.storage.spec.nodeSets.None? && Counted(d)
    requires !Running(d.storage) && !d.storage.spec.pause
    ensures !CanFinish(d)
  {
    forall events | WithoutEdits(events) ensures !Done(DeployRun(d, events).storage) {
      NegativeNeverRuns(d, events);
    }
  }

  /** Running: an unpaused Storage not reported ready yet, whatever its StatefulSet, can still get Ready,
      with every condition true, in a run without another edit of its spec, if and only if it is not asked
      for a negative number of nodes and is not stuck on a failed ReplaceConfig operation. */
  lemma ReadyIff(d: Deployment)
    requires !d.storage.spec.pause && Steady(d.storage) && Inv(d.storage) && Counted(d) && !Running(d.storage)
    ensures CanFinish(d) <==> d.storage.spec.nodes >= 0 && !Stuck(d.storage)
  {
    if Stuck(d.storage) { StuckNeverFinishes(d);
    } else if d.storage.spec.nodes >= 0 { StartFinishes(d);
    } else { NegativeNeverFinishes(d); }
  }

  /** A new spec begins a new generation, for which no operation is recorded. */
  lemma EditUnsticks(w: World, spec: StorageSpec)
    requires Inv(w) && spec != w.spec
    ensures Inv(Step(w, EditSpec(spec))) && !Stuck(Step(w, EditSpec(spec)))
  {
    EnvironmentKeepsInv(w, EditSpec(spec));
    assert Find(w.status.conditions, ReplaceConfigOperation).Some? ==>
        Find(w.status.conditions, ReplaceConfigOperation).value.observedGeneration <= w.Generation();
  }

  /** Resizing and resuming: whatever a Storage was doing, even stuck or blocked in a pause, it can get Ready
      after any edit that leaves it unpaused and asks for no negative number of nodes. */
  lemma EditedCanFinish(d: Deployment, spec: StorageSpec)
    requires Inv(d.storage) && Counted(d) && spec != d.storage.spec
    requires !spec.pause && spec.nodes >= 0 && Steady(d.storage.(spec := spec))
    ensures CanFinish(DeployStep(d, Around(EditSpec(spec))))
  {
    EditUnsticks(d.storage, spec);
    StartFinishes(DeployStep(d, Around(EditSpec(spec))));
  }

  // ----- In a run of a new Storage -----

  const NEW_SPEC := StorageSpec(false, true, 1, None, Static(0))
  const NEW_DEPLOYMENT := Deployment(World([], NEW_SPEC, true, Status(Pending, []), None, []), None)

  lemma {:induction false} InvRuns(d: Deployment, events: seq<DeployEvent>)
    requires Inv(d.storage)
    ensures Inv(DeployRun(d, events).storage)
    decreases |events|
  {
    if events != [] {
      var v, e := DeployRun(d, events[..|events| - 1]), events[|events| - 1];
      InvRuns(d, events[..|events| - 1]);
      match e
      case Operator(env) => PassKeepsInv(v.storage, Answers(v, env));
      case Pods(_) =>
      case Around(event) => if !event.Reconcile? { EnvironmentKeepsInv(v.storage, event); }
    }
  }

  /** A static configuration needs no operation to get stuck on. */
  lemma StaticIsNotStuck(w: World)
    requires Inv(w) && w.spec.config.Static?
    ensures !Stuck(w)
  {
    if Polling(w) {
      assert Find(w.status.conditions, ConfigurationSynced).Some?;
    }
  }

  lemma RunningHappens() returns (events: seq<DeployEvent>)
    ensures var v := DeployRun(NEW_DEPLOYMENT, events);
            Done(v.storage) && v.storage.spec == NEW_SPEC && Inv(v.storage) && Counted(v)
  {
    InvHolds(NEW_DEPLOYMENT.storage, []);
    StaticIsNotStuck(NEW_DEPLOYMENT.storage);
    events := GetsReady(NEW_DEPLOYMENT);
    var up := DeployRun(NEW_DEPLOYMENT, events);
    var more := SomeRunFinishes(up);
    RunsCompose(NEW_DEPLOYMENT, events, more);
    InvRuns(up, more);
    events := events + more;
  }

  /** A new Storage gets Ready with every condition true, is paused, and can never be Paused without
      another edit: its pod is gone before the second pass, which then waits for it. */
  lemma RunningNeverPauses() returns (up: seq<DeployEvent>, down: seq<DeployEvent>)
    ensures Initial(NEW_DEPLOYMENT.storage) && Done(DeployRun(NEW_DEPLOYMENT, up).storage)
    ensures down == PauseEvents(DeployRun(NEW_DEPLOYMENT, up).storage, Well(NEW_SPEC))
    ensures var v := DeployRun(NEW_DEPLOYMENT, up + down);
            v.storage.spec == PausedSpec(NEW_SPEC) && v.storage.status.state.Ready? && !CanFinish(v)
  {
    up := RunningHappens();
    var v := DeployRun(NEW_DEPLOYMENT, up);
    down := PauseEvents(v.storage, Well(NEW_SPEC));
    RunningIsBlocked(v, Well(NEW_SPEC));
    RunsCompose(NEW_DEPLOYMENT, up, down);
    BlockedNeverPauses(DeployRun(v, down));
  }
}
