/** Pausing a Storage and its StatefulSet: the builder scales a paused cluster to zero, while the wait for
    its nodes, which comes before the pause step, still asks for as many ready replicas as the spec. */
module StoragePause {
  import opened Wrappers
  import opened Conditions
  import opened Cms
  import opened Scaling
  import opened Stages
  import opened StorageModel
  import opened StorageSafety
  import opened StorageProgress
  import Handshake

  /** A Storage without node sets, and the StatefulSet of its name. */
  datatype Deployment = Deployment(storage: World, statefulSet: Option<StatefulSet>)

  /** The StatefulSet after the resource sync of a pass. */
  function SyncedSet(d: Deployment, env: PassEnv): Option<StatefulSet> {
    if Handshake.SyncsResources(d.storage) && env.resourcesOk
    then Some(Rescaled(d.storage.spec.pause, d.storage.spec.nodes, d.statefulSet)) else d.statefulSet
  }

  /** The pass reads the replicas that are ready, unless it cannot. */
  function Answers(d: Deployment, env: PassEnv): PassEnv {
    var sts := SyncedSet(d, env);
    env.(statefulSet := if sts.None? || env.statefulSet.Unreadable? then Unreadable else Replicas(sts.value.ready))
  }

  datatype DeployEvent =
    | Operator(env: PassEnv)
    | Pods(ready: int)              // replicas become ready, or stop
    | Around(event: Event)

  /** Ready replicas never outnumber both those asked for and those there were. */
  function DeployStep(d: Deployment, e: DeployEvent): Deployment {
    match e
    case Operator(env) => Deployment(After(d.storage, Pass(d.storage, Answers(d, env))), SyncedSet(d, env))
    case Pods(ready) =>
      if d.statefulSet.None? || ready < 0 then d
      else
        var sts := d.statefulSet.value;
        if ready > sts.replicas && ready > sts.ready then d else d.(statefulSet := Some(sts.(ready := ready)))
    case Around(event) => if event.Reconcile? then d else d.(storage := Step(d.storage, event))
  }

  function DeployRun(d: Deployment, events: seq<DeployEvent>): Deployment
    decreases |events|
  {
    if events == [] then d else DeployStep(DeployRun(d, events[..|events| - 1]), events[|events| - 1])
  }

  lemma RunAppends(d: Deployment, events: seq<DeployEvent>, e: DeployEvent)
    ensures DeployRun(d, events + [e]) == DeployStep(DeployRun(d, events), e)
  {
    assert (events + [e])[..|events|] == events;
  }

  lemma {:induction false} RunsCompose(d: Deployment, a: seq<DeployEvent>, b: seq<DeployEvent>)
    ensures DeployRun(d, a + b) == DeployRun(DeployRun(d, a), b)
    decreases |b|
  {
    if b == [] {
      assert a + b == a;
    } else {
      var n := |b| - 1;
      assert a + b == (a + b[..n]) + [b[n]];
      RunAppends(d, a + b[..n], b[n]);
      RunsCompose(d, a, b[..n]);
    }
  }

  predicate EditsSpec(e: DeployEvent) { e.Around? && e.event.EditSpec? }

  predicate WithoutEdits(events: seq<DeployEvent>) { forall i :: 0 <= i < |events| ==> !EditsSpec(events[i]) }

  predicate Arrived(s: ClusterState) { s.Ready? || s.Paused? }

  // ----- When the nodes can no longer all be ready -----

  /** Replicas are counted from zero. */
  predicate Counted(d: Deployment) { d.statefulSet.Some? ==> d.statefulSet.value.ready >= 0 }

  /** A pass of a paused Storage may still read as many ready replicas as the spec has nodes: it has none,
      or the StatefulSet has not been scaled down to fewer, or its pods have not stopped. */
  predicate MayRead(d: Deployment) {
    var nodes := d.storage.spec.nodes;
    || nodes == 0
    || (nodes > 0 && d.statefulSet.Some?
        && (d.statefulSet.value.replicas >= nodes || d.statefulSet.value.ready >= nodes))
  }

  predicate Blocked(d: Deployment) {
    d.storage.spec.pause && d.storage.spec.nodeSets.None? && Counted(d) && !MayRead(d)
  }

  /** A plan that does not report the pause and does not move the state to Ready or Paused. */
  predicate ArrivesNowhere(w: World, p: Plan) {
    p.put.Some? ==>
      && !(p.put.value.condition.kind.StoragePaused? && p.put.value.condition.status.True?)
      && (Arrived(p.put.value.state) ==> p.put.value.state == w.status.state)
  }

  lemma InitializationArrivesNowhere(w: World, env: PassEnv)
    ensures ArrivesNowhere(w, DecideInitialization(w, env))
  {
  }

  lemma ConfigArrivesNowhere(w: World, env: PassEnv)
    ensures ArrivesNowhere(w, DecideConfigStart(w, env)) && ArrivesNowhere(w, DecideConfigSync(w, env))
  {
  }

  lemma OnlyPastTheWait(w: World, env: PassEnv)
    requires !Scaled(w.spec, env).Settled?
    ensures ArrivesNowhere(w, Decide(w, env))
  {
    InitializationArrivesNowhere(w, env);
    ConfigArrivesNowhere(w, env);
  }

  predicate Paused(w: World) { w.status.state.Paused? && Is(w.status.conditions, StoragePaused, True) }

  /** A pass that does not read the asked number takes the Storage nowhere new. */
  lemma WaitsForNodes(w: World, env: PassEnv)
    requires !Scaled(w.spec, env).Settled?
    ensures var after := After(w, Pass(w, env));
            && (Arrived(after.status.state) ==> after.status.state == w.status.state)
            && (Is(after.status.conditions, StoragePaused, True) ==> Is(w.status.conditions, StoragePaused, True))
  {
    OnlyPastTheWait(w, env);
    var p := Decide(w, env);
    if p.put.Some? { NewStatusFinds(w, p.put.value, StoragePaused); }
  }

  lemma StaysBlocked(d: Deployment, e: DeployEvent)
    requires Blocked(d) && !EditsSpec(e)
    ensures Blocked(DeployStep(d, e))
    ensures var before, after := d.storage, DeployStep(d, e).storage;
            && (Arrived(after.status.state) ==> after.status.state == before.status.state)
            && (Is(after.status.conditions, StoragePaused, True) ==> Is(before.status.conditions, StoragePaused, True))
  {
    if e.Operator? { WaitsForNodes(d.storage, Answers(d, e.env)); }
  }

  /** Once blocked, whatever the state, a paused Storage arrives nowhere new and its pause is never
      reported, in any run without another edit of the spec. */
  lemma {:induction false} NeverArrives(d: Deployment, events: seq<DeployEvent>)
    requires Blocked(d) && WithoutEdits(events)
    ensures Blocked(DeployRun(d, events))
    ensures var before, after := d.storage, DeployRun(d, events).storage;
            && (Arrived(after.status.state) ==> after.status.state == before.status.state)
            && (Is(after.status.conditions, StoragePaused, True) ==> Is(before.status.conditions, StoragePaused, True))
    decreases |events|
  {
    if events != [] {
      NeverArrives(d, events[..|events| - 1]);
      StaysBlocked(DeployRun(d, events[..|events| - 1]), events[|events| - 1]);
    }
  }

  // ----- When they can, some run gets there -----

  /** The replicas a pass would read once it has synced the StatefulSet. */
  predicate AllReady(d: Deployment) {
    var nodes := d.storage.spec.nodes;
    if d.statefulSet.None? then d.storage.spec.pause && nodes == 0 else d.statefulSet.value.ready == nodes
  }

  /** An environment in which every call succeeds. */
  function Well(spec: StorageSpec): (env: PassEnv)
    ensures Healthy(spec, env)
  {
    PassEnv(true, true, true, true, None, true, true, Some(0), Answered(Running, true), PollAnswered,
            Replicas(spec.nodes), map[], true)
  }

  lemma WaitUnread(w: World, env: PassEnv, read: Lookup)
    requires !Handshake.SyncsResources(w)
    ensures Pass(w, env.(statefulSet := read)) == Pass(w, env)
  {
  }

  /** While all are ready, a pass of the deployment is a healthy pass of its Storage. */
  lemma HealthyOperator(d: Deployment)
    requires AllReady(d)
    ensures var env, v := Well(d.storage.spec), DeployStep(d, Operator(Well(d.storage.spec)));
            v.storage == After(d.storage, Pass(d.storage, env)) && AllReady(v)
  {
    var env := Well(d.storage.spec);
    if Handshake.SyncsResources(d.storage) {
      assert Answers(d, env) == env;
    } else {
      WaitUnread(d.storage, env, Answers(d, env).statefulSet);
      assert Answers(d, env) == env.(statefulSet := Answers(d, env).statefulSet);
    }
  }

  /** The operations of the log that come first have ended. */
  function Ended(w: World, n: nat): World
    requires n <= |w.cms|
  {
    w.(cms := seq(|w.cms|, i requires 0 <= i < |w.cms| =>
      if i < n && w.cms[i].result.Running? then w.cms[i].(result := Finished(Success)) else w.cms[i]))
  }

  lemma {:induction false} OperationsEnd(d: Deployment, n: nat) returns (events: seq<DeployEvent>)
    requires n <= |d.storage.cms|
    ensures WithoutEdits(events) && DeployRun(d, events) == d.(storage := Ended(d.storage, n))
  {
    if n == 0 {
      events := [];
      assert Ended(d.storage, 0) == d.storage;
    } else {
      events := OperationsEnd(d, n - 1);
      var e := Around(OperationEnds(n - 1, Success));
      RunAppends(d, events, e);
      assert Step(Ended(d.storage, n - 1), e.event).cms == Ended(d.storage, n).cms;
      events := events + [e];
    }
  }

  /** Between two passes the environment settles. */
  lemma EnvironmentSettles(d: Deployment) returns (events: seq<DeployEvent>)
    ensures WithoutEdits(events) && DeployRun(d, events) == d.(storage := StorageProgress.Settle(d.storage))
  {
    var w := d.storage;
    events := OperationsEnd(d, |w.cms|);
    assert Ended(w, |w.cms|).cms == StorageProgress.Settle(w).cms;
    if w.job.Some? {
      var e := Around(JobProgress(w.job.value.(succeeded := w.job.value.succeeded + 1)));
      RunAppends(d, events, e);
      events := events + [e];
    }
  }

  /** So many healthy rounds of the Storage, as a run of the deployment. */
  lemma {:induction false} RoundsRun(d: Deployment, n: nat) returns (events: seq<DeployEvent>, envs: seq<PassEnv>)
    requires AllReady(d)
    ensures WithoutEdits(events) && |envs| == n && forall env :: env in envs ==> Healthy(d.storage.spec, env)
    ensures var v := DeployRun(d, events);
            v.storage == Rounds(d.storage, envs) && v.storage.spec == d.storage.spec && AllReady(v)
    decreases n
  {
    if n == 0 {
      events, envs := [], [];
    } else {
      var env := Well(d.storage.spec);
      var settles := EnvironmentSettles(d);
      var s := DeployRun(d, settles);
      HealthyOperator(s);
      RunAppends(d, settles, Operator(env));
      var next := DeployStep(s, Operator(env));
      var rest, more := RoundsRun(next, n - 1);
      RunsCompose(d, settles + [Operator(env)], rest);
      events, envs := settles + [Operator(env)] + rest, [env] + more;
      assert next.storage == Round(d.storage, env);
      assert envs[0] == env && envs[1..] == more;
    }
  }

  /** From a deployment with all replicas ready, some run without an edit gets the Storage done. */
  lemma SomeRunFinishes(d: Deployment) returns (events: seq<DeployEvent>)
    requires AllReady(d) && Inv(d.storage) && Steady(d.storage) && !Stuck(d.storage)
    ensures WithoutEdits(events) && Done(DeployRun(d, events).storage)
    ensures DeployRun(d, events).storage.spec == d.storage.spec
    ensures d.statefulSet.Some? && d.storage.spec.nodes >= 0 ==> Counted(DeployRun(d, events))
  {
    var envs;
    events, envs := RoundsRun(d, Rank(d.storage));
    HealthyRoundsFinish(d.storage, envs);
  }

  lemma {:induction false} StuckStays(d: Deployment, events: seq<DeployEvent>)
    requires Inv(d.storage) && Stuck(d.storage) && WithoutEdits(events)
    ensures Inv(DeployRun(d, events).storage) && Stuck(DeployRun(d, events).storage)
    decreases |events|
  {
    if events != [] {
      var v, e := DeployRun(d, events[..|events| - 1]), events[|events| - 1];
      StuckStays(d, events[..|events| - 1]);
      match e
      case Operator(env) => StepKeepsStuck(v.storage, Reconcile(Answers(v, env)));
      case Pods(_) =>
      case Around(event) => if !event.Reconcile? { StepKeepsStuck(v.storage, event); }
    }
  }

  // ----- The pause -----

  /** Some run without another edit of the spec ends in the state asked for, with every condition true. */
  ghost predicate CanFinish(d: Deployment) {
    exists events :: WithoutEdits(events) && Done(DeployRun(d, events).storage)
  }

  lemma PodsGoTheWay(d: Deployment)
    requires d.storage.spec.pause && Counted(d) && MayRead(d)
    ensures var v := DeployStep(d, Pods(d.storage.spec.nodes)); AllReady(v) && v.storage == d.storage
  {
  }

  lemma FirstEvent(d: Deployment, e: DeployEvent, events: seq<DeployEvent>)
    ensures DeployRun(d, [e] + events) == DeployRun(DeployStep(d, e), events)
  {
    assert [] + [e] == [e];
    RunAppends(d, [], e);
    RunsCompose(d, [e], events);
  }

  lemma NoEditAmong(e: DeployEvent, events: seq<DeployEvent>)
    requires !EditsSpec(e) && WithoutEdits(events)
    ensures WithoutEdits([e] + events)
  {
    forall i | 0 <= i < |[e] + events| ensures !EditsSpec(([e] + events)[i]) {
      if i > 0 { assert ([e] + events)[i] == events[i - 1]; }
    }
  }

  lemma EndsDone(d: Deployment, events: seq<DeployEvent>)
    requires WithoutEdits(events)
    ensures Done(DeployRun(d, events).storage) ==> CanFinish(d)
  {
  }

  lemma ReadingPauses(d: Deployment)
    requires d.storage.spec.pause && Steady(d.storage) && Inv(d.storage) && !Stuck(d.storage)
    requires Counted(d) && MayRead(d)
    ensures CanFinish(d)
  {
    var pods := Pods(d.storage.spec.nodes);
    PodsGoTheWay(d);
    var events := SomeRunFinishes(DeployStep(d, pods));
    FirstEvent(d, pods, events);
    NoEditAmong(pods, events);
    EndsDone(d, [pods] + events);
  }

  lemma BlockedNeverPauses(d: Deployment)
    requires Blocked(d) && !Paused(d.storage)
    ensures !CanFinish(d)
  {
    forall events | WithoutEdits(events) ensures !Done(DeployRun(d, events).storage) {
      NeverArrives(d, events);
      RunKeepsSpec(d, events);
    }
  }

  lemma StuckNeverFinishes(d: Deployment)
    requires Inv(d.storage) && Stuck(d.storage)
    ensures !CanFinish(d)
  {
    forall events | WithoutEdits(events) ensures !Done(DeployRun(d, events).storage) { StuckStays(d, events); }
  }

  /** Pausing: a Storage asked to pause that is not reported paused yet can still reach Paused, with every
      condition true, if and only if a pass may still read as many ready replicas as its spec has nodes,
      and it is not stuck on a failed ReplaceConfig operation. */
  lemma PausedIff(d: Deployment)
    requires d.storage.spec.pause && Steady(d.storage) && Inv(d.storage) && Counted(d) && !Paused(d.storage)
    ensures CanFinish(d) <==> MayRead(d) && !Stuck(d.storage)
  {
    if Stuck(d.storage) { StuckNeverFinishes(d);
    } else if MayRead(d) { ReadingPauses(d);
    } else { BlockedNeverPauses(d); }
  }

  lemma {:induction false} RunKeepsSpec(d: Deployment, events: seq<DeployEvent>)
    requires WithoutEdits(events)
    ensures DeployRun(d, events).storage.spec == d.storage.spec
    decreases |events|
  {
    if events != [] { RunKeepsSpec(d, events[..|events| - 1]); }
  }

  // ----- Pausing a running Storage -----

  function PausedSpec(spec: StorageSpec): StorageSpec { spec.(pause := true) }

  /** The edit that pauses, one pass that syncs, and the pods gone before the next pass. */
  function PauseEvents(w: World, env: PassEnv): seq<DeployEvent> {
    [Around(EditSpec(PausedSpec(w.spec))), Operator(env), Pods(0)]
  }

  /** The pass after an edit of the spec synchronizes the configuration, and stops before the wait. */
  lemma FirstPassStops(w: World, env: PassEnv)
    requires Handshake.SyncsResources(w) && env.resourcesOk && env.nodeSetsPrunedOk && ConfigStale(w)
    requires Is(w.status.conditions, StoragePrepared, True) && Initialized(w)
    ensures After(w, Pass(w, env)).status.state == w.status.state
  {
    assert Decide(w, env) == DecideConfigStart(w, env);
  }

  lemma ThreeEvents(d: Deployment, a: DeployEvent, b: DeployEvent, c: DeployEvent)
    ensures DeployRun(d, [a, b, c]) == DeployStep(DeployStep(DeployStep(d, a), b), c)
  {
    assert [a] == [] + [a] && [a, b] == [a] + [b] && [a, b, c] == [a, b] + [c];
    RunAppends(d, [], a);
    RunAppends(d, [a], b);
    RunAppends(d, [a, b], c);
  }

  lemma EditedAndSynced(d: Deployment, env: PassEnv)
    requires Done(d.storage) && Steady(d.storage) && Inv(d.storage) && !d.storage.spec.pause && d.storage.spec.nodes > 0
    requires Counted(d) && env.resourcesOk && env.nodeSetsPrunedOk
    ensures var v := DeployStep(DeployStep(d, Around(EditSpec(PausedSpec(d.storage.spec)))), Operator(env));
            && v.storage.spec == PausedSpec(d.storage.spec) && v.storage.status.state.Ready?
            && v.statefulSet.Some? && v.statefulSet.value.replicas == 0 && Counted(v)
  {
    var edited := DeployStep(d, Around(EditSpec(PausedSpec(d.storage.spec))));
    assert ConfigStale(edited.storage);
    FirstPassStops(edited.storage, Answers(edited, env));
  }

  /** A running Storage with nodes, in any environment in which that pass syncs its resources, is then
      blocked in Ready: by NeverArrives it is never paused unless its spec is edited again. */
  lemma RunningIsBlocked(d: Deployment, env: PassEnv)
    requires Done(d.storage) && Steady(d.storage) && Inv(d.storage) && !d.storage.spec.pause && d.storage.spec.nodes > 0
    requires Counted(d) && env.resourcesOk && env.nodeSetsPrunedOk
    ensures var v := DeployRun(d, PauseEvents(d.storage, env));
            && Blocked(v) && v.storage.status.state.Ready? && !Paused(v.storage)
            && v.storage.spec == PausedSpec(d.storage.spec)
  {
    var events := PauseEvents(d.storage, env);
    ThreeEvents(d, events[0], events[1], events[2]);
    EditedAndSynced(d, env);
  }
}
