/** Progress of a Storage whose spec stays put and whose environment is healthy, and the one way it stops. */
module StorageProgress {
  import opened Wrappers
  import opened Conditions
  import opened Cms
  import opened Stages
  import opened Scaling
  import opened StorageModel
  import opened StorageSafety

  /** The spec asks for a cluster in one StatefulSet, with a configuration the webhooks accept. */
  predicate Steady(w: World) {
    && w.spec.operatorSync && w.spec.nodeSets.None?
    && (w.spec.config.Dynamic? ==> w.spec.config.valid)
  }

  predicate Healthy(spec: StorageSpec, env: PassEnv) {
    && env.resourcesOk && env.nodeSetsPrunedOk && env.jobReadable && env.jobCreated
    && env.credentials && env.cmsVersion.Some?
    && env.submission.Answered? && env.submission.idShown
    && (env.submission.taken.Finished? ==> Accepted(env.submission.taken))
    && env.poll.PollAnswered?
    && env.statefulSet == Replicas(spec.nodes) && env.statusWritten
  }

  /** Between two passes the Job gets done and the CMS finishes, with success, what it was running. */
  function Settle(w: World): World {
    w.(job := if w.job.Some? then Some(w.job.value.(succeeded := w.job.value.succeeded + 1)) else None,
       cms := seq(|w.cms|, i requires 0 <= i < |w.cms| =>
                if w.cms[i].result.Running? then w.cms[i].(result := Finished(Success)) else w.cms[i]))
  }

  ghost predicate Calm(w: World) {
    (w.job.Some? ==> w.job.value.succeeded > 0) && forall i :: 0 <= i < |w.cms| ==> w.cms[i].result.Finished?
  }

  /** Readiness, or the pause if that is asked for. */
  function Goal(w: World): ConditionType { STORAGE_STAGES.Goal(w.spec.pause) }

  predicate Done(w: World) {
    var cs := w.status.conditions;
    && w.status.state == (if w.spec.pause then Paused else Ready)
    && Is(cs, StoragePrepared, True) && Is(cs, StorageInitialized, True)
    && Is(cs, StorageProvisioned, True) && Is(cs, Goal(w), True)
    && Is(cs, ConfigurationSynced, True) && !ConfigStale(w)
  }

  /** The operation recorded for the current generation has failed in the CMS. */
  predicate Stuck(w: World) {
    && Polling(w) && !Is(w.status.conditions, ConfigurationSynced, True)
    && var id := Find(w.status.conditions, ReplaceConfigOperation).value.message;
       id.OperationId? && id.id < |w.cms|
       && w.cms[id.id].result.Finished? && !Accepted(w.cms[id.id].result)
  }

  // ----- The rank -----

  function StateRank(s: ClusterState, pause: bool): nat {
    match s
    case Pending => 80
    case Preparing => 60
    case Initializing => 40
    case Provisioning => 20
    case Paused => if pause then 0 else 20
    case Ready => if pause then 20 else 0
  }

  function ConfigRank(w: World): nat {
    if ConfigStale(w) then 12
    else if Is(w.status.conditions, ConfigurationSynced, True) then 0
    else if Polling(w) then
      (if Find(w.status.conditions, ReplaceConfigOperation).value.message.Empty? then 10 else 6)
    else if Submitting(w) then 8
    else 4
  }

  function InitRank(w: World): nat {
    if Initialized(w) then 0 else if w.job.None? then 4 else 2
  }

  function Unmet(w: World, kind: ConditionType, weight: nat): nat {
    if Is(w.status.conditions, kind, True) then 0 else weight
  }

  function Rank(w: World): nat {
    (if w.status.conditions == [] then 1 else 0) + StateRank(w.status.state, w.spec.pause)
    + Unmet(w, StoragePrepared, 2) + InitRank(w) + ConfigRank(w)
    + Unmet(w, StorageProvisioned, 2) + Unmet(w, Goal(w), 1)
  }

  /** What a persisted put changes of each condition the rank reads. */
  lemma WriteFinds(w: World, put: Put, kind: ConditionType)
    requires !kind.StorageReady? && !kind.StoragePaused?
    ensures Find(NewStatus(w, put).conditions, kind) ==
            if kind == put.condition.kind then Some(put.condition) else Find(w.status.conditions, kind)
  {
    NewStatusFinds(w, put, kind);
  }

  /** What a healthy configuration stage puts next. */
  predicate ConfigNext(w: World, c: Condition) {
    if ConfigStale(w) then c.kind.ConfigurationSynced? && c.observedGeneration == w.Generation()
    else if Polling(w) then
      if Find(w.status.conditions, ReplaceConfigOperation).value.message.Empty?
      then c.kind.ReplaceConfigOperation? && c.status.False?
      else c.kind.ReplaceConfigOperation? && c.status.True? && c.observedGeneration == w.Generation()
    else if Submitting(w) then
      && c.kind.ReplaceConfigOperation? && c.observedGeneration == w.Generation()
      && (c.status.True? || (c.status.Unknown? && !c.message.Empty?))
    else c.kind.ConfigurationSynced? && c.status.True? && c.observedGeneration == w.Generation()
  }

  lemma ConfigPlanIsNext(w: World, env: PassEnv)
    requires Inv(w) && Steady(w) && Calm(w) && Healthy(w.spec, env) && !Stuck(w)
    requires Is(w.status.conditions, ConfigurationSynced, True) ==> ConfigStale(w)
    ensures var p := if ConfigStale(w) then DecideConfigStart(w, env) else DecideConfigSync(w, env);
            p.put.Some? && p.put.value.state == w.status.state && p.job == w.job && ConfigNext(w, p.put.value.condition)
  {
  }

  lemma ConfigRankDrops(w: World, w': World, c: Condition)
    requires Is(w.status.conditions, ConfigurationSynced, True) ==> ConfigStale(w)
    requires ConfigNext(w, c) && w'.past == w.past
    requires Find(w'.status.conditions, ConfigurationSynced) ==
             if c.kind.ConfigurationSynced? then Some(c) else Find(w.status.conditions, ConfigurationSynced)
    requires Find(w'.status.conditions, ReplaceConfigOperation) ==
             if c.kind.ReplaceConfigOperation? then Some(c) else Find(w.status.conditions, ReplaceConfigOperation)
    ensures ConfigRank(w') + 2 <= ConfigRank(w)
  {
  }

  lemma ConfigRankStays(w: World, w': World)
    requires w'.past == w.past
    requires Find(w'.status.conditions, ConfigurationSynced) == Find(w.status.conditions, ConfigurationSynced)
    requires Find(w'.status.conditions, ReplaceConfigOperation) == Find(w.status.conditions, ReplaceConfigOperation)
    ensures ConfigRank(w') == ConfigRank(w)
  {
  }

  /** A step in the right direction: the state advances, the first unmet stage is met, the Job is
      created, or the configuration advances. */
  predicate Forward(w: World, p: Plan) {
    match p.put
    case None => !Initialized(w) && w.job.None? && p.job.Some?
    case Some(Put(state, c)) =>
      && p.job == w.job
      && if w.status.conditions == [] then c.kind == Goal(w) && state == w.status.state
         else if state != w.status.state then
           && StateRank(state, w.spec.pause) + 20 <= StateRank(w.status.state, w.spec.pause)
           && c.kind in {StoragePrepared, StorageInitialized, StorageProvisioned, StorageReady, StoragePaused}
           && (c.kind.StorageInitialized? ==> !Initialized(w))
         else if c.kind.ConfigurationSynced? || c.kind.ReplaceConfigOperation? then
           ConfigNext(w, c) && (Is(w.status.conditions, ConfigurationSynced, True) ==> ConfigStale(w))
         else && c.status.True? && !Is(w.status.conditions, c.kind, True)
              && c.kind in {StoragePrepared, StorageInitialized, StorageProvisioned, Goal(w)}
              && (c.kind == Goal(w) ==>
                    Is(w.status.conditions, StoragePrepared, True) && Initialized(w)
                    && Is(w.status.conditions, StorageProvisioned, True))
  }

  /** With every stage met, readiness is not taken back by the write that reports it. */
  lemma ReadyStands(w: World, put: Put)
    requires Is(w.status.conditions, StoragePrepared, True) && Initialized(w)
    requires Is(w.status.conditions, StorageProvisioned, True) && put.condition.kind == Goal(w)
    ensures Find(NewStatus(w, put).conditions, Goal(w)) == Some(put.condition)
  {
  }

  /** What the rank needs to know of the status a put leads to. */
  lemma PutLeaves(w: World, put: Put, w': World)
    requires w'.past == w.past && w'.status == NewStatus(w, put)
    ensures w'.status.conditions != [] && w'.status.state == put.state
    ensures forall kind :: kind in {StoragePrepared, StorageInitialized, StorageProvisioned,
                                    ConfigurationSynced, ReplaceConfigOperation} ==>
              Find(w'.status.conditions, kind) ==
              if kind == put.condition.kind then Some(put.condition) else Find(w.status.conditions, kind)
  {
    WriteFinds(w, put, StoragePrepared);
    WriteFinds(w, put, StorageInitialized);
    WriteFinds(w, put, StorageProvisioned);
    WriteFinds(w, put, ConfigurationSynced);
    WriteFinds(w, put, ReplaceConfigOperation);
  }

  /** The rank compares worlds through what PutLeaves says of them. */
  lemma RankDrops(w: World, put: Put, w': World)
    requires Forward(w, Plan(w.job, w.cms, [], Some(put))) && w'.past == w.past && w'.job == w.job
    requires w'.spec == w.spec && w'.status.conditions != [] && w'.status.state == put.state
    requires forall kind :: kind in {StoragePrepared, StorageInitialized, StorageProvisioned,
                                     ConfigurationSynced, ReplaceConfigOperation} ==>
               Find(w'.status.conditions, kind) ==
               if kind == put.condition.kind then Some(put.condition) else Find(w.status.conditions, kind)
    requires put.condition.kind == Goal(w) && put.condition.status.True? && put.state == w.status.state ==>
               Is(w'.status.conditions, Goal(w), True)
    requires w.status.conditions == [] ==> !Is(w.status.conditions, Goal(w), True)
    ensures Rank(w') < Rank(w)
  {
    var c := put.condition;
    if c.kind.ConfigurationSynced? || c.kind.ReplaceConfigOperation? {
      if w.status.conditions != [] && put.state == w.status.state { ConfigRankDrops(w, w', c); }
    } else {
      ConfigRankStays(w, w');
    }
  }

  lemma ForwardDescends(w: World, env: PassEnv, p: Plan)
    requires Forward(w, p) && env.statusWritten
    ensures Rank(After(w, Commit(w, env, p))) < Rank(w)
  {
    var w' := After(w, Commit(w, env, p));
    if p.put.Some? {
      PutLeaves(w, p.put.value, w');
      if p.put.value.condition.kind == Goal(w) && p.put.value.state == w.status.state && w.status.conditions != [] {
        ReadyStands(w, p.put.value);
      }
      RankDrops(w, p.put.value, w');
    } else {
      ConfigRankStays(w, w');
    }
  }

  lemma InitializationIsForward(w: World, env: PassEnv)
    requires Calm(w) && Healthy(w.spec, env) && !Initialized(w) && w.status.conditions != []
    requires !w.status.state.Pending?
    ensures Forward(w, DecideInitialization(w, env))
  {
  }

  lemma PauseIsForward(w: World)
    requires Steady(w) && Initialized(w) && !Done(w) && w.status.conditions != []
    requires !w.status.state.Pending? && !w.status.state.Preparing? && !w.status.state.Initializing?
    requires Is(w.status.conditions, StoragePrepared, True) && Is(w.status.conditions, StorageProvisioned, True)
    requires !ConfigStale(w) && Is(w.status.conditions, ConfigurationSynced, True)
    ensures Forward(w, DecidePause(w))
  {
  }

  /** From any reachable world that is neither done nor stuck, a healthy pass strictly lowers the rank. */
  lemma HealthyPassDescends(w: World, env: PassEnv)
    requires Inv(w) && Steady(w) && Calm(w) && Healthy(w.spec, env) && !Stuck(w) && !Done(w)
    ensures Rank(After(w, Pass(w, env))) < Rank(w)
  {
    var cs := w.status.conditions;
    var p := Decide(w, env);
    assert Forward(w, p) by {
      if cs == [] || w.status.state.Pending? || !Is(cs, StoragePrepared, True) {
      } else if !Initialized(w) { InitializationIsForward(w, env);
      } else if ConfigStale(w) || !Is(cs, ConfigurationSynced, True) { ConfigPlanIsNext(w, env);
      } else if w.status.state.Initializing? || !Is(cs, StorageProvisioned, True) {
        assert Scaled(w.spec, env) == Settled;
      } else { PauseIsForward(w); }
    }
    ForwardDescends(w, env, p);
  }

  lemma DoneStaysPut(w: World)
    requires Done(w)
    ensures DecidePause(w) == Hold(w, [SyncResources])
  {
  }

  /** Once done, a pass finds nothing to write. */
  lemma DoneIsFinal(w: World, env: PassEnv)
    requires Steady(w) && Healthy(w.spec, env) && Done(w)
    ensures Pass(w, env) == Outcome(w.status, w.job, w.cms, [SyncResources])
  {
    assert Scaled(w.spec, env) == Settled;
    assert Decide(w, env) == DecidePause(w);
    DoneStaysPut(w);
  }

  // ----- Rounds of environment and operator -----

  function Round(w: World, env: PassEnv): World { After(Settle(w), Pass(Settle(w), env)) }

  function Rounds(w: World, envs: seq<PassEnv>): World
    decreases |envs|
  {
    if envs == [] then w else Rounds(Round(w, envs[0]), envs[1..])
  }

  lemma SettleKeeps(w: World)
    requires Inv(w)
    ensures Inv(Settle(w)) && Calm(Settle(w)) && Rank(Settle(w)) == Rank(w)
    ensures Stuck(Settle(w)) == Stuck(w) && Done(Settle(w)) == Done(w) && Steady(Settle(w)) == Steady(w)
  {
    var w' := Settle(w);
    assert LogExtends(w, w');
    forall g | Applied(w, g) ensures Applied(w', g) { AppliedStays(w, w', g); }
    ConfigRankStays(w, w');
  }

  /** A commit that puts neither of the two configuration conditions changes nothing about being stuck. */
  lemma UnrelatedCommit(w: World, env: PassEnv, p: Plan)
    requires p.cms == w.cms
    requires p.put.Some? ==> p.put.value.condition.kind !in {ConfigurationSynced, ReplaceConfigOperation}
    ensures Stuck(After(w, Commit(w, env, p))) == Stuck(w)
  {
    if p.put.Some? {
      WriteFinds(w, p.put.value, ConfigurationSynced);
      WriteFinds(w, p.put.value, ReplaceConfigOperation);
    }
  }

  lemma NotPollingNotStuck(w: World, env: PassEnv, p: Plan)
    requires !Polling(w) && p.put.Some? && p.put.value.condition.kind.ConfigurationSynced?
    ensures !Stuck(After(w, Commit(w, env, p)))
  {
    WriteFinds(w, p.put.value, ReplaceConfigOperation);
  }

  /** A healthy pass neither records a failed operation nor lets go of one. */
  lemma PassKeepsStuck(w: World, env: PassEnv)
    requires Inv(w) && Steady(w) && Calm(w) && Healthy(w.spec, env)
    ensures Stuck(After(w, Pass(w, env))) == Stuck(w)
  {
    var p := Decide(w, env);
    if Stuck(w) {
      StuckHolds(w, env);
    } else if ReachesConfigSync(w, env) {
      ConfigPlanIsNext(w, env);
      NewOperationsAreWell(w, env);
      HealthySyncUnstuck(w, env, p);
    } else {
      OtherStagesLeaveTheCms(w, env);
      if ConfigStale(w) && p.put.Some? && p.put.value.condition.kind.ConfigurationSynced? {
        NotPollingNotStuck(w, env, p);
      } else {
        if p.put.Some? && !ConfigStale(w) { OnlyConfigStagesPutSync(w, env); }
        UnrelatedCommit(w, env, p);
      }
    }
  }

  lemma HealthySyncUnstuck(w: World, env: PassEnv, p: Plan)
    requires !ConfigStale(w) && !Stuck(w) && env.statusWritten
    requires p.put.Some? && ConfigNext(w, p.put.value.condition)
    requires p.put.value.condition.status.Unknown? && p.put.value.condition.message.OperationId? ==>
               var id := p.put.value.condition.message.id;
               id < |p.cms| ==> (p.cms[id].result.Finished? ==> Accepted(p.cms[id].result))
    ensures !Stuck(After(w, Commit(w, env, p)))
  {
    WriteFinds(w, p.put.value, ConfigurationSynced);
    WriteFinds(w, p.put.value, ReplaceConfigOperation);
  }

  lemma NewOperationsAreWell(w: World, env: PassEnv)
    requires Healthy(w.spec, env) && ReachesConfigSync(w, env) && Inv(w)
    ensures var p := Decide(w, env);
            p.put.Some? && p.put.value.condition.status.Unknown? && p.put.value.condition.message.OperationId? ==>
              var id := p.put.value.condition.message.id;
              id < |p.cms| ==> (p.cms[id].result.Finished? ==> Accepted(p.cms[id].result))
  {
    assert Decide(w, env) == DecideConfigSync(w, env);
  }

  /** Whatever the answers, a pass over a stuck Storage leaves the recorded operation in place, does
      not submit another and does not call the configuration synchronized. */
  lemma StuckHolds(w: World, env: PassEnv)
    requires Inv(w) && Stuck(w)
    ensures Stuck(After(w, Pass(w, env)))
    ensures forall a :: a in Pass(w, env).actions ==> !a.SubmitConfig?
  {
    var p := Decide(w, env);
    if ReachesConfigSync(w, env) {
      StuckPollHolds(w, env);
    } else {
      OtherStagesLeaveTheCms(w, env);
      if p.put.Some? { OnlyConfigStagesPutSync(w, env); }
    }
    UnrelatedCommit(w, env, p);
  }

  lemma StuckPollHolds(w: World, env: PassEnv)
    requires Stuck(w)
    ensures DecideConfigSync(w, env) == Hold(w, [SyncResources])
  {
  }

  lemma OnlyConfigStagesPutSync(w: World, env: PassEnv)
    requires !ReachesConfigSync(w, env) && !ConfigStale(w) && Decide(w, env).put.Some?
    ensures !Decide(w, env).put.value.condition.kind.ConfigurationSynced?
  {
    var cs := w.status.conditions;
    if !Initialized(w) { InitializationPutsNoSync(w, env); } else { PauseLeavesTheCms(w); }
  }

  lemma InitializationPutsNoSync(w: World, env: PassEnv)
    ensures var p := DecideInitialization(w, env);
            p.put.Some? ==> p.put.value.condition.kind.StorageInitialized?
  {
  }

  /** Bounded progress, both ways: after as many healthy rounds as the rank of a reachable world, the
      Storage is Ready with every condition true if and only if it was not stuck on a failed
      ReplaceConfig operation. */
  lemma {:induction false} HealthyRoundsFinish(w: World, envs: seq<PassEnv>)
    requires Inv(w) && Steady(w) && Rank(w) <= |envs|
    requires forall env :: env in envs ==> Healthy(w.spec, env)
    ensures Done(Rounds(w, envs)) <==> !Stuck(w)
    decreases |envs|
  {
    if envs == [] {
      assert ConfigRank(w) == 0;
      return;
    }
    var s := Settle(w);
    var env := envs[0];
    var next := Round(w, env);
    SettleKeeps(w);
    PassKeepsInv(s, env);
    PassKeepsStuck(s, env);
    assert next.spec == w.spec;
    if Done(w) {
      DoneIsFinal(s, env);
      assert Rank(s) == Rank(next);
      DoneStays(next, envs[1..]);
    } else if Stuck(w) {
      StuckRoundsNeverFinish(next, envs[1..]);
    } else {
      HealthyPassDescends(s, env);
      HealthyRoundsFinish(next, envs[1..]);
    }
  }

  lemma {:induction false} DoneStays(w: World, envs: seq<PassEnv>)
    requires Inv(w) && Steady(w) && Done(w)
    requires forall env :: env in envs ==> Healthy(w.spec, env)
    ensures Done(Rounds(w, envs))
    decreases |envs|
  {
    if envs != [] {
      SettleKeeps(w);
      DoneIsFinal(Settle(w), envs[0]);
      PassKeepsInv(Settle(w), envs[0]);
      DoneStays(Round(w, envs[0]), envs[1..]);
    }
  }

  lemma {:induction false} StuckRoundsNeverFinish(w: World, envs: seq<PassEnv>)
    requires Inv(w) && Stuck(w)
    ensures !Done(Rounds(w, envs))
    decreases |envs|
  {
    if envs != [] {
      SettleKeeps(w);
      PassKeepsInv(Settle(w), envs[0]);
      StuckHolds(Settle(w), envs[0]);
      StuckRoundsNeverFinish(Round(w, envs[0]), envs[1..]);
    }
  }

  /** A failed ReplaceConfig operation is never recovered from by waiting: in every run without a spec
      edit the Storage stays stuck, whatever else happens. The failure is noted in memory only. */
  lemma {:induction false} FailedOperationSticks(w: World, events: seq<Event>)
    requires Inv(w) && Stuck(w)
    requires forall e :: e in events ==> !e.EditSpec?
    ensures Inv(Run(w, events)) && Stuck(Run(w, events))
    decreases |events|
  {
    if events != [] {
      var before, e := events[..|events| - 1], events[|events| - 1];
      FailedOperationSticks(w, before);
      StepKeepsStuck(Run(w, before), e);
    }
  }

  lemma StepKeepsStuck(w: World, e: Event)
    requires Inv(w) && Stuck(w) && !e.EditSpec?
    ensures Inv(Step(w, e)) && Stuck(Step(w, e))
  {
    if e.Reconcile? { PassKeepsInv(w, e.env); StuckHolds(w, e.env); } else { EnvironmentKeepsInv(w, e); }
  }

  // ----- Getting stuck -----

  const CONFIG := Dynamic(true, 1, 0)
  const NEW_STORAGE :=
    World([], StorageSpec(false, true, 1, None, CONFIG), true, Status(Pending, []), None, [])
  const WELL := Reconcile(PassEnv(true, true, true, true, None, true, true, Some(1),
                                  Answered(Running, true), PollAnswered, Replicas(1), map[], true))

  /** The run that gets stuck, as a count of its healthy passes. */
  predicate Reached(w: World, passes: nat) {
    var cs, state := w.status.conditions, w.status.state;
    && w == NEW_STORAGE.(status := w.status, cms := w.cms)
    && (passes < 7 ==> w.cms == [] && Find(cs, ReplaceConfigOperation).None?)
    && (passes < 6 ==> Find(cs, ConfigurationSynced).None?)
    && (passes >= 6 ==> IsAt(cs, ConfigurationSynced, Unknown, 1))
    && (passes < 5 ==> !Is(cs, StorageInitialized, True))
    && (passes >= 5 ==> Is(cs, StorageInitialized, True))
    && (passes < 3 ==> !Is(cs, StoragePrepared, True))
    && (passes >= 3 ==> Is(cs, StoragePrepared, True))
    && state == (if passes < 2 then Pending else if passes < 4 then Preparing else Initializing)
    && (cs == [] <==> passes == 0)
    && (passes == 7 ==>
          && Find(cs, ReplaceConfigOperation) ==
             Some(Condition(ReplaceConfigOperation, Unknown, InProgress, 1, OperationId(0)))
          && w.cms == [ConfigOperation(1, CONFIG, Running)])
  }

  /** What the next healthy pass of that run puts. */
  function NextPut(passes: nat): Put
    requires passes < 7
  {
    var c := (kind, status, reason, message) => Condition(kind, status, reason, 1, message);
    match passes
    case 0 => Put(Pending, c(StorageReady, Unknown, InProgress, Note))
    case 1 => Put(Preparing, c(StoragePrepared, Unknown, InProgress, Note))
    case 2 => Put(Preparing, c(StoragePrepared, True, Completed, Note))
    case 3 => Put(Initializing, c(StorageInitialized, Unknown, InProgress, Note))
    case 4 => Put(Initializing, c(StorageInitialized, True, Completed, Note))
    case 5 => Put(Initializing, c(ConfigurationSynced, Unknown, InProgress, Note))
    case _ => Put(Initializing, c(ReplaceConfigOperation, Unknown, InProgress, OperationId(0)))
  }

  lemma DecidesNext(w: World, passes: nat)
    requires passes < 7 && Reached(w, passes)
    ensures var p := Decide(w, WELL.env);
            && p.put == Some(NextPut(passes)) && p.job.None?
            && p.cms == if passes == 6 then [ConfigOperation(1, CONFIG, Running)] else []
  {
    assert [] + [ConfigOperation(1, CONFIG, Running)] == [ConfigOperation(1, CONFIG, Running)];
  }

  lemma PutReaches(w: World, passes: nat, w': World)
    requires passes < 7 && Reached(w, passes) && w' == w.(status := w'.status, cms := w'.cms)
    requires w'.status.conditions != [] && w'.status.state == NextPut(passes).state
    requires forall kind :: kind in {StoragePrepared, StorageInitialized, StorageProvisioned,
                                     ConfigurationSynced, ReplaceConfigOperation} ==>
               Find(w'.status.conditions, kind) ==
               if kind == NextPut(passes).condition.kind then Some(NextPut(passes).condition)
               else Find(w.status.conditions, kind)
    requires w'.cms == if passes == 6 then [ConfigOperation(1, CONFIG, Running)] else []
    ensures Reached(w', passes + 1)
  {
  }

  lemma OnePassFurther(w: World, passes: nat)
    requires passes < 7 && Reached(w, passes)
    ensures Reached(Step(w, WELL), passes + 1)
  {
    DecidesNext(w, passes);
    var w' := After(w, Commit(w, WELL.env, Decide(w, WELL.env)));
    PutLeaves(w, NextPut(passes), w');
    PutReaches(w, passes, w');
  }

  function WellPasses(n: nat): (r: seq<Event>)
    ensures |r| == n
  {
    if n == 0 then [] else WellPasses(n - 1) + [WELL]
  }

  lemma RunAppends(w: World, events: seq<Event>, e: Event)
    ensures Run(w, events + [e]) == Step(Run(w, events), e)
  {
    assert (events + [e])[..|events|] == events;
  }

  lemma NewIsReached()
    ensures Run(NEW_STORAGE, WellPasses(0)) == NEW_STORAGE && Reached(NEW_STORAGE, 0)
  {
  }

  lemma {:induction false} RunReaches(passes: nat)
    requires passes <= 7
    ensures Reached(Run(NEW_STORAGE, WellPasses(passes)), passes)
  {
    if passes == 0 {
      NewIsReached();
    } else {
      RunReaches(passes - 1);
      OnePassFurther(Run(NEW_STORAGE, WellPasses(passes - 1)), passes - 1);
      RunAppends(NEW_STORAGE, WellPasses(passes - 1), WELL);
    }
  }

  lemma FailureSticks(w: World)
    requires Reached(w, 7)
    ensures Steady(Step(w, OperationEnds(0, OtherStatus))) && Stuck(Step(w, OperationEnds(0, OtherStatus)))
  {
  }

  /** A new Storage gets stuck: seven healthy passes submit its configuration, and the operation fails. */
  lemma StuckHappens() returns (events: seq<Event>)
    ensures Initial(NEW_STORAGE) && Steady(NEW_STORAGE)
    ensures Steady(Run(NEW_STORAGE, events)) && Stuck(Run(NEW_STORAGE, events))
  {
    var passes := WellPasses(7);
    var fails := OperationEnds(0, OtherStatus);
    events := passes + [fails];
    RunReaches(7);
    FailureSticks(Run(NEW_STORAGE, passes));
    RunAppends(NEW_STORAGE, passes, fails);
  }
}
