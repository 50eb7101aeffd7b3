/** What every run of the Storage reconciler keeps, whatever the spec edits, failures, crashes
    and answers of the environment. */
module StorageSafety {
  import opened Wrappers
  import opened Conditions
  import opened Cms
  import opened Stages
  import opened Scaling
  import opened StorageModel

  // ----- The invariant of reachable worlds -----

  predicate PastInitialization(s: ClusterState) { s.Provisioning? || s.Ready? || s.Paused? }

  /** The states and the Initialized condition agree, and readiness is never claimed before it. */
  predicate StagesAgree(w: World) {
    var cs := w.status.conditions;
    && (w.status.state.Pending? || w.status.state.Preparing? ==> !Is(cs, StorageInitialized, True))
    && (PastInitialization(w.status.state) ==> Is(cs, StorageInitialized, True))
    && (Is(cs, StorageReady, True) ==> Is(cs, StorageInitialized, True))
  }

  ghost predicate GenerationsBounded(w: World) {
    forall kind :: Find(w.status.conditions, kind).Some? ==>
      Find(w.status.conditions, kind).value.observedGeneration <= w.Generation()
  }

  /** The CMS has finished, with success, an operation carrying the configuration of that generation. */
  ghost predicate Applied(w: World, generation: nat) {
    exists i :: 0 <= i < |w.cms| && w.cms[i].generation == generation
      && w.cms[i].config == w.ConfigAt(generation) && Accepted(w.cms[i].result)
  }

  ghost predicate LogFaithful(w: World) {
    forall i :: 0 <= i < |w.cms| ==>
      1 <= w.cms[i].generation <= w.Generation() && w.cms[i].config == w.ConfigAt(w.cms[i].generation)
  }

  /** What the persisted conditions say about the CMS is true of the CMS. */
  ghost predicate ConfigAgrees(w: World) {
    var cs := w.status.conditions;
    var replace := Find(cs, ReplaceConfigOperation);
    var synced := Find(cs, ConfigurationSynced);
    && (replace.Some? && replace.value.status.Unknown? ==>
          match replace.value.message
          case Empty => true
          case Note => false
          case OperationId(id) => id < |w.cms| && w.cms[id].generation == replace.value.observedGeneration)
    && (replace.Some? && replace.value.status.True? ==> Applied(w, replace.value.observedGeneration))
    && (synced.Some? && synced.value.status.True? && synced.value.reason.Completed? ==>
          IsAt(cs, ReplaceConfigOperation, True, synced.value.observedGeneration))
    && (replace.Some? ==> synced.Some? && replace.value.observedGeneration <= synced.value.observedGeneration)
    && (synced.Some? && synced.value.observedGeneration == w.Generation() && w.spec.config.Static? ==>
          synced.value.status.True?)
  }

  ghost predicate Inv(w: World) {
    && StagesAgree(w)
    && GenerationsBounded(w)
    && LogFaithful(w)
    && ConfigAgrees(w)
  }

  // ----- One step keeps it -----

  /** What a write leaves in the list: the condition put, and otherwise what was there, except that
      readiness or the pause may have been taken back. */
  lemma NewStatusFinds(w: World, put: Put, kind: ConditionType)
    ensures var before := SetStatusCondition(w.status.conditions, put.condition);
            var after := NewStatus(w, put).conditions;
            || Find(after, kind) == Find(before, kind)
            || (&& (kind.StorageReady? || kind.StoragePaused?)
                && Find(after, kind) == Some(Condition(kind, False, InProgress, w.Generation(), Empty)))
  {
  }

  predicate Move(before: ClusterState, after: ClusterState) {
    || before == after
    || (before.Pending? && after.Preparing?)
    || (before.Preparing? && after.Initializing?)
    || (before.Initializing? && after.Provisioning?)
    || (before.Provisioning? && (after.Ready? || after.Paused?))
    || (before.Ready? && after.Paused?)
    || (before.Paused? && after.Ready?)
  }

  /** The outside fact that lets the reconciler call the storage initialized. */
  predicate Justified(w: World, env: PassEnv) {
    || w.skipInit
    || (w.job.Some? && env.jobReadable &&
        (w.job.value.succeeded > 0 || (env.pods.Some? && Pod(true, Some(true)) in env.pods.value)))
  }

  predicate Initialized(w: World) { Is(w.status.conditions, StorageInitialized, True) }

  /** The guards under which each kind of status may be put. */
  predicate Guarded(w: World, env: PassEnv, p: Plan) {
    p.put.Some? ==>
      var Put(state, c) := p.put.value;
      && Move(w.status.state, state)
      && c.observedGeneration <= w.Generation()
      && (c.kind.StorageInitialized? ==> !Initialized(w))
      && (c.kind.StorageInitialized? && c.status.True? ==>
            && state == w.status.state && !state.Pending? && !state.Preparing?
            && (Justified(w, env) || Is(w.status.conditions, StorageReady, True)))
      && (c.kind.StorageReady? && c.status.True? ==> Initialized(w))
      && (PastInitialization(state) && state != w.status.state ==>
            Initialized(w) && !ConfigStale(w) && Is(w.status.conditions, ConfigurationSynced, True))
      && (c.kind.ReplaceConfigOperation? ==> !Is(w.status.conditions, ConfigurationSynced, True))
  }

  lemma InitializationIsGuarded(w: World, env: PassEnv)
    requires !Initialized(w) && !w.status.state.Pending?
    ensures Guarded(w, env, DecideInitialization(w, env))
  {
  }

  lemma ConfigSyncIsGuarded(w: World, env: PassEnv)
    requires !Is(w.status.conditions, ConfigurationSynced, True)
    ensures Guarded(w, env, DecideConfigSync(w, env))
  {
  }

  lemma PauseIsGuarded(w: World, env: PassEnv)
    requires Initialized(w) && !ConfigStale(w) && Is(w.status.conditions, ConfigurationSynced, True)
    ensures Guarded(w, env, DecidePause(w))
  {
  }

  lemma PutIsGuarded(w: World, env: PassEnv)
    ensures Guarded(w, env, Decide(w, env))
  {
    var cs := w.status.conditions;
    if cs == [] || w.status.state.Pending? || !w.spec.operatorSync {
    } else if !env.resourcesOk || !env.nodeSetsPrunedOk || !Is(cs, StoragePrepared, True) {
    } else if !Initialized(w) { InitializationIsGuarded(w, env);
    } else if ConfigStale(w) {
    } else if !Is(cs, ConfigurationSynced, True) { ConfigSyncIsGuarded(w, env);
    } else { PauseIsGuarded(w, env); }
  }

  lemma CommitKeepsStages(w: World, env: PassEnv, p: Plan)
    requires StagesAgree(w) && Guarded(w, env, p)
    ensures StagesAgree(After(w, Commit(w, env, p)))
    ensures Initialized(w) ==> Initialized(After(w, Commit(w, env, p)))
  {
    if p.put.Some? {
      NewStatusFinds(w, p.put.value, StorageInitialized);
      NewStatusFinds(w, p.put.value, StorageReady);
    }
  }

  lemma CommitKeepsGenerations(w: World, env: PassEnv, p: Plan)
    requires GenerationsBounded(w) && Guarded(w, env, p)
    ensures GenerationsBounded(After(w, Commit(w, env, p)))
  {
    if p.put.Some? {
      forall kind { NewStatusFinds(w, p.put.value, kind); }
    }
  }

  /** The guards under which the CMS log grows and the two configuration conditions are put. */
  ghost predicate ConfigGuarded(w: World, p: Plan) {
    && (p.cms == w.cms ||
        exists result :: p.cms == w.cms + [ConfigOperation(w.Generation(), w.spec.config, result)])
    && (p.put.Some? ==>
          var c := p.put.value.condition;
          && (c.kind.ReplaceConfigOperation? ==> !Is(w.status.conditions, ConfigurationSynced, True))
          && (c.kind.ReplaceConfigOperation? && c.status.Unknown? ==>
                c.message.Empty? || (c.message.OperationId? && c.message.id < |p.cms|
                  && p.cms[c.message.id].generation == c.observedGeneration))
          && (c.kind.ReplaceConfigOperation? && c.status.True? ==> Applied(w.(cms := p.cms), c.observedGeneration))
          && (c.kind.ConfigurationSynced? && c.status.True? && c.reason.Completed? ==>
                IsAt(w.status.conditions, ReplaceConfigOperation, True, c.observedGeneration))
          && (c.kind.ReplaceConfigOperation? ==> !ConfigStale(w) && c.observedGeneration <= w.Generation())
          && (c.kind.ConfigurationSynced? ==> PutsSync(w, c)))
  }

  predicate PutsSync(w: World, c: Condition) {
    c.observedGeneration == w.Generation() && (w.spec.config.Static? ==> c.status.True?)
  }

  lemma SubmitIsConfigGuarded(w: World, env: PassEnv)
    requires LogFaithful(w) && !Is(w.status.conditions, ConfigurationSynced, True) && !ConfigStale(w)
    ensures ConfigGuarded(w, DecideSubmit(w, env))
  {
    var p := DecideSubmit(w, env);
    if !env.submission.Refused? {
      assert p.cms[|w.cms|].config == w.ConfigAt(w.Generation());
    }
  }

  lemma PollIsConfigGuarded(w: World, env: PassEnv)
    requires LogFaithful(w) && ConfigAgrees(w) && Polling(w)
    requires !Is(w.status.conditions, ConfigurationSynced, True) && !ConfigStale(w)
    ensures ConfigGuarded(w, DecidePoll(w, env))
  {
  }

  lemma ConfigSyncIsConfigGuarded(w: World, env: PassEnv)
    requires Inv(w) && !Is(w.status.conditions, ConfigurationSynced, True) && !ConfigStale(w)
    ensures ConfigGuarded(w, DecideConfigSync(w, env))
  {
    if w.spec.config.Static? || !w.spec.config.valid || !env.credentials {
    } else if Polling(w) { PollIsConfigGuarded(w, env);
    } else if Submitting(w) { SubmitIsConfigGuarded(w, env);
    } else {
      var c := Find(w.status.conditions, ReplaceConfigOperation).value;
      assert c.observedGeneration == w.Generation();
    }
  }

  /** A stage that leaves the CMS alone and puts neither an operation nor a completed sync. */
  predicate LeavesTheCms(w: World, p: Plan) {
    && p.cms == w.cms
    && (forall a :: a in p.actions ==> !a.SubmitConfig? && !a.WriteStatus?)
    && (p.put.Some? ==>
         var c := p.put.value.condition;
         !c.kind.ReplaceConfigOperation? && (c.kind.ConfigurationSynced? ==> !c.reason.Completed? && PutsSync(w, c)))
  }

  lemma InitializationLeavesTheCms(w: World, env: PassEnv)
    ensures LeavesTheCms(w, DecideInitialization(w, env))
  {
  }

  lemma ConfigStartLeavesTheCms(w: World, env: PassEnv)
    ensures LeavesTheCms(w, DecideConfigStart(w, env))
  {
  }

  lemma PauseLeavesTheCms(w: World)
    ensures LeavesTheCms(w, DecidePause(w))
    ensures DecidePause(w).put.Some? ==> !DecidePause(w).put.value.condition.kind.ConfigurationSynced?
  {
  }

  /** The pass reaches the stage that talks to the CMS about the configuration. */
  predicate ReachesConfigSync(w: World, env: PassEnv) {
    && w.status.conditions != [] && !w.status.state.Pending?
    && w.spec.operatorSync && env.resourcesOk && env.nodeSetsPrunedOk
    && Is(w.status.conditions, StoragePrepared, True) && Initialized(w)
    && !ConfigStale(w) && !Is(w.status.conditions, ConfigurationSynced, True)
  }

  lemma OtherStagesLeaveTheCms(w: World, env: PassEnv)
    requires !ReachesConfigSync(w, env)
    ensures LeavesTheCms(w, Decide(w, env))
  {
    var cs := w.status.conditions;
    if cs == [] || w.status.state.Pending? || !w.spec.operatorSync {
    } else if !env.resourcesOk || !env.nodeSetsPrunedOk || !Is(cs, StoragePrepared, True) {
    } else if !Initialized(w) { InitializationLeavesTheCms(w, env);
    } else if ConfigStale(w) { ConfigStartLeavesTheCms(w, env);
    } else { PauseLeavesTheCms(w); }
  }

  lemma PutIsConfigGuarded(w: World, env: PassEnv)
    requires Inv(w)
    ensures ConfigGuarded(w, Decide(w, env))
  {
    if ReachesConfigSync(w, env) {
      ConfigSyncIsConfigGuarded(w, env);
    } else {
      OtherStagesLeaveTheCms(w, env);
    }
  }

  /** The log only grows and its verdicts stand, so what was applied stays applied. */
  ghost predicate LogExtends(w: World, w': World) {
    && |w.cms| <= |w'.cms|
    && w.Generation() <= w'.Generation()
    && (forall g :: 1 <= g <= w.Generation() ==> w'.ConfigAt(g) == w.ConfigAt(g))
    && forall i :: 0 <= i < |w.cms| ==>
         && w'.cms[i].generation == w.cms[i].generation && w'.cms[i].config == w.cms[i].config
         && (w.cms[i].result.Finished? ==> w'.cms[i].result == w.cms[i].result)
  }

  lemma AppliedStays(w: World, w': World, g: nat)
    requires LogFaithful(w) && LogExtends(w, w') && Applied(w, g)
    ensures Applied(w', g)
  {
    var i :| 0 <= i < |w.cms| && w.cms[i].generation == g && w.cms[i].config == w.ConfigAt(g)
      && Accepted(w.cms[i].result);
    assert w'.cms[i].generation == g && Accepted(w'.cms[i].result);
  }

  /** The conditions and the CMS keep agreeing when the log grows and the two conditions change only as guarded. */
  lemma ConfigKeepsAgreeing(w: World, p: Plan, w': World)
    requires LogFaithful(w) && GenerationsBounded(w) && ConfigAgrees(w) && ConfigGuarded(w, p)
    requires LogExtends(w, w') && w'.past == w.past && w'.spec == w.spec && w'.cms == p.cms
    requires forall kind :: kind == ReplaceConfigOperation || kind == ConfigurationSynced ==>
               || Find(w'.status.conditions, kind) == Find(w.status.conditions, kind)
               || (p.put.Some? && p.put.value.condition.kind == kind
                   && Find(w'.status.conditions, kind) == Some(p.put.value.condition))
    ensures ConfigAgrees(w')
  {
    forall g | Applied(w, g) ensures Applied(w', g) { AppliedStays(w, w', g); }
    assert Find(w'.status.conditions, ReplaceConfigOperation) == Find(w'.status.conditions, ReplaceConfigOperation);
    if p.put.Some? && p.put.value.condition.status.True? && p.put.value.condition.kind.ReplaceConfigOperation? {
      assert Applied(w', p.put.value.condition.observedGeneration) by {
        var g := p.put.value.condition.observedGeneration;
        var i :| 0 <= i < |p.cms| && p.cms[i].generation == g && p.cms[i].config == w.ConfigAt(g)
          && Accepted(p.cms[i].result);
        assert w'.cms[i] == p.cms[i];
      }
    }
  }

  lemma PassExtendsLog(w: World, env: PassEnv)
    requires LogFaithful(w) && ConfigGuarded(w, Decide(w, env))
    ensures LogExtends(w, After(w, Pass(w, env))) && LogFaithful(After(w, Pass(w, env)))
  {
  }

  lemma PassKeepsInv(w: World, env: PassEnv)
    requires Inv(w)
    ensures Inv(After(w, Pass(w, env)))
  {
    var p := Decide(w, env);
    PutIsGuarded(w, env);
    PutIsConfigGuarded(w, env);
    CommitKeepsStages(w, env, p);
    CommitKeepsGenerations(w, env, p);
    PassExtendsLog(w, env);
    var w' := After(w, Commit(w, env, p));
    if p.put.Some? {
      NewStatusFinds(w, p.put.value, ReplaceConfigOperation);
      NewStatusFinds(w, p.put.value, ConfigurationSynced);
    }
    ConfigKeepsAgreeing(w, p, w');
  }

  lemma EnvironmentExtendsLog(w: World, e: Event)
    requires LogFaithful(w) && !e.Reconcile?
    ensures LogExtends(w, Step(w, e)) && LogFaithful(Step(w, e))
  {
  }

  lemma EnvironmentKeepsInv(w: World, e: Event)
    requires Inv(w) && !e.Reconcile?
    ensures Inv(Step(w, e))
  {
    var w' := Step(w, e);
    EnvironmentExtendsLog(w, e);
    forall g | Applied(w, g) ensures Applied(w', g) { AppliedStays(w, w', g); }
  }

  // ----- Whole runs -----

  lemma {:induction false} InvHolds(w: World, events: seq<Event>)
    requires Initial(w)
    ensures Inv(Run(w, events))
    decreases |events|
  {
    if events != [] {
      var before, e := events[..|events| - 1], events[|events| - 1];
      InvHolds(w, before);
      if e.Reconcile? { PassKeepsInv(Run(w, before), e.env); } else { EnvironmentKeepsInv(Run(w, before), e); }
    }
  }

  /** The pass that turns the Initialized condition true, and what it had to go by. */
  predicate TurnsInitialized(w: World, events: seq<Event>, k: nat)
    requires k < |events|
  {
    && events[k].Reconcile? && Justified(Run(w, events[..k]), events[k].env)
    && !Initialized(Run(w, events[..k])) && Initialized(Step(Run(w, events[..k]), events[k]))
  }

  /** A pass moves the state along the edges, and never empties the list. */
  lemma PassMoves(w: World, env: PassEnv)
    ensures var after := After(w, Pass(w, env));
            && Move(w.status.state, after.status.state)
            && (w.status.conditions != [] ==> after.status.conditions != [])
  {
    PutIsGuarded(w, env);
    var p := Decide(w, env);
    if p.put.Some? { NewStatusFinds(w, p.put.value, p.put.value.condition.kind); }
  }

  lemma LastPassTurns(w: World, events: seq<Event>)
    requires Initial(w) && events != []
    ensures !Initialized(Run(w, events[..|events| - 1])) && Initialized(Run(w, events)) ==>
              TurnsInitialized(w, events, |events| - 1)
  {
    var n := |events| - 1;
    InvHolds(w, events[..n]);
    if !Initialized(Run(w, events[..n])) {
      NewlyInitializedIsJustified(Run(w, events[..n]), events[n]);
    }
  }

  lemma TurningStays(w: World, events: seq<Event>, n: nat, k: nat)
    requires k < n <= |events|
    ensures TurnsInitialized(w, events[..n], k) ==> TurnsInitialized(w, events, k)
  {
    assert events[..n][..k] == events[..k];
  }

  /** Initialization safety: a Storage is called initialized only from a pass on at which the skip
      annotation was set, the initialization Job had succeeded, or a failed pod of it reported that the
      storage already was. The backward-compatible shortcut, which trusts the condition that today means
      readiness, never decides it. */
  lemma {:induction false} InitializedOnlyWithGrounds(w: World, events: seq<Event>)
    requires Initial(w)
    ensures Initialized(Run(w, events)) ==> exists k :: 0 <= k < |events| && TurnsInitialized(w, events, k)
    decreases |events|
  {
    if events != [] && Initialized(Run(w, events)) {
      var n := |events| - 1;
      if Initialized(Run(w, events[..n])) {
        InitializedOnlyWithGrounds(w, events[..n]);
        var k :| 0 <= k < n && TurnsInitialized(w, events[..n], k);
        TurningStays(w, events, n, k);
      } else {
        LastPassTurns(w, events);
      }
    }
  }

  lemma NewlyInitializedIsJustified(w: World, e: Event)
    requires Inv(w) && !Initialized(w)
    ensures Initialized(Step(w, e)) ==> e.Reconcile? && Justified(w, e.env)
  {
    if e.Reconcile? && Decide(w, e.env).put.Some? {
      PutIsGuarded(w, e.env);
      NewStatusFinds(w, Decide(w, e.env).put.value, StorageInitialized);
    }
  }

  /** The state machine: whatever happens, the state moves along
      Pending, Preparing, Initializing, Provisioning, then Ready or Paused and between those two;
      initialization is never taken back; and every state past it implies it. */
  lemma StateMachine(w: World, events: seq<Event>, e: Event)
    requires Initial(w)
    ensures var before, after := Run(w, events), Run(w, events + [e]);
            && Move(before.status.state, after.status.state)
            && (Initialized(before) ==> Initialized(after))
            && (PastInitialization(after.status.state) ==> Initialized(after))
            && (e.Reconcile? || after.status == before.status)
  {
    assert (events + [e])[..|events|] == events;
    var v := Run(w, events);
    InvHolds(w, events);
    InvHolds(w, events + [e]);
    if e.Reconcile? {
      PutIsGuarded(v, e.env);
      CommitKeepsStages(v, e.env, Decide(v, e.env));
    }
  }

  /** Config protocol, the conditions: in every reachable world a completed ConfigurationSynced at
      generation g stands next to a true ReplaceConfigOperation at g, and a true
      ReplaceConfigOperation at g means the CMS finished, with success, an operation submitted with
      the configuration of generation g. */
  lemma ConfigConditionsAreTruthful(w: World, events: seq<Event>, g: nat)
    requires Initial(w)
    ensures var v := Run(w, events);
            var synced := Find(v.status.conditions, ConfigurationSynced);
            && (IsAt(v.status.conditions, ConfigurationSynced, True, g) && synced.value.reason.Completed? ==>
                  IsAt(v.status.conditions, ReplaceConfigOperation, True, g))
            && (IsAt(v.status.conditions, ReplaceConfigOperation, True, g) ==> Applied(v, g))
  {
    InvHolds(w, events);
  }

  /** Config protocol, the requests: a pass submits at most one request, with the configuration of
      the current generation, and only while no operation of that generation is recorded as running. */
  lemma SubmissionsAreGuarded(w: World, env: PassEnv, i: nat)
    requires i < |Pass(w, env).actions| && Pass(w, env).actions[i].SubmitConfig?
    ensures Pass(w, env).actions[i] == SubmitConfig(w.Generation(), w.spec.config)
    ensures !Polling(w) && !Is(w.status.conditions, ConfigurationSynced, True) && Initialized(w)
    ensures forall j :: 0 <= j < |Pass(w, env).actions| && Pass(w, env).actions[j].SubmitConfig? ==> j == i
  {
    var p := Decide(w, env);
    assert Pass(w, env).actions[i] == p.actions[i];
    if !ReachesConfigSync(w, env) {
      OtherStagesLeaveTheCms(w, env);
    } else {
      assert p == DecideConfigSync(w, env);
      ConfigSyncActions(w, env);
    }
  }

  lemma ConfigSyncActions(w: World, env: PassEnv)
    ensures var p := DecideConfigSync(w, env);
            || p.actions == [SyncResources]
            || (p.actions == [SyncResources, SubmitConfig(w.Generation(), w.spec.config)] && !Polling(w))
  {
  }

  /** No pass moves the state past Initializing, or between Ready and Paused, unless the
      configuration of the current generation is synchronized. */
  lemma NoMoveBeforeConfigSynced(w: World, events: seq<Event>, env: PassEnv)
    requires Initial(w)
    ensures var before, after := Run(w, events), Run(w, events + [Reconcile(env)]);
            after.status.state != before.status.state && PastInitialization(after.status.state)
            ==> IsAt(after.status.conditions, ConfigurationSynced, True, after.Generation())
  {
    var v := Run(w, events);
    assert (events + [Reconcile(env)])[..|events|] == events;
    InvHolds(w, events);
    PutIsGuarded(v, env);
    var p := Decide(v, env);
    if p.put.Some? && PastInitialization(p.put.value.state) && p.put.value.state != v.status.state {
      NewStatusFinds(v, p.put.value, ConfigurationSynced);
      MovesPutAnotherStage(v, env);
    }
  }

  lemma MovesPutAnotherStage(w: World, env: PassEnv)
    requires var p := Decide(w, env);
             p.put.Some? && PastInitialization(p.put.value.state) && p.put.value.state != w.status.state
    requires Guarded(w, env, Decide(w, env))
    ensures !Decide(w, env).put.value.condition.kind.ConfigurationSynced?
  {
    PauseLeavesTheCms(w);
  }

  // ----- Readiness is honest -----

  /** Readiness, or the pause if that is asked for, is not reported next to an unmet stage. */
  predicate Honest(w: World) {
    Unmet(STORAGE_STAGES, w.status.conditions) ==>
      !Is(w.status.conditions, if w.spec.pause then StoragePaused else StorageReady, True)
  }

  lemma PassIsHonest(w: World, env: PassEnv)
    requires Honest(w)
    ensures Honest(After(w, Pass(w, env)))
  {
    var p := Decide(w, env);
    if p.put.Some? {
      UnmetTakesBack(STORAGE_STAGES, w.spec.pause, w.Generation(), w.status.conditions, p.put.value);
    }
  }

  lemma StepIsHonest(w: World, e: Event)
    requires Honest(w) && (e.EditSpec? ==> e.spec.pause == w.spec.pause)
    ensures Honest(Step(w, e)) && Step(w, e).spec.pause == w.spec.pause
  {
    if e.Reconcile? { PassIsHonest(w, e.env); }
  }

  /** In every run in which the Storage is neither paused nor resumed, readiness, or the pause, is never
      reported true while a stage is reported unmet. */
  lemma {:induction false} ReadinessIsHonest(w: World, events: seq<Event>)
    requires Initial(w)
    requires forall i :: 0 <= i < |events| && events[i].EditSpec? ==> events[i].spec.pause == w.spec.pause
    ensures Honest(Run(w, events)) && Run(w, events).spec.pause == w.spec.pause
    decreases |events|
  {
    if events != [] {
      ReadinessIsHonest(w, events[..|events| - 1]);
      StepIsHonest(Run(w, events[..|events| - 1]), events[|events| - 1]);
    }
  }

  /** Readiness is only reported in the state Ready, and the pause only in the state Paused. */
  predicate InItsState(w: World) {
    && (Is(w.status.conditions, StorageReady, True) ==> w.status.state.Ready?)
    && (Is(w.status.conditions, StoragePaused, True) ==> w.status.state.Paused?)
  }

  /** What a plan does to readiness and the pause, with the state they are reported of. */
  predicate PutsInItsState(w: World, p: Plan) {
    p.put.Some? ==>
      var Put(state, c) := p.put.value;
      && (c.kind.StorageReady? ==> (c.status.True? ==> state.Ready?))
      && (c.kind.StoragePaused? ==> (c.status.True? ==> state.Paused?))
      && (w.status.state.Ready? && !state.Ready? ==> c.kind.StorageReady? && !c.status.True?)
      && (w.status.state.Paused? && !state.Paused? ==> c.kind.StoragePaused? && !c.status.True?)
  }

  lemma EarlyPutsInItsState(w: World, env: PassEnv)
    requires !PastInitialization(w.status.state)
    ensures PutsInItsState(w, DecideInitialization(w, env))
    ensures PutsInItsState(w, DecideConfigStart(w, env)) && PutsInItsState(w, DecideConfigSync(w, env))
  {
  }

  lemma LatePutsInItsState(w: World, env: PassEnv)
    requires PastInitialization(w.status.state)
    ensures PutsInItsState(w, DecideInitialization(w, env)) && PutsInItsState(w, DecidePause(w))
    ensures PutsInItsState(w, DecideConfigStart(w, env)) && PutsInItsState(w, DecideConfigSync(w, env))
  {
  }

  /** Before it is past its initialization, a Storage gets no further than Provisioning. */
  lemma DecisionInItsState(w: World, env: PassEnv)
    requires StagesAgree(w) && InItsState(w)
    ensures PutsInItsState(w, Decide(w, env))
  {
    var cs := w.status.conditions;
    if PastInitialization(w.status.state) { LatePutsInItsState(w, env); } else { EarlyPutsInItsState(w, env); }
    if cs == [] || w.status.state.Pending? || !w.spec.operatorSync {
    } else if !env.resourcesOk || !env.nodeSetsPrunedOk || !Is(cs, StoragePrepared, True) {
    } else if !Initialized(w) {
    } else if ConfigStale(w) || !Is(cs, ConfigurationSynced, True) {
    } else if !PastInitialization(w.status.state) {
    }
  }

  lemma PassInItsState(w: World, env: PassEnv)
    requires StagesAgree(w) && InItsState(w)
    ensures InItsState(After(w, Pass(w, env)))
  {
    var p := Decide(w, env);
    DecisionInItsState(w, env);
    if p.put.Some? {
      NewStatusFinds(w, p.put.value, StorageReady);
      NewStatusFinds(w, p.put.value, StoragePaused);
    }
  }

  /** In every run, StorageReady is true only in the state Ready and StoragePaused only in the state Paused:
      moving between the two takes the one left back. */
  lemma {:induction false} OneOfTheTwo(w: World, events: seq<Event>)
    requires Initial(w)
    ensures InItsState(Run(w, events))
    decreases |events|
  {
    if events != [] {
      var v, e := Run(w, events[..|events| - 1]), events[|events| - 1];
      OneOfTheTwo(w, events[..|events| - 1]);
      InvHolds(w, events[..|events| - 1]);
      StepInItsState(v, e);
    }
  }

  lemma StepInItsState(w: World, e: Event)
    requires Inv(w) && InItsState(w)
    ensures InItsState(Step(w, e))
  {
    if e.Reconcile? { PassInItsState(w, e.env); }
  }

  /** A pass persists at most one status, and changes nothing after persisting it. */
  lemma StatusWriteIsLast(w: World, env: PassEnv)
    ensures var o := Pass(w, env);
            forall i :: 0 <= i < |o.actions| && o.actions[i].WriteStatus?
              ==> i == |o.actions| - 1 && o.actions[i].status == o.status
  {
    var p := Decide(w, env);
    if ReachesConfigSync(w, env) {
      assert p == DecideConfigSync(w, env);
      ConfigSyncActions(w, env);
    } else {
      OtherStagesLeaveTheCms(w, env);
    }
    assert forall i :: 0 <= i < |p.actions| ==> p.actions[i] in p.actions;
  }
}
