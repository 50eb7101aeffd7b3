/** Progress of a Database whose spec stays put and whose environment is healthy: it is ready, or paused if
    asked to be, after boundedly many rounds, exactly if its spec says what its tenant is made of. */
module DatabaseProgress {
  import opened Wrappers
  import opened Conditions
  import opened Cms
  import opened Stages
  import opened Scaling
  import opened DatabaseModel
  import Tenant = TenantSafety
  import Wait = DatabaseWait

  /** Every call succeeds and all nodes run. */
  predicate Healthy(spec: DatabaseSpec, env: PassEnv) {
    && Tenant.Healthy(env)
    && ((spec.serverless && spec.nodeSets.None?)
        || AllRun(spec.nodes, spec.nodeSets, env.statefulSet, env.nodeSets))
  }

  /** The spec has one of the three sections that describe the resources of the tenant. */
  predicate Described(spec: DatabaseSpec) { spec.dedicated || spec.shared || spec.serverless }

  predicate Done(w: World) {
    var cs := w.status.conditions;
    && w.status.state == (if w.spec.pause then Paused else Ready)
    && Is(cs, DatabasePrepared, True) && Is(cs, DatabaseInitialized, True)
    && (Wait.HasNodes(w) ==> Is(cs, DatabaseProvisioned, True)) && Is(cs, Wait.Goal(w), True)
  }

  function StateRank(s: ClusterState, pause: bool): nat {
    match s
    case Pending => 80
    case Preparing => 60
    case Initializing => 40
    case Provisioning => 20
    case Paused => if pause then 0 else 20
    case Ready => if pause then 20 else 0
  }

  function Lacks(w: World, kind: ConditionType, weight: nat): nat {
    if Is(w.status.conditions, kind, True) then 0 else weight
  }

  function Rank(w: World): nat {
    (if w.status.conditions == [] then 1 else 0) + StateRank(w.status.state, w.spec.pause)
    + Lacks(w, DatabasePrepared, 2) + 2 * Tenant.TenantRank(w)
    + (if Wait.HasNodes(w) then Lacks(w, DatabaseProvisioned, 2) else 0) + Lacks(w, Wait.Goal(w), 1)
  }

  /** The conditions the rank reads, before and after a pass: one is put, the goal may be taken back. */
  predicate Puts(w: World, v: World, state: ClusterState, c: Condition) {
    && v.status.conditions != [] && v.status.state == state && v.spec == w.spec
    && (forall kind :: kind in {DatabasePrepared, DatabaseInitialized, DatabaseProvisioned, CreateDatabaseOperation} ==>
          Find(v.status.conditions, kind) == if kind == c.kind then Some(c) else Find(w.status.conditions, kind))
  }

  lemma PlainCommit(w: World, env: PassEnv, p: Plan)
    requires p.put.Some? && p.also.None? && env.statusWritten
    ensures Puts(w, After(w, Commit(w, env, p)), p.put.value.state, p.put.value.condition)
    ensures After(w, Commit(w, env, p)).cms == p.cms
  {
    var put := p.put.value;
    forall kind | kind in {DatabasePrepared, DatabaseInitialized, DatabaseProvisioned, CreateDatabaseOperation}
      ensures Find(NewStatus(w, p).conditions, kind)
           == if kind == put.condition.kind then Some(put.condition) else Find(w.status.conditions, kind)
    {
      Tenant.NewStatusFinds(w, p, kind);
    }
  }

  /** The goal, once put with every stage met, stands. */
  lemma GoalStands(w: World, env: PassEnv, p: Plan)
    requires p.put.Some? && p.also.None? && env.statusWritten && p.put.value.condition.kind == Wait.Goal(w)
    requires !Unmet(DATABASE_STAGES, w.status.conditions)
    ensures Find(After(w, Commit(w, env, p)).status.conditions, Wait.Goal(w)) == Some(p.put.value.condition)
  {
    UnmetTakesBack(DATABASE_STAGES, w.spec.pause, w.generation, w.status.conditions, p.put.value);
  }

  // ----- Each pass -----

  /** A step in the right direction outside the tenant stage. */
  predicate Forward(w: World, p: Plan) {
    && p.put.Some? && p.also.None? && p.cms == w.cms
    && var Put(state, c) := p.put.value;
       if w.status.conditions == [] then c.kind == Wait.Goal(w) && state == w.status.state
       else if state != w.status.state then
         && StateRank(state, w.spec.pause) + 20 <= StateRank(w.status.state, w.spec.pause)
         && c.kind in {DatabasePrepared, DatabaseInitialized, DatabaseProvisioned, DatabaseReady, DatabasePaused}
         && (c.kind.DatabaseInitialized? ==> !Tenant.Initialized(w) && !c.status.True?)
       else
         && c.status.True? && !Is(w.status.conditions, c.kind, True)
         && (|| c.kind.DatabasePrepared? || (c.kind.DatabaseProvisioned? && Wait.HasNodes(w))
             || (c.kind == Wait.Goal(w) && !Unmet(DATABASE_STAGES, w.status.conditions)))
  }

  lemma ForwardDescends(w: World, env: PassEnv, p: Plan)
    requires Forward(w, p) && env.statusWritten
    ensures Rank(After(w, Commit(w, env, p))) < Rank(w)
  {
    PlainCommit(w, env, p);
    if p.put.value.condition.kind == Wait.Goal(w) && p.put.value.state == w.status.state && w.status.conditions != [] {
      GoalStands(w, env, p);
    }
    RankDrops(w, p, After(w, Commit(w, env, p)));
  }

  lemma RankDrops(w: World, p: Plan, v: World)
    requires Forward(w, p) && Puts(w, v, p.put.value.state, p.put.value.condition) && v.cms == w.cms
    requires w.status.conditions != [] && p.put.value.state == w.status.state ==>
               (p.put.value.condition.kind == Wait.Goal(w) ==> Is(v.status.conditions, Wait.Goal(w), True))
    ensures Rank(v) < Rank(w)
  {
    assert Tenant.TenantRank(v) == Tenant.TenantRank(w);
    assert w.status.conditions == [] ==> !Is(w.status.conditions, DatabaseProvisioned, True);
  }

  /** The pass gets to decide about the tenant itself. */
  predicate AtTheTenant(w: World) {
    && w.status.conditions != [] && !w.status.state.Pending? && !w.status.state.Preparing?
    && w.spec.operatorSync && Is(w.status.conditions, DatabasePrepared, True) && !Tenant.Initialized(w)
  }

  lemma TenantLeaves(w: World, env: PassEnv)
    requires AtTheTenant(w) && Tenant.Healthy(env)
    ensures var v := After(w, Pass(w, env));
            && v.status.state == w.status.state && v.status.conditions != [] && v.spec == w.spec
            && Find(v.status.conditions, DatabasePrepared) == Find(w.status.conditions, DatabasePrepared)
            && Find(v.status.conditions, DatabaseProvisioned) == Find(w.status.conditions, DatabaseProvisioned)
  {
    var p := Decide(w, env);
    assert p == DecideTenant(w, env);
    Wait.TenantPutsOther(w, env);
    TenantKeepsState(w, env);
    if p.put.Some? {
      Tenant.NewStatusFinds(w, p, DatabasePrepared);
      Tenant.NewStatusFinds(w, p, DatabaseProvisioned);
    }
  }

  lemma TenantKeepsState(w: World, env: PassEnv)
    requires !w.status.state.Preparing?
    ensures var p := DecideTenant(w, env);
            p.put.Some? ==> p.put.value.state == w.status.state
                            && p.put.value.condition.kind in {DatabaseInitialized, CreateDatabaseOperation}
  {
  }

  lemma TenantDescends(w: World, env: PassEnv)
    requires AtTheTenant(w) && Described(w.spec) && Tenant.Healthy(env)
    requires forall i :: 0 <= i < |w.cms| ==> w.cms[i].result.Finished?
    ensures Rank(After(w, Pass(w, env))) < Rank(w)
  {
    TenantLeaves(w, env);
    Tenant.SettledPassDescends(w, env);
  }

  /** Without a description only the annotation or an older release's condition completes the tenant. */
  lemma SkipDescends(w: World, env: PassEnv)
    requires AtTheTenant(w) && Tenant.Skips(w) && Tenant.Healthy(env)
    ensures Rank(After(w, Pass(w, env))) < Rank(w)
  {
    TenantLeaves(w, env);
    assert Decide(w, env) == CompleteTenant(w, Hold(w, [SyncResources]));
    Tenant.CompletionLands(w, env, Decide(w, env));
  }

  // ----- What keeps a Database from ever being done -----

  /** Nothing will ever call the tenant created. */
  predicate NoGround(w: World) { !Tenant.Initialized(w) && !Tenant.Skips(w) && !Described(w.spec) }

  predicate PastInitialization(s: ClusterState) { s.Provisioning? || s.Ready? || s.Paused? }

  /** A lag was reported before the Database became one without nodes of its own: nothing takes that back. */
  predicate LeftBehind(w: World) {
    !Wait.HasNodes(w) && Is(w.status.conditions, DatabaseProvisioned, False) && PastInitialization(w.status.state)
  }

  predicate Blocked(w: World) { !Done(w) && (NoGround(w) || LeftBehind(w)) }

  lemma PauseIsForward(w: World)
    requires !Done(w) && PastInitialization(w.status.state) && !LeftBehind(w)
    requires Is(w.status.conditions, DatabasePrepared, True) && Tenant.Initialized(w)
    requires Wait.HasNodes(w) ==> Is(w.status.conditions, DatabaseProvisioned, True)
    ensures Forward(w, DecidePause(w))
  {
    var cs := w.status.conditions;
    assert cs != [];
    assert !Unmet(DATABASE_STAGES, cs);
  }

  lemma WaitIsForward(w: World, env: PassEnv)
    requires Wait.TenantDone(w, env) && PastInitialization(w.status.state) && Healthy(w.spec, env)
    requires !Done(w) && !LeftBehind(w)
    ensures Forward(w, Decide(w, env))
  {
    Wait.ScaledMeans(w, env);
    if !Wait.HasNodes(w) || Is(w.status.conditions, DatabaseProvisioned, True) { PauseIsForward(w); }
  }

  /** The tenant is only completed past the preparation; every pass keeps this. */
  predicate Staged(w: World) { w.status.state.Pending? || w.status.state.Preparing? ==> !Tenant.Initialized(w) }

  lemma EarlyIsForward(w: World, env: PassEnv)
    requires w.spec.operatorSync && Healthy(w.spec, env) && Staged(w) && !AtTheTenant(w)
    requires !(Is(w.status.conditions, DatabasePrepared, True) && PastInitialization(w.status.state))
    ensures Forward(w, Decide(w, env))
  {
  }

  /** A healthy pass over a Database that is neither done nor blocked strictly lowers the rank. */
  lemma HealthyPassDescends(w: World, env: PassEnv)
    requires w.spec.operatorSync && Healthy(w.spec, env) && Staged(w) && !Done(w) && !Blocked(w)
    requires forall i :: 0 <= i < |w.cms| ==> w.cms[i].result.Finished?
    ensures Rank(After(w, Pass(w, env))) < Rank(w)
  {
    if AtTheTenant(w) {
      if Tenant.Skips(w) { SkipDescends(w, env); } else { TenantDescends(w, env); }
    } else {
      if Is(w.status.conditions, DatabasePrepared, True) && PastInitialization(w.status.state) {
        WaitIsForward(w, env);
      } else {
        EarlyIsForward(w, env);
      }
      ForwardDescends(w, env, Decide(w, env));
    }
  }

  lemma DoneIsFinal(w: World, env: PassEnv)
    requires w.spec.operatorSync && Healthy(w.spec, env) && Done(w)
    ensures Pass(w, env) == Outcome(w.status, w.cms, [SyncResources])
  {
    Wait.ScaledMeans(w, env);
    assert Decide(w, env) == DecidePause(w);
  }

  // ----- What passes keep -----

  /** The plans that move the state or touch what the predicates above read. */
  predicate Keeps(w: World, p: Plan) {
    && (p.also.Some? ==> p.also.value.kind.CreateDatabaseOperation?)
    && (p.put.Some? ==>
          var Put(state, c) := p.put.value;
          && !c.kind.TenantInitialized?
          && (c.kind.DatabaseInitialized? ==>
                !Tenant.Initialized(w) && (c.status.True? ==> !w.status.state.Preparing? && !w.status.state.Pending?
                                                              && (Described(w.spec) || Tenant.Skips(w))))
          && (state == w.status.state || (state.Preparing? && w.status.state.Pending?)
              || (state.Initializing? && w.status.state.Preparing?)
              || (state.Provisioning? && w.status.state.Initializing? && c.kind.DatabaseProvisioned?)
              || (PastInitialization(state) && PastInitialization(w.status.state)))
          && (c.kind.DatabaseProvisioned? && c.status.False? ==> Wait.HasNodes(w))
          && (c.kind.DatabaseProvisioned? && !Wait.HasNodes(w) ==> !PastInitialization(w.status.state)))
  }

  lemma TenantKeeps(w: World, env: PassEnv)
    requires Tenant.ReachesTenant(w, env)
    ensures Keeps(w, DecideTenant(w, env))
  {
  }

  lemma PauseKeeps(w: World)
    ensures Keeps(w, DecidePause(w))
  {
  }

  lemma DecisionKeeps(w: World, env: PassEnv)
    ensures Keeps(w, Decide(w, env))
  {
    if Tenant.ReachesTenant(w, env) {
      TenantKeeps(w, env);
    } else {
      PauseKeeps(w);
    }
  }

  lemma FoundKeeps(w: World, p: Plan, v: World)
    requires Keeps(w, p) && Staged(w) && p.put.Some?
    requires v.spec == w.spec && v.skipInit == w.skipInit && v.status.state == p.put.value.state
    requires forall kind :: kind in {DatabaseInitialized, TenantInitialized, DatabaseProvisioned} ==>
               Find(v.status.conditions, kind)
                 == if p.put.value.condition.kind == kind then Some(p.put.value.condition)
                    else Find(w.status.conditions, kind)
    ensures Staged(v) && NoGround(v) == NoGround(w) && LeftBehind(v) == LeftBehind(w)
  {
  }

  lemma PassKeeps(w: World, env: PassEnv)
    requires Staged(w)
    ensures var v := After(w, Pass(w, env));
            && v.spec == w.spec && Staged(v) && NoGround(v) == NoGround(w) && LeftBehind(v) == LeftBehind(w)
  {
    var p := Decide(w, env);
    DecisionKeeps(w, env);
    if p.put.Some? && env.statusWritten {
      Tenant.NewStatusFinds(w, p, DatabaseInitialized);
      Tenant.NewStatusFinds(w, p, TenantInitialized);
      Tenant.NewStatusFinds(w, p, DatabaseProvisioned);
      FoundKeeps(w, p, After(w, Commit(w, env, p)));
    }
  }

  /** With the lag still reported, every write takes readiness, or the pause, back. */
  lemma LagDemotes(w: World, p: Plan)
    requires p.put.Some? && Is(NewStatus(w, p).conditions, DatabaseProvisioned, False)
    ensures Is(NewStatus(w, p).conditions, Wait.Goal(w), False)
  {
    var cs, put := w.status.conditions, p.put.value;
    if p.also.None? {
      UnmetTakesBack(DATABASE_STAGES, w.spec.pause, w.generation, cs, put);
    } else {
      UnmetTakesBack(DATABASE_STAGES, w.spec.pause, w.generation, SetStatusCondition(cs, put.condition),
                     Put(put.state, p.also.value));
    }
  }

  lemma BlockedStays(w: World, env: PassEnv)
    requires Staged(w) && Blocked(w)
    ensures Blocked(After(w, Pass(w, env)))
  {
    var p := Decide(w, env);
    PassKeeps(w, env);
    if LeftBehind(w) && p.put.Some? && env.statusWritten { LagDemotes(w, p); }
  }

  // ----- Rounds -----

  function Rounds(w: World, envs: seq<PassEnv>): World
    decreases |envs|
  {
    if envs == [] then w else Rounds(Tenant.Round(w, envs[0]), envs[1..])
  }

  lemma SettleKeeps(w: World)
    ensures var v := Tenant.Settle(w);
            && v.spec == w.spec && v.status == w.status && v.skipInit == w.skipInit
            && Rank(v) == Rank(w) && Done(v) == Done(w) && Blocked(v) == Blocked(w) && Staged(v) == Staged(w)
            && forall i :: 0 <= i < |v.cms| ==> v.cms[i].result.Finished?
  {
    Tenant.SettleRanks(w);
  }

  /** Bounded progress, both ways: after as many healthy rounds as its rank, a Database is Ready, or Paused if
      asked to be, with every stage met, if and only if its spec, an annotation or an older release says
      where its tenant comes from and no lag was left behind when it lost its own nodes. A failed creation
      of the tenant does not matter. */
  lemma {:induction false} HealthyRoundsFinish(w: World, envs: seq<PassEnv>)
    requires w.spec.operatorSync && Staged(w) && Rank(w) <= |envs|
    requires forall env :: env in envs ==> Healthy(w.spec, env)
    ensures Done(Rounds(w, envs)) <==> !Blocked(w)
    decreases |envs|
  {
    if envs != [] {
      var s, env := Tenant.Settle(w), envs[0];
      var next := Tenant.Round(w, env);
      SettleKeeps(w);
      PassKeeps(s, env);
      if Done(w) {
        DoneIsFinal(s, env);
        DoneStays(next, envs[1..]);
      } else if Blocked(w) {
        BlockedStays(s, env);
        BlockedNeverFinishes(next, envs[1..]);
      } else {
        HealthyPassDescends(s, env);
        HealthyRoundsFinish(next, envs[1..]);
      }
    }
  }

  lemma {:induction false} DoneStays(w: World, envs: seq<PassEnv>)
    requires w.spec.operatorSync && Done(w)
    requires forall env :: env in envs ==> Healthy(w.spec, env)
    ensures Done(Rounds(w, envs))
    decreases |envs|
  {
    if envs != [] {
      SettleKeeps(w);
      DoneIsFinal(Tenant.Settle(w), envs[0]);
      DoneStays(Tenant.Round(w, envs[0]), envs[1..]);
    }
  }

  lemma {:induction false} BlockedNeverFinishes(w: World, envs: seq<PassEnv>)
    requires Staged(w) && Blocked(w)
    ensures !Done(Rounds(w, envs))
    decreases |envs|
  {
    if envs != [] {
      SettleKeeps(w);
      PassKeeps(Tenant.Settle(w), envs[0]);
      BlockedStays(Tenant.Settle(w), envs[0]);
      BlockedNeverFinishes(Tenant.Round(w, envs[0]), envs[1..]);
    }
  }

  /** Every run of a Database the operator has not worked on keeps the tenant past the preparation. */
  lemma {:induction false} StagedHolds(w: World, events: seq<Event>)
    requires Staged(w)
    ensures Staged(Run(w, events))
    decreases |events|
  {
    if events != [] {
      var v, e := Run(w, events[..|events| - 1]), events[|events| - 1];
      StagedHolds(w, events[..|events| - 1]);
      if e.Reconcile? { PassKeeps(v, e.env); }
    }
  }

  /** How it gets there: the nodes lag, and the next edit, which the webhooks accept, makes the Database a
      serverless one without node sets. */
  lemma LosingNodesWhileLagging(w: World, env: PassEnv)
    requires Wait.TenantDone(w, env) && PastInitialization(w.status.state) && Wait.HasNodes(w) && Wait.Lags(w, env)
    requires env.statusWritten && w.spec.domain != ""
    ensures var spec := w.spec.(dedicated := false, shared := false, serverless := true, nodeSets := None);
            var v := Step(Step(w, Reconcile(env)), EditSpec(spec));
            v.spec.serverless && v.spec.nodeSets.None? && Blocked(v)
  {
    Wait.WaitReports(w, env);
    PassKeeps(w, env);
    LosingNodes(Wait.Passed(w, env));
  }

  lemma LosingNodes(w: World)
    requires Wait.HasNodes(w) && PastInitialization(w.status.state) && w.spec.domain != ""
    requires Is(w.status.conditions, DatabaseProvisioned, False) && Is(w.status.conditions, Wait.Goal(w), False)
    ensures var spec := w.spec.(dedicated := false, shared := false, serverless := true, nodeSets := None);
            var v := Step(w, EditSpec(spec));
            v.spec.serverless && v.spec.nodeSets.None? && Blocked(v)
  {
  }
}
