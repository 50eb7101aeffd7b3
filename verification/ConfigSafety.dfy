/** When a Storage may call its configuration synchronized, in terms of what the passes of a run read. */
module ConfigSafety {
  import opened Wrappers
  import opened Conditions
  import opened StorageModel
  import opened StorageSafety

  function SyncOf(w: World): Option<Condition> { Find(w.status.conditions, ConfigurationSynced) }

  predicate SyncedAt(w: World, g: nat) { IsAt(w.status.conditions, ConfigurationSynced, True, g) }

  /** The pass gets as far as the start of the synchronization for a new generation. */
  predicate ComesToTheStart(w: World, env: PassEnv) {
    && w.status.conditions != [] && !w.status.state.Pending?
    && w.spec.operatorSync && env.resourcesOk && env.nodeSetsPrunedOk
    && Is(w.status.conditions, StoragePrepared, True) && Initialized(w)
    && (SyncOf(w).None? || SyncOf(w).value.observedGeneration < |w.past| + 1)
  }

  /** There it can report something: a static configuration at once, a dynamic one after asking the CMS. */
  predicate Answered(w: World, env: PassEnv) {
    env.statusWritten && (w.spec.config.Dynamic? ==> env.credentials && env.cmsVersion.Some?)
  }

  /** The CMS holds a later version than the configuration of the spec. */
  predicate ReadsLater(w: World, env: PassEnv) {
    w.spec.config.Dynamic? && env.cmsVersion.Some? && w.spec.config.version < env.cmsVersion.value
  }

  lemma PutIsFound(w: World, env: PassEnv)
    ensures var p := Decide(w, env);
            SyncOf(After(w, Pass(w, env)))
              == if p.put.Some? && env.statusWritten && p.put.value.condition.kind.ConfigurationSynced?
                 then Some(p.put.value.condition) else SyncOf(w)
  {
    var p := Decide(w, env);
    if p.put.Some? { NewStatusFinds(w, p.put.value, ConfigurationSynced); }
  }

  /** What a pass that starts the synchronization reports: nothing to do for a static configuration and
      for one the CMS holds a later version of, and otherwise that it is in progress. */
  lemma StartReports(w: World, env: PassEnv)
    requires ComesToTheStart(w, env)
    ensures SyncOf(After(w, Pass(w, env)))
         == if !Answered(w, env) then SyncOf(w)
            else if w.spec.config.Static? || ReadsLater(w, env)
            then Some(Condition(ConfigurationSynced, True, NotRequired, w.Generation(), Note))
            else Some(Condition(ConfigurationSynced, Unknown, InProgress, w.Generation(), Note))
  {
    PutIsFound(w, env);
    assert Decide(w, env) == DecideConfigStart(w, env);
  }

  /** No other pass changes a stale report. */
  lemma OnlyTheStartReports(w: World, env: PassEnv)
    requires ConfigStale(w) && !ComesToTheStart(w, env)
    ensures SyncOf(After(w, Pass(w, env))) == SyncOf(w)
  {
    PutIsFound(w, env);
    InitializationPutsOther(w, env);
  }

  lemma InitializationPutsOther(w: World, env: PassEnv)
    ensures var p := DecideInitialization(w, env);
            p.put.Some? ==> p.put.value.condition.kind.StorageInitialized?
  {
  }

  /** A pass that newly calls the configuration synchronized either starts, or completes, that. */
  lemma NewlySynced(w: World, env: PassEnv, g: nat)
    requires Inv(w)
    ensures var after := SyncOf(After(w, Pass(w, env)));
            SyncedAt(After(w, Pass(w, env)), g) && after != SyncOf(w)
            ==> || after.value.reason.Completed?
                || (g == w.Generation() && (w.spec.config.Static? || ReadsLater(w, env)))
    ensures var after := SyncOf(After(w, Pass(w, env)));
            after != SyncOf(w) ==> after.value.observedGeneration == w.Generation()
  {
    PutIsConfigGuarded(w, env);
    PutIsFound(w, env);
    if !ConfigStale(w) {
      LaterPutsComplete(w, env);
    } else if ComesToTheStart(w, env) {
      StartReports(w, env);
    } else {
      OnlyTheStartReports(w, env);
    }
  }

  lemma LaterPutsComplete(w: World, env: PassEnv)
    requires !ConfigStale(w)
    ensures var p := Decide(w, env);
            p.put.Some? && p.put.value.condition.kind.ConfigurationSynced? ==> p.put.value.condition.reason.Completed?
  {
    InitializationPutsOther(w, env);
    SyncPutsComplete(w, env);
    PauseLeavesTheCms(w);
  }

  lemma SyncPutsComplete(w: World, env: PassEnv)
    ensures var p := DecideConfigSync(w, env);
            p.put.Some? && p.put.value.condition.kind.ConfigurationSynced? ==> p.put.value.condition.reason.Completed?
  {
  }

  /** The k-th event of the run is a pass over that generation that reads a later version in the CMS. */
  predicate LaterRead(w: World, events: seq<Event>, k: nat, g: nat)
    requires k < |events|
  {
    && events[k].Reconcile? && Run(w, events[..k]).Generation() == g
    && ReadsLater(Run(w, events[..k]), events[k].env)
  }

  /** The grounds, spelled out: nothing to synchronize, an operation that succeeded, or a later version. */
  ghost predicate Grounds(w: World, events: seq<Event>, g: nat) {
    var v := Run(w, events);
    || v.ConfigAt(g).Static?
    || (SyncOf(v).Some? && SyncOf(v).value.reason.Completed? && Applied(v, g))
    || exists k :: 0 <= k < |events| && LaterRead(w, events, k, g)
  }

  lemma StepKeepsConfigs(w: World, e: Event)
    requires Inv(w)
    ensures w.Generation() <= Step(w, e).Generation()
    ensures forall g :: 1 <= g <= w.Generation() ==> Step(w, e).ConfigAt(g) == w.ConfigAt(g)
    ensures !e.Reconcile? ==> SyncOf(Step(w, e)) == SyncOf(w)
  {
  }

  lemma LaterReadStays(w: World, events: seq<Event>, n: nat, k: nat, g: nat)
    requires k < n <= |events|
    ensures LaterRead(w, events[..n], k, g) ==> LaterRead(w, events, k, g)
  {
    assert events[..n][..k] == events[..k];
  }

  lemma GroundsStay(w: World, events: seq<Event>, g: nat)
    requires Initial(w) && events != []
    ensures var before, after := Run(w, events[..|events| - 1]), Run(w, events);
            1 <= g <= before.Generation() && SyncedAt(before, g) && SyncOf(after) == SyncOf(before)
            && Grounds(w, events[..|events| - 1], g)
            ==> g <= after.Generation() && Grounds(w, events, g)
  {
    var n := |events| - 1;
    InvHolds(w, events[..n]);
    InvHolds(w, events);
    StepKeepsConfigs(Run(w, events[..n]), events[n]);
    if k :| 0 <= k < n && LaterRead(w, events[..n], k, g) { LaterReadStays(w, events, n, k, g); }
  }

  lemma NewGrounds(w: World, events: seq<Event>, g: nat)
    requires Initial(w) && events != []
    ensures var before, after := Run(w, events[..|events| - 1]), Run(w, events);
            SyncedAt(after, g) && SyncOf(after) != SyncOf(before)
            ==> 1 <= g <= after.Generation() && Grounds(w, events, g)
  {
    var n := |events| - 1;
    var before := Run(w, events[..n]);
    InvHolds(w, events[..n]);
    InvHolds(w, events);
    StepKeepsConfigs(before, events[n]);
    if SyncedAt(Run(w, events), g) && SyncOf(Run(w, events)) != SyncOf(before) {
      NewlySynced(before, events[n].env, g);
      if g == before.Generation() && ReadsLater(before, events[n].env) { assert LaterRead(w, events, n, g); }
    }
  }

  /** Config protocol, the start: in every run of a new Storage, its configuration is called synchronized
      at a generation only if that generation's configuration is static, or the CMS has finished, with
      success, an operation carrying it, or a pass over that very generation read a later version. */
  lemma {:induction false} SyncedOnlyWithGrounds(w: World, events: seq<Event>, g: nat)
    requires Initial(w)
    ensures SyncedAt(Run(w, events), g) ==> 1 <= g <= Run(w, events).Generation() && Grounds(w, events, g)
    decreases |events|
  {
    if events != [] {
      SyncedOnlyWithGrounds(w, events[..|events| - 1], g);
      GroundsStay(w, events, g);
      NewGrounds(w, events, g);
    }
  }
}
