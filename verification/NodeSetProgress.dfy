/** Progress of a StorageNodeSet whose spec stays put and whose calls succeed: it is ready, or paused if asked
    to be, exactly if its StatefulSet keeps running the number of nodes asked for. */
module NodeSetProgress {
  import opened Wrappers
  import opened Conditions
  import opened Stages
  import opened Scaling
  import opened NodeSetModel

  predicate Healthy(env: NodeSetEnv) { env.resourcesOk && env.statefulSetReadable && env.statusWritten }

  function Goal(n: NodeSet): ConditionType { if n.spec.pause then NodeSetPaused else NodeSetReady }

  predicate Done(n: NodeSet) {
    var cs := n.status.conditions;
    && n.status.state == (if n.spec.pause then Paused else Ready)
    && Is(cs, NodeSetPrepared, True) && Is(cs, NodeSetProvisioned, True) && Is(cs, Goal(n), True)
  }

  /** The ready replicas a pass finds after its resource sync. */
  function ReadyReplicas(n: NodeSet): int { if n.statefulSet.Some? then n.statefulSet.value.ready else 0 }

  /** A node set skips the state Initializing. */
  predicate Usual(n: NodeSet) { n.spec.operatorSync && !n.status.state.Initializing? }

  function StateRank(s: ClusterState, pause: bool): nat {
    match s
    case Pending => 60
    case Preparing => 40
    case Initializing => 40
    case Provisioning => 20
    case Paused => if pause then 0 else 20
    case Ready => if pause then 20 else 0
  }

  function Lacks(n: NodeSet, kind: ConditionType, weight: nat): nat {
    if Is(n.status.conditions, kind, True) then 0 else weight
  }

  function Rank(n: NodeSet): nat {
    (if n.status.conditions == [] then 1 else 0) + StateRank(n.status.state, n.spec.pause)
    + Lacks(n, NodeSetPrepared, 2) + Lacks(n, NodeSetProvisioned, 2) + Lacks(n, Goal(n), 1)
  }

  // ----- Each pass -----

  /** What a put leaves of the conditions the rank reads. */
  lemma PutLeaves(n: NodeSet, put: Put)
    ensures var cs := NewStatus(n, put).conditions;
            && cs != [] && NewStatus(n, put).state == put.state
            && Find(cs, NodeSetPrepared) == (if put.condition.kind.NodeSetPrepared? then Some(put.condition)
                                             else Find(n.status.conditions, NodeSetPrepared))
            && Find(cs, NodeSetProvisioned) == (if put.condition.kind.NodeSetProvisioned? then Some(put.condition)
                                                else Find(n.status.conditions, NodeSetProvisioned))
            && (Is(cs, NodeSetPrepared, False) || Is(cs, NodeSetProvisioned, False) ==> Is(cs, Goal(n), False))
            && (!Is(cs, NodeSetPrepared, False) && !Is(cs, NodeSetProvisioned, False) && put.condition.kind == Goal(n)
                ==> Find(cs, Goal(n)) == Some(put.condition))
  {
    UpdatedFinds(NODE_SET_STAGES, n.spec.pause, n.generation, n.status.conditions, put, NodeSetPrepared);
    CertificateAfter(n, put);
    UnmetTakesBack(NODE_SET_STAGES, n.spec.pause, n.generation, n.status.conditions, put);
  }

  /** A step in the right direction. */
  predicate Forward(n: NodeSet, put: Put) {
    var c := put.condition;
    if n.status.conditions == [] then c.kind == Goal(n) && put.state == n.status.state
    else if put.state != n.status.state then
      && StateRank(put.state, n.spec.pause) + 20 <= StateRank(n.status.state, n.spec.pause)
      && !put.state.Initializing?
    else
      && c.status.True? && !Is(n.status.conditions, c.kind, True)
      && (|| c.kind.NodeSetPrepared? || c.kind.NodeSetProvisioned?
          || (c.kind == Goal(n) && Is(n.status.conditions, NodeSetPrepared, True)
              && Is(n.status.conditions, NodeSetProvisioned, True)))
  }

  lemma ForwardDescends(n: NodeSet, put: Put, v: NodeSet)
    requires Forward(n, put) && v.spec == n.spec && v.status == NewStatus(n, put)
    ensures Rank(v) < Rank(n)
  {
    PutLeaves(n, put);
  }

  lemma PauseIsForward(n: NodeSet)
    requires Usual(n) && !Done(n) && !n.status.state.Pending? && !n.status.state.Preparing?
    requires Is(n.status.conditions, NodeSetPrepared, True) && Is(n.status.conditions, NodeSetProvisioned, True)
    ensures var put := PauseMove(NODE_SET_STAGES, n.spec.pause, n.generation, n.status);
            put.Some? && Forward(n, put.value)
  {
  }

  /** While the StatefulSet runs the nodes asked for, a healthy pass strictly lowers the rank. */
  lemma HealthyPassDescends(n: NodeSet, env: NodeSetEnv)
    requires Usual(n) && Healthy(env) && !Done(n) && ReadyReplicas(n) == n.spec.nodes
    ensures Rank(Pass(n, env)) < Rank(n)
  {
    var p, cs := Decide(n, env), n.status.conditions;
    if cs != [] && !n.status.state.Pending? && !n.status.state.Preparing?
      && Is(cs, NodeSetPrepared, True) && Is(cs, NodeSetProvisioned, True)
    {
      PauseIsForward(n);
    }
    ForwardDescends(n, p.put.value, Pass(n, env));
  }

  lemma PassKeeps(n: NodeSet, env: NodeSetEnv)
    requires Usual(n)
    ensures var v := Pass(n, env);
            Usual(v) && v.spec == n.spec && v.generation == n.generation && ReadyReplicas(v) == ReadyReplicas(n)
  {
    SyncScales(n, env);
    NeverInitializing(n, env);
  }

  lemma NeverInitializing(n: NodeSet, env: NodeSetEnv)
    requires Usual(n)
    ensures var p := Decide(n, env); p.put.Some? ==> !p.put.value.state.Initializing?
  {
  }

  lemma DoneIsFinal(n: NodeSet, env: NodeSetEnv)
    requires Usual(n) && Healthy(env) && Done(n) && ReadyReplicas(n) == n.spec.nodes
    ensures Pass(n, env).status == n.status
  {
    PastTheWaitPuts(n, env);
    DoneMovesNowhere(n);
  }

  lemma DoneMovesNowhere(n: NodeSet)
    requires Done(n)
    ensures PauseMove(NODE_SET_STAGES, n.spec.pause, n.generation, n.status).None?
  {
  }

  /** With another number running, a pass either sees it, and takes the certificate, or has not come so far. */
  lemma LagDescends(n: NodeSet, env: NodeSetEnv)
    requires Usual(n) && Healthy(env) && ReadyReplicas(n) != n.spec.nodes
    ensures var v := Pass(n, env);
            && (Is(v.status.conditions, NodeSetProvisioned, True) ==> Is(n.status.conditions, NodeSetProvisioned, True))
            && (Is(v.status.conditions, NodeSetProvisioned, True) ==> Rank(v) < Rank(n))
  {
    LagPuts(n, env);
    var put := Decide(n, env).put.value;
    PutLeaves(n, put);
    if Forward(n, put) { ForwardDescends(n, put, Pass(n, env)); }
  }

  lemma LagPuts(n: NodeSet, env: NodeSetEnv)
    requires Usual(n) && Healthy(env) && ReadyReplicas(n) != n.spec.nodes
    ensures var p := Decide(n, env);
            && p.put.Some?
            && (p.put.value.condition.kind.NodeSetProvisioned? ==> !p.put.value.condition.status.True?)
            && (p.put.value.condition.kind.NodeSetProvisioned? || Forward(n, p.put.value))
  {
  }

  // ----- Runs of passes -----

  function Passes(n: NodeSet, envs: seq<NodeSetEnv>): NodeSet
    decreases |envs|
  {
    if envs == [] then n else Passes(Pass(n, envs[0]), envs[1..])
  }

  /** Bounded progress, both ways: after more healthy passes than its rank, a node set is Ready, or Paused if
      asked to be, with every condition true, if and only if its StatefulSet runs the nodes asked for. */
  lemma {:induction false} HealthyPassesFinish(n: NodeSet, envs: seq<NodeSetEnv>)
    requires Usual(n) && Rank(n) < |envs| && forall env :: env in envs ==> Healthy(env)
    ensures Done(Passes(n, envs)) <==> ReadyReplicas(n) == n.spec.nodes
    decreases |envs|
  {
    var v := Pass(n, envs[0]);
    PassKeeps(n, envs[0]);
    if ReadyReplicas(n) == n.spec.nodes {
      if Done(n) {
        DoneIsFinal(n, envs[0]);
        DoneStays(v, envs[1..]);
      } else {
        HealthyPassDescends(n, envs[0]);
        HealthyPassesFinish(v, envs[1..]);
      }
    } else {
      LagDescends(n, envs[0]);
      if Is(v.status.conditions, NodeSetProvisioned, True) {
        HealthyPassesFinish(v, envs[1..]);
      } else {
        LagStays(v, envs[1..]);
      }
    }
  }

  lemma {:induction false} DoneStays(n: NodeSet, envs: seq<NodeSetEnv>)
    requires Usual(n) && Done(n) && ReadyReplicas(n) == n.spec.nodes && forall env :: env in envs ==> Healthy(env)
    ensures Done(Passes(n, envs))
    decreases |envs|
  {
    if envs != [] {
      PassKeeps(n, envs[0]);
      DoneIsFinal(n, envs[0]);
      DoneStays(Pass(n, envs[0]), envs[1..]);
    }
  }

  lemma {:induction false} LagStays(n: NodeSet, envs: seq<NodeSetEnv>)
    requires Usual(n) && ReadyReplicas(n) != n.spec.nodes && forall env :: env in envs ==> Healthy(env)
    requires !Is(n.status.conditions, NodeSetProvisioned, True)
    ensures !Done(Passes(n, envs))
    decreases |envs|
  {
    if envs != [] {
      PassKeeps(n, envs[0]);
      LagDescends(n, envs[0]);
      LagStays(Pass(n, envs[0]), envs[1..]);
    }
  }

  /** Past the comparison, once that is reported, a writing pass leaves what the pause step leaves. */
  lemma PastTheWait(n: NodeSet, env: NodeSetEnv)
    requires Compares(n, env) && ReadyReplicas(n) == n.spec.nodes && env.statusWritten
    requires Is(n.status.conditions, NodeSetProvisioned, True)
    ensures Pass(n, env).status == PauseStep(NODE_SET_STAGES, n.spec.pause, n.generation, n.status)
  {
    PastTheWaitPuts(n, env);
  }

  lemma PastTheWaitPuts(n: NodeSet, env: NodeSetEnv)
    requires Compares(n, env) && ReadyReplicas(n) == n.spec.nodes && Is(n.status.conditions, NodeSetProvisioned, True)
    ensures Decide(n, env).put == PauseMove(NODE_SET_STAGES, n.spec.pause, n.generation, n.status)
  {
  }

  // ----- Failing calls -----

  /** A pass whose resource sync fails reports the preparation unmet and takes readiness back; one that
      cannot read the StatefulSet leaves the status as it was; and one that may not act changes nothing. */
  lemma FailuresAreReported(n: NodeSet, env: NodeSetEnv)
    requires n.status.conditions != [] && !n.status.state.Pending? && env.statusWritten
    ensures !n.spec.operatorSync ==> Pass(n, env) == n
    ensures n.spec.operatorSync && !env.resourcesOk ==>
              var cs := Pass(n, env).status.conditions;
              && Find(cs, NodeSetPrepared) == Some(Condition(NodeSetPrepared, False, InProgress, n.generation, Note))
              && Is(cs, Goal(n), False)
    ensures Is(n.status.conditions, NodeSetPrepared, True) && !n.status.state.Preparing?
            && env.resourcesOk && !env.statefulSetReadable
            ==> Pass(n, env).status == n.status
  {
    var p := Decide(n, env);
    if p.put.Some? { PutLeaves(n, p.put.value); }
  }
}
