/** A StorageNodeSet and one pass of its own controller, which scales a StatefulSet and certifies, in
    the NodeSetProvisioned condition, that it runs the number of nodes its spec asks for. */
module NodeSetModel {
  import opened Wrappers
  import opened Conditions
  import opened Stages
  import opened Scaling
  import opened StorageModel

  /** The spec the parent pushes: its own fields, overridden where the inline entry says so. */
  datatype NodeSetSpec = NodeSetSpec(nodes: int, pause: bool, operatorSync: bool, config: Config, overrides: nat)

  datatype Owner = NoController | ThisStorage | AnotherController

  /** The object in the API server, together with the StatefulSet of its name. The server gives every
      incarnation a fresh `uid` and raises `generation` with every change of the spec. */
  datatype NodeSet = NodeSet(
    uid: nat, owner: Owner, generation: nat, spec: NodeSetSpec, status: Status,
    finalizer: bool, deleting: bool, statefulSet: Option<StatefulSet>)

  datatype NodeSetEnv = NodeSetEnv(resourcesOk: bool, statefulSetReadable: bool, statusWritten: bool)

  function NewStatus(n: NodeSet, put: Put): Status {
    Updated(NODE_SET_STAGES, n.spec.pause, n.generation, n.status.conditions, put)
  }

  /** What a pass decides: what the StatefulSet has become, and what to persist. */
  datatype NodePlan = NodePlan(statefulSet: Option<StatefulSet>, put: Option<Put>)

  function Report(n: NodeSet, sts: Option<StatefulSet>, state: ClusterState, kind: ConditionType,
                  status: ConditionStatus, reason: Reason, message: Message): NodePlan {
    NodePlan(sts, Some(Put(state, Condition(kind, status, reason, n.generation, message))))
  }

  function Rebuilt(n: NodeSet): StatefulSet { Rescaled(n.spec.pause, n.spec.nodes, n.statefulSet) }

  function Decide(n: NodeSet, env: NodeSetEnv): NodePlan {
    var cs, state := n.status.conditions, n.status.state;
    if cs == [] then
      Report(n, n.statefulSet, state, if n.spec.pause then NodeSetPaused else NodeSetReady, Unknown, InProgress, Note)
    else if !n.spec.operatorSync then NodePlan(n.statefulSet, None)
    else if state.Pending? then Report(n, n.statefulSet, Preparing, NodeSetPrepared, Unknown, InProgress, Note)
    else if !env.resourcesOk then Report(n, n.statefulSet, state, NodeSetPrepared, False, InProgress, Note)
    else
      var sts := Some(Rebuilt(n));
      if !Is(cs, NodeSetPrepared, True) then Report(n, sts, state, NodeSetPrepared, True, Completed, Note)
      else if state.Preparing? then Report(n, sts, Provisioning, NodeSetProvisioned, Unknown, InProgress, Note)
      else if !env.statefulSetReadable then NodePlan(sts, None)
      else if sts.value.ready != n.spec.nodes then
        Report(n, sts, state, NodeSetProvisioned, False, InProgress, Note)
      else if !Is(cs, NodeSetProvisioned, True) then
        Report(n, sts, state, NodeSetProvisioned, True, Completed, Note)
      else NodePlan(sts, PauseMove(NODE_SET_STAGES, n.spec.pause, n.generation, n.status))
  }

  function Pass(n: NodeSet, env: NodeSetEnv): NodeSet {
    var p := Decide(n, env);
    n.(statefulSet := p.statefulSet,
       status := if p.put.Some? && env.statusWritten then NewStatus(n, p.put.value) else n.status)
  }

  /** The pass gets to sync the resources of the node set. */
  predicate SyncsResources(n: NodeSet, env: NodeSetEnv) {
    n.status.conditions != [] && n.spec.operatorSync && !n.status.state.Pending? && env.resourcesOk
  }

  /** A pass that syncs leaves a StatefulSet with the replicas asked for, none while paused, and with the
      ready ones there were; any other pass leaves it alone. */
  lemma SyncScales(n: NodeSet, env: NodeSetEnv)
    ensures Pass(n, env).statefulSet
         == if SyncsResources(n, env)
            then Some(StatefulSet(if n.spec.pause then 0 else n.spec.nodes,
                                  if n.statefulSet.Some? then n.statefulSet.value.ready else 0))
            else n.statefulSet
  {
  }

  /** The certificate a pass leaves: the one there was, or one put in this pass. */
  lemma CertificateAfter(n: NodeSet, put: Put)
    ensures Find(NewStatus(n, put).conditions, NodeSetProvisioned) ==
            if put.condition.kind.NodeSetProvisioned? then Some(put.condition)
            else Find(n.status.conditions, NodeSetProvisioned)
  {
    UpdatedFinds(NODE_SET_STAGES, n.spec.pause, n.generation, n.status.conditions, put, NodeSetProvisioned);
  }

  /** The pass gets to compare the StatefulSet with the spec. */
  predicate Compares(n: NodeSet, env: NodeSetEnv) {
    && n.status.conditions != [] && n.spec.operatorSync && !n.status.state.Pending? && env.resourcesOk
    && Is(n.status.conditions, NodeSetPrepared, True) && !n.status.state.Preparing? && env.statefulSetReadable
  }

  /** What a pass may put as a certificate: a true one only on seeing the asked number; and where a true
      one is held, only a pass that sees another number puts one at all. */
  lemma CertificateIsGuarded(n: NodeSet, env: NodeSetEnv)
    ensures var p := Decide(n, env);
            p.put.Some? && p.put.value.condition.kind.NodeSetProvisioned?
            ==> && p.put.value.condition.observedGeneration == n.generation
                && (p.put.value.condition.status.True? ==> Compares(n, env) && Rebuilt(n).ready == n.spec.nodes)
    ensures Is(n.status.conditions, NodeSetProvisioned, True) && !n.status.state.Preparing? ==>
              var p := Decide(n, env);
              (p.put.Some? && p.put.value.condition.kind.NodeSetProvisioned?) == SeesAnotherNumber(n, env)
              && (SeesAnotherNumber(n, env) ==> p.put.value.condition.status.False?)
  {
  }

  /** The pass finds the StatefulSet with a number of ready replicas other than the spec asks for. */
  predicate SeesAnotherNumber(n: NodeSet, env: NodeSetEnv) { Compares(n, env) && Rebuilt(n).ready != n.spec.nodes }

  /** A certificate is only ever put at the generation read, and a true one only by a pass that saw the
      StatefulSet run exactly the nodes that generation asks for. */
  lemma CertificatesAreEarned(n: NodeSet, env: NodeSetEnv)
    ensures var before := Find(n.status.conditions, NodeSetProvisioned);
            var after := Find(Pass(n, env).status.conditions, NodeSetProvisioned);
            || after == before
            || (&& after.Some? && after.value.observedGeneration == n.generation
                && (after.value.status.True? ==> Compares(n, env) && Rebuilt(n).ready == n.spec.nodes))
  {
    CertificateIsGuarded(n, env);
    var p := Decide(n, env);
    if p.put.Some? { CertificateAfter(n, p.put.value); }
  }

  /** The certificate is renewed only by losing it: a controller that finds it true leaves it as it
      is, whatever generation it was given for, unless the StatefulSet does not run the asked number. */
  lemma TrueCertificateChangesIff(n: NodeSet, env: NodeSetEnv)
    requires Is(n.status.conditions, NodeSetProvisioned, True) && !n.status.state.Preparing?
    ensures Find(Pass(n, env).status.conditions, NodeSetProvisioned) != Find(n.status.conditions, NodeSetProvisioned)
            <==> (SeesAnotherNumber(n, env) && env.statusWritten)
  {
    CertificateIsGuarded(n, env);
    var p := Decide(n, env);
    if p.put.Some? { CertificateAfter(n, p.put.value); }
  }
}
