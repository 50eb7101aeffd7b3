/** The StorageNodeSet reconciler step by step, proved to do exactly what `NodeSetModel.Pass` says. */
module NodeSetReconciler {
  import opened Wrappers
  import opened Conditions
  import opened Scaling
  import opened Stages
  import opened NodeSetModel

  class Reconciler {
    const node: NodeSet     // the object as read, apart from what follows
    var stored: Status
    var statefulSet: Option<StatefulSet>
    var status: Status      // the copy the pass edits

    constructor (n: NodeSet)
      ensures Here() == n && status == n.status
    {
      node, stored, statefulSet, status := n, n.status, n.statefulSet, n.status;
    }

    ghost function Here(): NodeSet reads this { node.(status := stored, statefulSet := statefulSet) }

    method SetCondition(kind: ConditionType, value: ConditionStatus, reason: Reason, message: Message)
      modifies this`status
      ensures status == Status(old(status.state),
                SetStatusCondition(old(status.conditions), Condition(kind, value, reason, node.generation, message)))
    {
      status := status.(conditions :=
        SetStatusCondition(status.conditions, Condition(kind, value, reason, node.generation, message)));
    }

    method UpdateStatus(env: NodeSetEnv)
      modifies this`status, this`stored
      ensures var s := Status(old(status.state),
                              Demote(NODE_SET_STAGES, node.spec.pause, node.generation, old(status.conditions)));
              stored == if env.statusWritten then s else old(stored)
    {
      if Is(status.conditions, NodeSetPrepared, False) || Is(status.conditions, NodeSetProvisioned, False) {
        if node.spec.pause {
          SetCondition(NodeSetPaused, False, InProgress, Empty);
        } else {
          SetCondition(NodeSetReady, False, InProgress, Empty);
        }
      }
      if env.statusWritten {
        stored := status;
      }
    }

    method Finish(env: NodeSetEnv, state: ClusterState, kind: ConditionType, value: ConditionStatus,
                  reason: Reason, message: Message)
      requires status == stored
      modifies this`status, this`stored
      ensures var c := Condition(kind, value, reason, node.generation, message);
              stored == if env.statusWritten
                        then Updated(NODE_SET_STAGES, node.spec.pause, node.generation, old(stored.conditions),
                                     Put(state, c))
                        else old(stored)
    {
      SetCondition(kind, value, reason, message);
      status := status.(state := state);
      UpdateStatus(env);
    }

    method SetInitialStatus(env: NodeSetEnv) returns (stop: bool)
      requires status == stored
      modifies this`status, this`stored
      ensures stop == (old(stored.conditions) == [])
      ensures stop ==> Here() == Pass(old(Here()), env)
      ensures !stop ==> unchanged(this)
    {
      if status.conditions == [] {
        if node.spec.pause {
          Finish(env, status.state, NodeSetPaused, Unknown, InProgress, Note);
        } else {
          Finish(env, status.state, NodeSetReady, Unknown, InProgress, Note);
        }
        return true;
      }
      return false;
    }

    method HandleResourcesSync(env: NodeSetEnv) returns (stop: bool)
      requires status == stored && stored.conditions != []
      modifies this`status, this`stored, this`statefulSet
      ensures stop ==> Here() == Pass(old(Here()), env)
      ensures !stop ==> unchanged(`status, `stored) && statefulSet == Some(Rebuilt(old(Here())))
                        && Synced(old(Here()), env)
    {
      if !node.spec.operatorSync {
        return true;
      }
      if status.state.Pending? {
        Finish(env, Preparing, NodeSetPrepared, Unknown, InProgress, Note);
        return true;
      }
      if !env.resourcesOk {
        Finish(env, status.state, NodeSetPrepared, False, InProgress, Note);
        return true;
      }
      var replicas := if node.spec.pause then 0 else node.spec.nodes;
      if statefulSet.None? {
        statefulSet := Some(StatefulSet(replicas, 0));
      } else if !(node.spec.pause && statefulSet.value.replicas == 0) {
        statefulSet := Some(statefulSet.value.(replicas := replicas));
      }
      if !Is(status.conditions, NodeSetPrepared, True) {
        Finish(env, status.state, NodeSetPrepared, True, Completed, Note);
        return true;
      }
      return false;
    }

    method WaitForStatefulSetToScale(env: NodeSetEnv, ghost n: NodeSet) returns (stop: bool)
      requires status == stored && Synced(n, env) && Here() == n.(statefulSet := Some(Rebuilt(n)))
      modifies this`status, this`stored
      ensures stop ==> Here() == Pass(n, env)
      ensures !stop ==> unchanged(this) && Scaled(n, env)
    {
      if status.state.Preparing? {
        Finish(env, Provisioning, NodeSetProvisioned, Unknown, InProgress, Note);
        return true;
      }
      if !env.statefulSetReadable {
        return true;
      }
      if statefulSet.value.ready != node.spec.nodes {
        Finish(env, status.state, NodeSetProvisioned, False, InProgress, Note);
        return true;
      }
      if !Is(status.conditions, NodeSetProvisioned, True) {
        Finish(env, status.state, NodeSetProvisioned, True, Completed, Note);
        return true;
      }
      return false;
    }

    method HandlePauseResume(env: NodeSetEnv, ghost n: NodeSet)
      requires status == stored && Scaled(n, env) && Here() == n.(statefulSet := Some(Rebuilt(n)))
      modifies this`status, this`stored
      ensures Here() == Pass(n, env)
    {
      if status.state.Provisioning? {
        if node.spec.pause {
          Finish(env, Paused, NodeSetPaused, True, Completed, Empty);
        } else {
          Finish(env, Ready, NodeSetReady, True, Completed, Empty);
        }
        return;
      }
      if status.state.Ready? && node.spec.pause {
        Finish(env, Paused, NodeSetReady, False, NotRequired, Note);
        return;
      }
      if status.state.Paused? && !node.spec.pause {
        Finish(env, Ready, NodeSetPaused, False, NotRequired, Note);
        return;
      }
      if node.spec.pause {
        if !Is(status.conditions, NodeSetPaused, True) {
          Finish(env, status.state, NodeSetPaused, True, Completed, Empty);
        }
      } else {
        if !Is(status.conditions, NodeSetReady, True) {
          Finish(env, status.state, NodeSetReady, True, Completed, Empty);
        }
      }
    }

    method Sync(env: NodeSetEnv)
      modifies this
      ensures Here() == Pass(old(Here()), env)
    {
      ghost var n := Here();
      status := stored;
      var stop := SetInitialStatus(env);
      if stop {
        return;
      }
      stop := HandleResourcesSync(env);
      if stop {
        return;
      }
      stop := WaitForStatefulSetToScale(env, n);
      if stop {
        return;
      }
      HandlePauseResume(env, n);
    }
  }

  // ----- How far a pass has come -----

  predicate Synced(n: NodeSet, env: NodeSetEnv) {
    && n.status.conditions != [] && n.spec.operatorSync && !n.status.state.Pending?
    && env.resourcesOk && Is(n.status.conditions, NodeSetPrepared, True)
  }

  predicate Scaled(n: NodeSet, env: NodeSetEnv) {
    && Synced(n, env) && !n.status.state.Preparing? && env.statefulSetReadable
    && Rebuilt(n).ready == n.spec.nodes && Is(n.status.conditions, NodeSetProvisioned, True)
  }
}
