/** The Storage and its node sets together: the parent pushes specs and waits for certificates, each
    child's own controller scales and certifies, and they talk only through generations. */
module Handshake {
  import opened Wrappers
  import opened Conditions
  import opened Scaling
  import opened Stages
  import opened StorageModel
  import opened OwnedNodeSets
  import Child = NodeSetModel
  import Safety = StorageSafety

  /** A child controller's comparison: at this generation of this incarnation it saw so many ready replicas. */
  datatype Witness = Witness(uid: nat, generation: nat, ready: int)

  datatype Cluster = Cluster(storage: World, objects: Objects, witnesses: set<Witness>)

  /** The answers to one pass of the parent: to the builders before, at and after the node sets, to the
      deletions (`victims` are those done if the deletions do not all succeed), and to everything else. */
  datatype ParentEnv = ParentEnv(
    base: PassEnv, beforeOk: bool, answers: seq<bool>, afterOk: bool,
    prunedOk: bool, victims: set<NodeSetRef>, readable: set<NodeSetRef>)

  function Entries(w: World): seq<NodeSetEntry> { if w.spec.nodeSets.Some? then w.spec.nodeSets.value else [] }

  predicate SyncsResources(w: World) {
    w.status.conditions != [] && !w.status.state.Pending? && w.spec.operatorSync
  }

  /** The node sets after the pass has pushed and pruned, and whether that went well. */
  function Synced(c: Cluster, env: ParentEnv): (Objects, bool) {
    var entries := Entries(c.storage);
    if !env.beforeOk then (c.objects, false)
    else
      var (pushed, ok) := PushAll(c.objects, c.storage.spec, entries, env.answers);
      if !ok || !env.afterOk then (pushed, false)
      else
        var unwanted := Unwanted(pushed.nodeSets, entries);
        (pushed.(nodeSets := Deleted(pushed.nodeSets, if env.prunedOk then unwanted else env.victims * unwanted)), true)
  }

  function Views(nodeSets: map<NodeSetRef, Child.NodeSet>, readable: set<NodeSetRef>): map<NodeSetRef, NodeSetView> {
    map ref | ref in nodeSets && ref in readable ::
      NodeSetView(nodeSets[ref].generation, nodeSets[ref].status.conditions)
  }

  /** The answers the Storage pass gets, with the node sets as they stand after the resource sync. */
  function Answers(c: Cluster, env: ParentEnv): PassEnv {
    var (objects, ok) := Synced(c, env);
    env.base.(resourcesOk := ok, nodeSetsPrunedOk := env.prunedOk, nodeSets := Views(objects.nodeSets, env.readable))
  }

  function ParentPass(c: Cluster, env: ParentEnv): Cluster {
    var storage := After(c.storage, Pass(c.storage, Answers(c, env)));
    c.(storage := storage, objects := if SyncsResources(c.storage) then Synced(c, env).0 else c.objects)
  }

  /** What can happen to one node set object outside the parent's passes. */
  datatype ChildChange =
    | Own(env: Child.NodeSetEnv)      // a pass of its own controller
    | Replicas(ready: int)            // its StatefulSet gains or loses ready replicas
    | MirrorStatus(status: Status)    // what another cluster reports of a remote one
    | Edit(spec: Child.NodeSetSpec)
    | Finalize(finalizer: bool)

  datatype ClusterEvent =
    | Parent(env: ParentEnv)
    | OnChild(ref: NodeSetRef, change: ChildChange)
    | DeleteChild(ref: NodeSetRef)
    | AroundStorage(event: Event)

  function Observed(n: Child.NodeSet, env: Child.NodeSetEnv): set<Witness> {
    if Child.Compares(n, env) then {Witness(n.uid, n.generation, Child.Rebuilt(n).ready)} else {}
  }

  /** The object after the change, if it is still there, and what its controller observed. */
  function Changed(n: Child.NodeSet, remote: bool, change: ChildChange): (Option<Child.NodeSet>, set<Witness>) {
    match change
    case Own(env) => if remote then (Some(n), {}) else (Some(Child.Pass(n, env)), Observed(n, env))
    case Replicas(ready) =>
      (Some(if n.statefulSet.None? then n else n.(statefulSet := Some(n.statefulSet.value.(ready := ready)))), {})
    case MirrorStatus(status) => (Some(if remote then n.(status := status) else n), {})
    case Edit(spec) => (Some(if spec == n.spec then n else n.(spec := spec, generation := n.generation + 1)), {})
    case Finalize(finalizer) => (if n.deleting && !finalizer then None else Some(n.(finalizer := finalizer)), {})
  }

  function ClusterStep(c: Cluster, e: ClusterEvent): Cluster {
    match e
    case Parent(env) => ParentPass(c, env)
    case OnChild(ref, change) =>
      if ref !in c.objects.nodeSets then c
      else
        var (n, seen) := Changed(c.objects.nodeSets[ref], ref.remote, change);
        var nodeSets := if n.Some? then c.objects.nodeSets[ref := n.value] else c.objects.nodeSets - {ref};
        c.(objects := c.objects.(nodeSets := nodeSets), witnesses := c.witnesses + seen)
    case DeleteChild(ref) => c.(objects := c.objects.(nodeSets := Deleted(c.objects.nodeSets, {ref})))
    case AroundStorage(event) => if event.Reconcile? then c else c.(storage := Step(c.storage, event))
  }

  function ClusterRun(c: Cluster, events: seq<ClusterEvent>): Cluster
    decreases |events|
  {
    if events == [] then c
    else ClusterStep(ClusterRun(c, events[..|events| - 1]), events[|events| - 1])
  }

  predicate NewCluster(c: Cluster) {
    Initial(c.storage) && c.objects.nodeSets == map[] && c.witnesses == {}
  }

  // ----- The invariant: a certificate at the current generation has a witness -----

  predicate Attested(n: Child.NodeSet, nextUid: nat, witnesses: set<Witness>) {
    var certificate := Find(n.status.conditions, NodeSetProvisioned);
    && n.uid < nextUid
    && (certificate.Some? ==> certificate.value.observedGeneration <= n.generation)
    && (IsAt(n.status.conditions, NodeSetProvisioned, True, n.generation) ==>
          Witness(n.uid, n.generation, n.spec.nodes) in witnesses)
  }

  ghost predicate AllAttested(c: Cluster) {
    forall ref :: ref in c.objects.nodeSets && !ref.remote ==>
      Attested(c.objects.nodeSets[ref], c.objects.nextUid, c.witnesses)
  }

  lemma ChangeKeeps(n: Child.NodeSet, change: ChildChange, nextUid: nat, witnesses: set<Witness>)
    requires Attested(n, nextUid, witnesses)
    ensures var (after, seen) := Changed(n, false, change);
            after.Some? ==> Attested(after.value, nextUid, witnesses + seen)
  {
    if change.Own? { Child.CertificatesAreEarned(n, change.env); }
  }

  /** Pushing and deleting can only outdate a certificate, never renew one. */
  lemma SyncKeeps(c: Cluster, env: ParentEnv, ref: NodeSetRef)
    requires AllAttested(c) && !ref.remote
    ensures var o := Synced(c, env).0;
            ref in o.nodeSets ==> Attested(o.nodeSets[ref], o.nextUid, c.witnesses)
  {
    PushAllFrame(c.objects, c.storage.spec, Entries(c.storage), env.answers, ref);
  }

  lemma StepKeepsAttested(c: Cluster, e: ClusterEvent)
    requires AllAttested(c)
    ensures AllAttested(ClusterStep(c, e))
  {
    match e
    case Parent(env) => forall ref: NodeSetRef | !ref.remote { SyncKeeps(c, env, ref); }
    case OnChild(ref, change) =>
      if ref in c.objects.nodeSets && !ref.remote {
        ChangeKeeps(c.objects.nodeSets[ref], change, c.objects.nextUid, c.witnesses);
      }
    case _ =>
  }

  lemma {:induction false} AttestedHolds(c: Cluster, events: seq<ClusterEvent>)
    requires NewCluster(c)
    ensures AllAttested(ClusterRun(c, events))
    decreases |events|
  {
    if events != [] {
      AttestedHolds(c, events[..|events| - 1]);
      StepKeepsAttested(ClusterRun(c, events[..|events| - 1]), events[|events| - 1]);
    }
  }

  // ----- What the parent may conclude -----

  /** The pass is done with everything that comes before the wait for its nodes. */
  predicate ComesToTheWait(w: World, env: PassEnv) {
    && SyncsResources(w) && env.resourcesOk && env.nodeSetsPrunedOk
    && Is(w.status.conditions, StoragePrepared, True) && Is(w.status.conditions, StorageInitialized, True)
    && !ConfigStale(w) && Is(w.status.conditions, ConfigurationSynced, True)
    && !w.status.state.Initializing?
  }

  predicate Runs(w: World, env: PassEnv) { AllRun(w.spec.nodes, w.spec.nodeSets, env.statefulSet, env.nodeSets) }

  predicate Lags(w: World, env: PassEnv) { SomeLag(w.spec.nodes, w.spec.nodeSets, env.statefulSet, env.nodeSets) }

  /** The pass gets past the wait: from here it reports StorageProvisioned or goes on. */
  predicate PassesWait(w: World, env: PassEnv) { ComesToTheWait(w, env) && Runs(w, env) }

  lemma ScaledMeans(w: World, env: PassEnv)
    ensures Scaled(w.spec, env).Settled? <==> Runs(w, env)
    ensures Scaled(w.spec, env).Lagging? <==> Lags(w, env)
  {
    ScaleMeans(w.spec.nodes, w.spec.nodeSets, env.statefulSet, env.nodeSets);
  }

  /** A plan that neither reports the nodes provisioned nor moves the state on from Provisioning. */
  predicate StaysBehind(w: World, p: Plan) {
    p.put.Some? ==>
      && !(p.put.value.condition.kind.StorageProvisioned? && p.put.value.condition.status.True?)
      && (w.status.state.Provisioning? ==> p.put.value.state.Provisioning?)
  }

  lemma InitializationStaysBehind(w: World, env: PassEnv)
    ensures StaysBehind(w, DecideInitialization(w, env))
  {
  }

  lemma ConfigStaysBehind(w: World, env: PassEnv)
    ensures StaysBehind(w, DecideConfigStart(w, env)) && StaysBehind(w, DecideConfigSync(w, env))
  {
  }

  lemma OnlyPastTheWait(w: World, env: PassEnv)
    requires !PassesWait(w, env)
    ensures StaysBehind(w, Decide(w, env))
  {
    InitializationStaysBehind(w, env);
    ConfigStaysBehind(w, env);
    ScaledMeans(w, env);
  }

  /** StorageProvisioned turns true, and the state leaves Provisioning, only in a pass that gets past the wait. */
  lemma ProvisionedOnlyPastTheWait(w: World, env: PassEnv)
    ensures var after := Pass(w, env).status;
            (|| (Is(after.conditions, StorageProvisioned, True) && !Is(w.status.conditions, StorageProvisioned, True))
             || (w.status.state.Provisioning? && after.state != w.status.state))
            ==> PassesWait(w, env)
  {
    if !PassesWait(w, env) {
      OnlyPastTheWait(w, env);
      var p := Decide(w, env);
      if p.put.Some? { Safety.NewStatusFinds(w, p.put.value, StorageProvisioned); }
    }
  }

  function Provisioned(w: World): Option<Condition> { Find(w.status.conditions, StorageProvisioned) }

  /** With a stage unmet, the write takes readiness, or the pause, back. */
  lemma LagTakesBack(w: World, state: ClusterState)
    ensures var c := Condition(StorageProvisioned, False, InProgress, w.Generation(), Note);
            var goal := if w.spec.pause then StoragePaused else StorageReady;
            Find(NewStatus(w, Put(state, c)).conditions, goal)
              == Some(Condition(goal, False, InProgress, w.Generation(), Empty))
  {
  }

  lemma PausePutsOther(w: World)
    ensures DecidePause(w).put.Some? ==> !DecidePause(w).put.value.condition.kind.StorageProvisioned?
  {
  }

  /** On entering Provisioning, the nodes are reported as not known yet. */
  lemma EntersUnknown(w: World, env: PassEnv)
    requires !w.status.state.Provisioning?
    ensures var after := After(w, Pass(w, env));
            after.status.state.Provisioning? ==>
              Provisioned(after) == Some(Condition(StorageProvisioned, Unknown, InProgress, w.Generation(), Note))
  {
    var p := Decide(w, env);
    EntersByDecision(w, env);
    if p.put.Some? { Safety.NewStatusFinds(w, p.put.value, StorageProvisioned); }
  }

  lemma EntersByDecision(w: World, env: PassEnv)
    requires !w.status.state.Provisioning?
    ensures var p := Decide(w, env);
            p.put.Some? && p.put.value.state.Provisioning? ==>
              p.put.value.condition == Condition(StorageProvisioned, Unknown, InProgress, w.Generation(), Note)
  {
    InitializationNeverEnters(w, env);
    ConfigNeverEnters(w, env);
    OthersNeverEnter(w, env);
  }

  lemma OthersNeverEnter(w: World, env: PassEnv)
    requires !w.status.state.Provisioning?
    ensures DecideConfigStart(w, env).put.Some? ==> !DecideConfigStart(w, env).put.value.state.Provisioning?
    ensures DecidePause(w).put.Some? ==> !DecidePause(w).put.value.state.Provisioning?
  {
  }

  lemma InitializationNeverEnters(w: World, env: PassEnv)
    requires !w.status.state.Provisioning?
    ensures DecideInitialization(w, env).put.Some? ==> !DecideInitialization(w, env).put.value.state.Provisioning?
  {
  }

  lemma ConfigNeverEnters(w: World, env: PassEnv)
    requires !w.status.state.Provisioning?
    ensures DecideConfigSync(w, env).put.Some? ==> !DecideConfigSync(w, env).put.value.state.Provisioning?
  {
  }

  /** Past the wait, once that is reported, a writing pass leaves what the pause step leaves. */
  lemma PastTheWait(w: World, env: PassEnv)
    requires PassesWait(w, env) && Is(w.status.conditions, StorageProvisioned, True) && env.statusWritten
    ensures Pass(w, env).status == PauseStep(STORAGE_STAGES, w.spec.pause, w.Generation(), w.status)
  {
    ScaledMeans(w, env);
  }

  /** What a writing pass that comes to the wait reports: a lag as that, taking readiness back; all nodes
      running, once; and nothing when it could not read enough. */
  lemma WaitReports(w: World, env: PassEnv)
    requires ComesToTheWait(w, env) && env.statusWritten
    ensures var after := After(w, Pass(w, env));
            var goal := if w.spec.pause then StoragePaused else StorageReady;
            Lags(w, env) ==>
              && Provisioned(after) == Some(Condition(StorageProvisioned, False, InProgress, w.Generation(), Note))
              && Is(after.status.conditions, goal, False) && after.status.state == w.status.state
    ensures var after := After(w, Pass(w, env));
            Runs(w, env) && !Is(w.status.conditions, StorageProvisioned, True) ==>
              && Provisioned(after) == Some(Condition(StorageProvisioned, True, Completed, w.Generation(), Note))
              && after.status.state == w.status.state
    ensures var after := After(w, Pass(w, env));
            !Lags(w, env) && (!Runs(w, env) || Is(w.status.conditions, StorageProvisioned, True)) ==>
              Provisioned(after) == Provisioned(w) && (!Runs(w, env) ==> after.status == w.status)
  {
    var p := Decide(w, env);
    ScaledMeans(w, env);
    LagTakesBack(w, w.status.state);
    PausePutsOther(w);
    if p.put.Some? { Safety.NewStatusFinds(w, p.put.value, StorageProvisioned); }
  }

  lemma Delivered(c: Cluster, env: ParentEnv, i: nat)
    requires PassesWait(c.storage, Answers(c, env)) && Decides(Entries(c.storage), i)
    ensures var after := ParentPass(c, env).objects.nodeSets;
            var e := Entries(c.storage)[i];
            && ParentPass(c, env).objects == Synced(c, env).0
            && RefOf(e) in after && after[RefOf(e)].owner.ThisStorage?
            && after[RefOf(e)].spec == Recast(c.storage.spec, e)
  {
    PushAllDelivers(c.objects, c.storage.spec, Entries(c.storage), env.answers, i);
  }

  /** What a pass of the parent needs to get past the wait: every builder and the deletions succeed, no listed
      node set belongs to another controller, and every one can be read. */
  lemma WaitNeeds(c: Cluster, env: ParentEnv, i: nat)
    requires PassesWait(c.storage, Answers(c, env)) && c.storage.spec.nodeSets.Some? && i < |Entries(c.storage)|
    requires |env.answers| == |Entries(c.storage)|
    ensures env.beforeOk && env.afterOk && env.prunedOk && env.answers[i]
    ensures var ref := RefOf(Entries(c.storage)[i]);
            && ref in env.readable
            && (ref in c.objects.nodeSets ==> !c.objects.nodeSets[ref].owner.AnotherController?)
  {
    var entries := Entries(c.storage);
    PushSucceedsIff(c.objects, c.storage.spec, entries, env.answers);
    assert RunsAsListed(entries[i], Views(Synced(c, env).0.nodeSets, env.readable));
  }

  /** Where a builder fails, nothing is deleted; and where one before the node sets does, nothing is pushed. */
  lemma FailedSyncLeaves(c: Cluster, env: ParentEnv, ref: NodeSetRef)
    requires !Synced(c, env).1 && ref in c.objects.nodeSets
    ensures var after := ParentPass(c, env).objects;
            && ref in after.nodeSets && after.nodeSets[ref].deleting == c.objects.nodeSets[ref].deleting
            && (!env.beforeOk ==> after == c.objects)
  {
    PushAllFrame(c.objects, c.storage.spec, Entries(c.storage), env.answers, ref);
  }

  /** What the parent asks for gets to the StatefulSets: after a pass of the parent whose resource sync
      succeeds, the next syncing pass of a listed local child leaves a StatefulSet with the nodes listed, or
      with none if the parent is paused; and its spec carries the parent's configuration. */
  lemma PushReachesTheStatefulSet(c: Cluster, env: ParentEnv, i: nat, own: Child.NodeSetEnv)
    requires SyncsResources(c.storage) && Synced(c, env).1 && Decides(Entries(c.storage), i)
    requires !Entries(c.storage)[i].remote && own.resourcesOk
    ensures var e, after := Entries(c.storage)[i], ParentPass(c, env);
            && RefOf(e) in after.objects.nodeSets
            && var n := after.objects.nodeSets[RefOf(e)];
               && n.spec.config == c.storage.spec.config && n.spec.overrides == e.overrides
               && (n.status.conditions != [] && !n.status.state.Pending? ==>
                     var v := ClusterStep(after, OnChild(RefOf(e), Own(own)));
                     && RefOf(e) in v.objects.nodeSets && v.objects.nodeSets[RefOf(e)].statefulSet.Some?
                     && v.objects.nodeSets[RefOf(e)].statefulSet.value.replicas
                          == if c.storage.spec.pause then 0 else e.nodes)
  {
    PushAllDelivers(c.objects, c.storage.spec, Entries(c.storage), env.answers, i);
    Child.SyncScales(ParentPass(c, env).objects.nodeSets[RefOf(Entries(c.storage)[i])], own);
  }

  /** The listed node set is there, owned, with exactly the nodes listed; it holds a true certificate for
      its current generation, and its own controller saw that number of ready replicas at that generation. */
  predicate CertifiedFor(c: Cluster, e: NodeSetEntry) {
    && RefOf(e) in c.objects.nodeSets
    && var n := c.objects.nodeSets[RefOf(e)];
       && n.owner.ThisStorage? && n.spec.nodes == e.nodes
       && IsAt(n.status.conditions, NodeSetProvisioned, True, n.generation)
       && Witness(n.uid, n.generation, e.nodes) in c.witnesses
  }

  /** The generation handshake: in every run, when a pass gets past the wait, every local node set the spec
      lists (the last entry deciding, where a name is repeated) exists with exactly the nodes listed,
      carries a true certificate for its current generation, and its own controller saw, at that very
      generation, exactly that number of ready replicas. */
  lemma HandshakeHolds(c: Cluster, events: seq<ClusterEvent>, env: ParentEnv, i: nat)
    requires NewCluster(c)
    ensures var v := ClusterRun(c, events);
            PassesWait(v.storage, Answers(v, env)) && v.storage.spec.nodeSets.Some?
            && Decides(Entries(v.storage), i) && !Entries(v.storage)[i].remote
            ==> CertifiedFor(ParentPass(v, env), Entries(v.storage)[i])
  {
    var v := ClusterRun(c, events);
    var entries := Entries(v.storage);
    AttestedHolds(c, events);
    if PassesWait(v.storage, Answers(v, env)) && v.storage.spec.nodeSets.Some?
      && Decides(entries, i) && !entries[i].remote
    {
      SyncKeeps(v, env, RefOf(entries[i]));
      Delivered(v, env, i);
      assert RunsAsListed(entries[i], Views(Synced(v, env).0.nodeSets, env.readable));
    }
  }

  /** No resize is accepted on an old certificate: a pass that pushes another number of nodes to a
      child, or any other change of its spec, does not get past the wait. */
  lemma NoResizeOnOldCertificate(c: Cluster, events: seq<ClusterEvent>, env: ParentEnv, i: nat)
    requires NewCluster(c)
    requires var v := ClusterRun(c, events);
             && v.storage.spec.nodeSets.Some? && Decides(Entries(v.storage), i) && !Entries(v.storage)[i].remote
             && RefOf(Entries(v.storage)[i]) in v.objects.nodeSets
             && v.objects.nodeSets[RefOf(Entries(v.storage)[i])].spec != Recast(v.storage.spec, Entries(v.storage)[i])
    ensures !PassesWait(ClusterRun(c, events).storage, Answers(ClusterRun(c, events), env))
  {
    var v := ClusterRun(c, events);
    if PassesWait(v.storage, Answers(v, env)) {
      var entries := Entries(v.storage);
      var ref := RefOf(entries[i]);
      assert RunsAsListed(entries[i], Views(Synced(v, env).0.nodeSets, env.readable));
      AttestedHolds(c, events);
      PushAllDelivers(v.objects, v.storage.spec, entries, env.answers, i);
      PushAllFrame(v.objects, v.storage.spec, entries, env.answers, ref);
      assert false;
    }
  }

  // ----- The node counts -----

  function Nodes(entries: seq<NodeSetEntry>): int {
    if entries == [] then 0 else entries[0].nodes + Nodes(entries[1..])
  }

  predicate Shadowed(entries: seq<NodeSetEntry>)
    requires entries != []
  {
    Listed(entries[1..], RefOf(entries[0]))
  }

  /** The nodes of the entries another one of the same name and kind overrides. */
  function ShadowedNodes(entries: seq<NodeSetEntry>): int {
    if entries == [] then 0
    else (if Shadowed(entries) then entries[0].nodes else 0) + ShadowedNodes(entries[1..])
  }

  /** The nodes of the objects the entries stand for, each object counted once. */
  function CertifiedNodes(nodeSets: map<NodeSetRef, Child.NodeSet>, entries: seq<NodeSetEntry>): int
    requires forall i :: 0 <= i < |entries| ==> RefOf(entries[i]) in nodeSets
  {
    if entries == [] then 0
    else (if Shadowed(entries) then 0 else nodeSets[RefOf(entries[0])].spec.nodes)
         + CertifiedNodes(nodeSets, entries[1..])
  }

  lemma {:induction false} CountsAddUp(nodeSets: map<NodeSetRef, Child.NodeSet>, entries: seq<NodeSetEntry>)
    requires forall i :: 0 <= i < |entries| ==> RefOf(entries[i]) in nodeSets
    requires forall i: nat :: Decides(entries, i) ==> nodeSets[RefOf(entries[i])].spec.nodes == entries[i].nodes
    ensures CertifiedNodes(nodeSets, entries) + ShadowedNodes(entries) == Nodes(entries)
    decreases |entries|
  {
    if entries != [] {
      forall i: nat | Decides(entries[1..], i)
        ensures nodeSets[RefOf(entries[1..][i])].spec.nodes == entries[1..][i].nodes
      {
        forall j | i + 1 < j < |entries| ensures RefOf(entries[j]) != RefOf(entries[i + 1]) {
          assert RefOf(entries[1..][j - 1]) != RefOf(entries[1..][i]);
        }
        assert Decides(entries, i + 1);
      }
      CountsAddUp(nodeSets, entries[1..]);
      if !Shadowed(entries) {
        forall j | 0 < j < |entries| ensures RefOf(entries[j]) != RefOf(entries[0]) {
          assert RefOf(entries[1..][j - 1]) == RefOf(entries[j]);
        }
        assert Decides(entries, 0);
      }
    }
  }

  /** With no negative count among them, the overridden entries have no nodes only if none of them has any. */
  lemma {:induction false} NoNodesShadowed(entries: seq<NodeSetEntry>)
    requires forall i :: 0 <= i < |entries| ==> entries[i].nodes >= 0
    ensures ShadowedNodes(entries) >= 0
    ensures ShadowedNodes(entries) == 0 <==>
            forall i :: 0 <= i < |entries| && Shadowed(entries[i..]) ==> entries[i].nodes == 0
    decreases |entries|
  {
    if entries != [] {
      var rest := entries[1..];
      NoNodesShadowed(rest);
      assert entries[0..] == entries;
      assert forall i :: 0 <= i < |rest| ==> rest[i..] == entries[i + 1..];
      if ShadowedNodes(entries) == 0 {
        forall i | 0 <= i < |entries| && Shadowed(entries[i..]) ensures entries[i].nodes == 0 {
          if i > 0 { assert rest[i - 1..] == entries[i..] && rest[i - 1] == entries[i]; }
        }
      } else if Shadowed(entries) && entries[0].nodes > 0 {
        assert Shadowed(entries[0..]);
      } else {
        var i :| 0 <= i < |rest| && Shadowed(rest[i..]) && rest[i].nodes != 0;
        assert Shadowed(entries[i + 1..]) && entries[i + 1].nodes != 0;
      }
    }
  }

  /** Where the listed counts add up to the nodes of the Storage, as the webhook demands, the counts of the
      objects waited for add up to it too if and only if those of the overridden entries add up to nothing. */
  lemma CertifiedCountsSumToNodes(c: Cluster, env: ParentEnv)
    requires PassesWait(c.storage, Answers(c, env)) && c.storage.spec.nodeSets.Some?
    requires Nodes(Entries(c.storage)) == c.storage.spec.nodes
    ensures var entries := Entries(c.storage);
            var after := ParentPass(c, env).objects.nodeSets;
            && (forall i :: 0 <= i < |entries| ==> RefOf(entries[i]) in after)
            && (CertifiedNodes(after, entries) == c.storage.spec.nodes <==> ShadowedNodes(entries) == 0)
  {
    forall i: nat | Decides(Entries(c.storage), i) { Delivered(c, env, i); }
    DeliveredCounts(ParentPass(c, env).objects.nodeSets, Entries(c.storage));
  }

  lemma DeliveredCounts(nodeSets: map<NodeSetRef, Child.NodeSet>, entries: seq<NodeSetEntry>)
    requires forall i: nat | Decides(entries, i) ::
               RefOf(entries[i]) in nodeSets && nodeSets[RefOf(entries[i])].spec.nodes == entries[i].nodes
    ensures forall i :: 0 <= i < |entries| ==> RefOf(entries[i]) in nodeSets
    ensures CertifiedNodes(nodeSets, entries) + ShadowedNodes(entries) == Nodes(entries)
  {
    forall i | 0 <= i < |entries| ensures RefOf(entries[i]) in nodeSets {
      assert Listed(entries, RefOf(entries[i]));
      var j := SomeEntryDecides(entries, RefOf(entries[i]));
    }
    CountsAddUp(nodeSets, entries);
  }
}
