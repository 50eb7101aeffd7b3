/** Readiness does not always propagate after a spec edit: a child that keeps running the number of nodes
    it is asked for never renews its certificate, and the parent waits for it. */
module StaleCertificates {
  import opened Wrappers
  import opened Conditions
  import opened Cms
  import opened Stages
  import opened Scaling
  import opened StorageModel
  import opened OwnedNodeSets
  import opened Handshake
  import Child = NodeSetModel
  import Safety = StorageSafety

  predicate Certified(n: Child.NodeSet) { Is(n.status.conditions, NodeSetProvisioned, True) }

  predicate PastPreparing(s: ClusterState) { !s.Pending? && !s.Preparing? }

  /** The child holds a true certificate, given for an older generation of its spec. */
  predicate Stale(n: Child.NodeSet) {
    && Certified(n) && PastPreparing(n.status.state)
    && Find(n.status.conditions, NodeSetProvisioned).value.observedGeneration < n.generation
  }

  /** That incarnation of a local node set is there. */
  predicate Kept(c: Cluster, ref: NodeSetRef, uid: nat) {
    !ref.remote && ref in c.objects.nodeSets && c.objects.nodeSets[ref].uid == uid
  }

  predicate HoldsStale(c: Cluster, ref: NodeSetRef, uid: nat) { Kept(c, ref, uid) && Stale(c.objects.nodeSets[ref]) }

  /** The child's own controller sees another number of ready replicas than asked for, and says so. */
  predicate GivesUp(c: Cluster, e: ClusterEvent, ref: NodeSetRef) {
    && e.OnChild? && e.ref == ref && e.change.Own? && ref in c.objects.nodeSets
    && Child.SeesAnotherNumber(c.objects.nodeSets[ref], e.change.env) && e.change.env.statusWritten
  }

  // ----- A stale certificate stays stale -----

  lemma ChildPutsPastPreparing(n: Child.NodeSet, env: Child.NodeSetEnv)
    requires PastPreparing(n.status.state)
    ensures Child.Decide(n, env).put.Some? ==> PastPreparing(Child.Decide(n, env).put.value.state)
  {
  }

  lemma ChildPassKeepsStale(n: Child.NodeSet, env: Child.NodeSetEnv)
    requires Stale(n) && !(Child.SeesAnotherNumber(n, env) && env.statusWritten)
    ensures Stale(Child.Pass(n, env))
  {
    Child.TrueCertificateChangesIff(n, env);
    ChildPutsPastPreparing(n, env);
  }

  /** What a pass of the parent leaves of a child that is still there after it. */
  lemma ParentKeepsStatus(c: Cluster, env: ParentEnv, ref: NodeSetRef)
    requires ref in c.objects.nodeSets && ref in Synced(c, env).0.nodeSets
    ensures var before, after := c.objects.nodeSets[ref], Synced(c, env).0.nodeSets[ref];
            after.uid == before.uid && after.status == before.status && after.generation >= before.generation
  {
    PushAllFrame(c.objects, c.storage.spec, Entries(c.storage), env.answers, ref);
  }

  lemma StepKeepsStale(c: Cluster, e: ClusterEvent, ref: NodeSetRef, uid: nat)
    requires HoldsStale(c, ref, uid) && !GivesUp(c, e, ref) && Kept(ClusterStep(c, e), ref, uid)
    ensures HoldsStale(ClusterStep(c, e), ref, uid)
  {
    match e
    case Parent(env) =>
      if SyncsResources(c.storage) { ParentKeepsStatus(c, env, ref); }
    case OnChild(other, change) =>
      if other == ref && change.Own? { ChildPassKeepsStale(c.objects.nodeSets[ref], change.env); }
    case _ =>
  }

  /** While a listed child holds a stale certificate, a pass of the parent does not get past the wait. */
  lemma StaleBlocks(c: Cluster, env: ParentEnv, ref: NodeSetRef, uid: nat)
    requires HoldsStale(c, ref, uid) && c.storage.spec.nodeSets.Some? && Listed(Entries(c.storage), ref)
    ensures !PassesWait(c.storage, Answers(c, env))
  {
    if PassesWait(c.storage, Answers(c, env)) {
      var i := SomeEntryDecides(Entries(c.storage), ref);
      assert RunsAsListed(Entries(c.storage)[i], Views(Synced(c, env).0.nodeSets, env.readable));
      Delivered(c, env, i);
      ParentKeepsStatus(c, env, ref);
      assert false;
    }
  }

  /** Throughout a stretch of a run the incarnation is there, and its controller never gives up the certificate. */
  ghost predicate Undisturbed(c: Cluster, events: seq<ClusterEvent>, ref: NodeSetRef, uid: nat) {
    && (forall k: nat :: k <= |events| ==> Kept(ClusterRun(c, events[..k]), ref, uid))
    && (forall k: nat :: k < |events| ==> !GivesUp(ClusterRun(c, events[..k]), events[k], ref))
  }

  lemma {:induction false} StaleHolds(c: Cluster, events: seq<ClusterEvent>, ref: NodeSetRef, uid: nat)
    requires HoldsStale(c, ref, uid) && Undisturbed(c, events, ref, uid)
    ensures HoldsStale(ClusterRun(c, events), ref, uid)
    decreases |events|
  {
    if events != [] {
      var n := |events| - 1;
      UndisturbedBefore(c, events, n, ref, uid);
      StaleHolds(c, events[..n], ref, uid);
      assert Kept(ClusterRun(c, events[..n + 1]), ref, uid) && events[..n + 1] == events;
      assert !GivesUp(ClusterRun(c, events[..n]), events[n], ref);
      StepKeepsStale(ClusterRun(c, events[..n]), events[n], ref, uid);
    }
  }

  lemma UndisturbedBefore(c: Cluster, events: seq<ClusterEvent>, n: nat, ref: NodeSetRef, uid: nat)
    requires n <= |events| && Undisturbed(c, events, ref, uid)
    ensures Undisturbed(c, events[..n], ref, uid)
  {
    forall k: nat | k <= n ensures Kept(ClusterRun(c, events[..n][..k]), ref, uid) {
      assert events[..n][..k] == events[..k];
    }
    forall k: nat | k < n ensures !GivesUp(ClusterRun(c, events[..n][..k]), events[..n][k], ref) {
      assert events[..n][..k] == events[..k];
    }
  }

  /** A stale certificate blocks the parent: over any stretch of a run in which the incarnation of the
      child stays and its controller does not give the certificate up, whatever else happens and
      however often the spec is edited, no pass of a Storage that lists it gets past the wait. */
  lemma StaleBlocksEveryPass(c: Cluster, events: seq<ClusterEvent>, ref: NodeSetRef, uid: nat, k: nat)
    requires HoldsStale(c, ref, uid) && Undisturbed(c, events, ref, uid)
    requires k < |events| && events[k].Parent?
    ensures var v := ClusterRun(c, events[..k]);
            v.storage.spec.nodeSets.Some? && Listed(Entries(v.storage), ref)
            ==> !PassesWait(v.storage, Answers(v, events[k].env))
  {
    UndisturbedBefore(c, events, k, ref, uid);
    StaleHolds(c, events[..k], ref, uid);
    var v := ClusterRun(c, events[..k]);
    if v.storage.spec.nodeSets.Some? && Listed(Entries(v.storage), ref) {
      StaleBlocks(v, events[k].env, ref, uid);
    }
  }

  // ----- What does renew it -----

  lemma GivenUp(n: Child.NodeSet, env: Child.NodeSetEnv)
    requires Stale(n) && Child.SeesAnotherNumber(n, env) && env.statusWritten
    ensures var after := Child.Pass(n, env);
            && Is(after.status.conditions, NodeSetProvisioned, False)
            && Is(after.status.conditions, NodeSetPrepared, True)
            && after.status.state == n.status.state && after.status.conditions != []
            && after.spec == n.spec && after.generation == n.generation
            && after.statefulSet == Some(Child.Rebuilt(n))
  {
  }

  lemma CertifiedAnew(n: Child.NodeSet, env: Child.NodeSetEnv)
    requires Is(n.status.conditions, NodeSetProvisioned, False) && Child.Compares(n, env)
    requires Child.Rebuilt(n).ready == n.spec.nodes && env.statusWritten
    ensures IsAt(Child.Pass(n, env).status.conditions, NodeSetProvisioned, True, n.generation)
  {
    Child.CertificateAfter(n, Child.Decide(n, env).put.value);
  }

  /** What a change of a child leaves in the cluster. */
  lemma ChildChanges(c: Cluster, ref: NodeSetRef, change: ChildChange)
    requires ref in c.objects.nodeSets && (change.Own? || change.Replicas?) && !ref.remote
    ensures var v, n := ClusterStep(c, OnChild(ref, change)), c.objects.nodeSets[ref];
            && ref in v.objects.nodeSets && v.storage == c.storage && v.objects.nextUid == c.objects.nextUid
            && (change.Own? ==> v.objects.nodeSets[ref] == Child.Pass(n, change.env))
            && (change.Replicas? && n.statefulSet.Some? ==>
                  v.objects.nodeSets[ref] == n.(statefulSet := Some(n.statefulSet.value.(ready := change.ready))))
            && (forall other :: other != ref ==>
                  (other in v.objects.nodeSets <==> other in c.objects.nodeSets)
                  && (other in c.objects.nodeSets ==> v.objects.nodeSets[other] == c.objects.nodeSets[other]))
  {
  }

  predicate CertifiedNow(n: Child.NodeSet) { IsAt(n.status.conditions, NodeSetProvisioned, True, n.generation) }

  /** The child's controller gives up, the replicas become the asked number again, and it looks once more. */
  function Renewed(c: Cluster, ref: NodeSetRef, first: Child.NodeSetEnv, second: Child.NodeSetEnv): Cluster
    requires ref in c.objects.nodeSets
  {
    var nodes := c.objects.nodeSets[ref].spec.nodes;
    var settled := ClusterStep(ClusterStep(c, OnChild(ref, Own(first))), OnChild(ref, ChildChange.Replicas(nodes)));
    ClusterStep(settled, OnChild(ref, Own(second)))
  }

  /** What renews a stale certificate: one pass of the child's controller that sees another number,
      and, once the replicas are the asked number again, one more pass. Nothing else changes. */
  lemma GivingUpRenews(c: Cluster, ref: NodeSetRef, uid: nat, first: Child.NodeSetEnv, second: Child.NodeSetEnv)
    requires HoldsStale(c, ref, uid) && GivesUp(c, OnChild(ref, Own(first)), ref)
    requires second.resourcesOk && second.statefulSetReadable && second.statusWritten
    ensures var v := Renewed(c, ref, first, second);
            && Kept(v, ref, uid) && CertifiedNow(v.objects.nodeSets[ref]) && v.storage == c.storage
            && v.objects.nodeSets[ref].spec == c.objects.nodeSets[ref].spec
            && v.objects.nodeSets[ref].owner == c.objects.nodeSets[ref].owner
            && (forall other :: other != ref && other in c.objects.nodeSets ==>
                  other in v.objects.nodeSets && v.objects.nodeSets[other] == c.objects.nodeSets[other])
  {
    var n := c.objects.nodeSets[ref];
    GivenUp(n, first);
    ChildChanges(c, ref, Own(first));
    var given := ClusterStep(c, OnChild(ref, Own(first)));
    ChildChanges(given, ref, ChildChange.Replicas(n.spec.nodes));
    var settled := ClusterStep(given, OnChild(ref, ChildChange.Replicas(n.spec.nodes)));
    CertifiedAnew(settled.objects.nodeSets[ref], second);
    ChildChanges(settled, ref, Own(second));
  }

  /** Nothing else renews it: if the incarnation has stayed and its certificate is no longer stale, its
      controller has given the old one up on the way. */
  lemma OnlyGivingUpRenews(c: Cluster, events: seq<ClusterEvent>, ref: NodeSetRef, uid: nat)
    requires HoldsStale(c, ref, uid) && !HoldsStale(ClusterRun(c, events), ref, uid)
    requires forall k: nat :: k <= |events| ==> Kept(ClusterRun(c, events[..k]), ref, uid)
    ensures exists k: nat :: k < |events| && GivesUp(ClusterRun(c, events[..k]), events[k], ref)
  {
    if forall k: nat :: k < |events| ==> !GivesUp(ClusterRun(c, events[..k]), events[k], ref) {
      StaleHolds(c, events, ref, uid);
      assert false;
    }
  }

  // ----- What lets the parent past the wait -----

  /** The listed object is owned and has the spec the entry asks for. */
  predicate Pushed(c: Cluster, e: NodeSetEntry) {
    && RefOf(e) in c.objects.nodeSets
    && var n := c.objects.nodeSets[RefOf(e)];
       n.owner.ThisStorage? && n.spec == Recast(c.storage.spec, e)
  }

  predicate UpToDate(c: Cluster, e: NodeSetEntry) { Pushed(c, e) && CertifiedNow(c.objects.nodeSets[RefOf(e)]) }

  lemma {:induction false} PushesNothing(c: Cluster, entries: seq<NodeSetEntry>, answers: seq<bool>)
    requires forall i :: 0 <= i < |entries| ==> Pushed(c, entries[i])
    ensures PushAll(c.objects, c.storage.spec, entries, answers).0 == c.objects
    decreases |entries|
  {
    if entries != [] {
      var o, ref := c.objects, RefOf(entries[0]);
      assert Pushed(c, entries[0]);
      assert o.nodeSets[ref := o.nodeSets[ref]] == o.nodeSets;
      PushesNothing(c, entries[1..], if answers == [] then [] else answers[1..]);
    }
  }

  /** A pass that comes to the wait gets past it once every listed child is up to date and can be read. */
  lemma UpToDatePasses(c: Cluster, env: ParentEnv)
    requires c.storage.spec.nodeSets.Some? && ComesToTheWait(c.storage, Answers(c, env))
    requires forall i :: 0 <= i < |Entries(c.storage)| ==>
               UpToDate(c, Entries(c.storage)[i]) && RefOf(Entries(c.storage)[i]) in env.readable
    ensures PassesWait(c.storage, Answers(c, env))
  {
    var entries, views := Entries(c.storage), Views(Synced(c, env).0.nodeSets, env.readable);
    PushesNothing(c, entries, env.answers);
    forall i | 0 <= i < |entries| ensures RunsAsListed(entries[i], views) {
      assert UpToDate(c, entries[i]) && Listed(entries, RefOf(entries[i]));
    }
  }

  lemma RenewedIsUpToDate(c: Cluster, v: Cluster, ref: NodeSetRef, e: NodeSetEntry)
    requires v.storage == c.storage && ref in c.objects.nodeSets && ref in v.objects.nodeSets
    requires var before, after := c.objects.nodeSets[ref], v.objects.nodeSets[ref];
             CertifiedNow(after) && after.spec == before.spec && after.owner == before.owner
    requires forall other :: other != ref && other in c.objects.nodeSets ==>
               other in v.objects.nodeSets && v.objects.nodeSets[other] == c.objects.nodeSets[other]
    requires if RefOf(e) == ref then Pushed(c, e) else UpToDate(c, e)
    ensures UpToDate(v, e)
  {
  }

  /** Giving up unblocks the parent: once the stale child's certificate is renewed and every other listed
      child is up to date, the next pass of the parent that comes to the wait gets past it. */
  lemma RenewalUnblocks(c: Cluster, ref: NodeSetRef, uid: nat, first: Child.NodeSetEnv, second: Child.NodeSetEnv,
                        env: ParentEnv)
    requires HoldsStale(c, ref, uid) && GivesUp(c, OnChild(ref, Own(first)), ref)
    requires second.resourcesOk && second.statefulSetReadable && second.statusWritten
    requires c.storage.spec.nodeSets.Some?
    requires forall i :: 0 <= i < |Entries(c.storage)| ==>
               var e := Entries(c.storage)[i];
               RefOf(e) in env.readable && if RefOf(e) == ref then Pushed(c, e) else UpToDate(c, e)
    ensures var v := Renewed(c, ref, first, second);
            ComesToTheWait(v.storage, Answers(v, env)) ==> PassesWait(v.storage, Answers(v, env))
  {
    GivingUpRenews(c, ref, uid, first, second);
    var v := Renewed(c, ref, first, second);
    if ComesToTheWait(v.storage, Answers(v, env)) {
      forall i | 0 <= i < |Entries(v.storage)| ensures UpToDate(v, Entries(v.storage)[i]) {
        RenewedIsUpToDate(c, v, ref, Entries(v.storage)[i]);
      }
      UpToDatePasses(v, env);
    }
  }

  // ----- In a run from a new cluster -----

  /** No child is certified before its preparation is over. */
  ghost predicate CertifiedLate(c: Cluster) {
    forall ref :: ref in c.objects.nodeSets && !ref.remote && Certified(c.objects.nodeSets[ref]) ==>
      PastPreparing(c.objects.nodeSets[ref].status.state)
  }

  lemma ChildPassCertifiesLate(n: Child.NodeSet, env: Child.NodeSetEnv)
    requires Certified(n) ==> PastPreparing(n.status.state)
    ensures Certified(Child.Pass(n, env)) ==> PastPreparing(Child.Pass(n, env).status.state)
  {
    Child.CertificateIsGuarded(n, env);
    if PastPreparing(n.status.state) { ChildPutsPastPreparing(n, env); }
    var p := Child.Decide(n, env);
    if p.put.Some? { Child.CertificateAfter(n, p.put.value); }
  }

  lemma StepCertifiesLate(c: Cluster, e: ClusterEvent)
    requires CertifiedLate(c)
    ensures CertifiedLate(ClusterStep(c, e))
  {
    match e
    case Parent(env) =>
      forall ref: NodeSetRef | !ref.remote {
        PushAllFrame(c.objects, c.storage.spec, Entries(c.storage), env.answers, ref);
      }
    case OnChild(ref, change) =>
      if ref in c.objects.nodeSets && !ref.remote && change.Own? {
        ChildPassCertifiesLate(c.objects.nodeSets[ref], change.env);
      }
    case _ =>
  }

  /** In every run, a local child whose true certificate is for an older generation is stale in the sense above. */
  lemma {:induction false} OldCertificatesAreStale(c: Cluster, events: seq<ClusterEvent>)
    requires NewCluster(c)
    ensures CertifiedLate(ClusterRun(c, events))
    decreases |events|
  {
    if events != [] {
      OldCertificatesAreStale(c, events[..|events| - 1]);
      StepCertifiesLate(ClusterRun(c, events[..|events| - 1]), events[|events| - 1]);
    }
  }

  // ----- A stale certificate does arise -----

  lemma RunAppends(c: Cluster, events: seq<ClusterEvent>, e: ClusterEvent)
    ensures ClusterRun(c, events + [e]) == ClusterStep(ClusterRun(c, events), e)
  {
    assert (events + [e])[..|events|] == events;
  }

  const WELL := Child.NodeSetEnv(true, true, true)

  /** How far a child has come towards its first certificate. */
  datatype Progress = Blank | Reported | Unprepared | Prepared | Scaling | Serving

  predicate At(n: Child.NodeSet, p: Progress) {
    var cs, state := n.status.conditions, n.status.state;
    && n.spec.operatorSync
    && match p
       case Blank => cs == [] && state.Pending?
       case Reported => cs != [] && state.Pending? && !Is(cs, NodeSetPrepared, True)
       case Unprepared => cs != [] && state.Preparing? && !Is(cs, NodeSetPrepared, True)
       case Prepared => cs != [] && state.Preparing? && Is(cs, NodeSetPrepared, True)
       case Scaling => cs != [] && state.Provisioning? && Is(cs, NodeSetPrepared, True)
                       && n.statefulSet.Some? && !Is(cs, NodeSetProvisioned, True)
       case Serving => cs != [] && PastPreparing(state) && CertifiedNow(n)
  }

  function Next(p: Progress): Progress {
    match p
    case Blank => Reported
    case Reported => Unprepared
    case Unprepared => Prepared
    case Prepared => Scaling
    case Scaling => Serving
    case Serving => Serving
  }

  /** What the next healthy pass puts, for each of them. */
  lemma ChildPutsNext(n: Child.NodeSet, p: Progress)
    requires At(n, p) && !p.Serving?
    requires p.Scaling? ==> Child.Rebuilt(n).ready == n.spec.nodes
    ensures var plan := Child.Decide(n, WELL);
            && plan.put.Some?
            && var Put(state, c) := plan.put.value;
               && (p.Blank? ==> state.Pending? && (c.kind.NodeSetReady? || c.kind.NodeSetPaused?))
               && (p.Reported? ==> state.Preparing? && c.kind.NodeSetPrepared? && c.status.Unknown?)
               && (p.Unprepared? ==> state.Preparing? && c.kind.NodeSetPrepared? && c.status.True?)
               && (p.Prepared? ==> state.Provisioning? && c.kind.NodeSetProvisioned? && c.status.Unknown?
                                   && plan.statefulSet.Some?)
               && (p.Scaling? ==> state.Provisioning? && c.kind.NodeSetProvisioned? && c.status.True?
                                  && c.observedGeneration == n.generation)
  {
  }

  lemma ChildAdvances(n: Child.NodeSet, p: Progress)
    requires At(n, p) && !p.Serving?
    requires p.Scaling? ==> Child.Rebuilt(n).ready == n.spec.nodes
    ensures At(Child.Pass(n, WELL), Next(p))
    ensures var v := Child.Pass(n, WELL);
            v.spec == n.spec && v.generation == n.generation && v.uid == n.uid && v.owner == n.owner
  {
    ChildPutsNext(n, p);
    ChildWrites(n, Child.Decide(n, WELL).put.value);
  }

  lemma ChildWrites(n: Child.NodeSet, put: Put)
    ensures var cs := Child.NewStatus(n, put).conditions;
            && cs != []
            && (forall kind :: kind == NodeSetPrepared || kind == NodeSetProvisioned ==>
                  Find(cs, kind) == if kind == put.condition.kind then Some(put.condition)
                                    else Find(n.status.conditions, kind))
  {
    UpdatedFinds(NODE_SET_STAGES, n.spec.pause, n.generation, n.status.conditions, put, NodeSetPrepared);
    UpdatedFinds(NODE_SET_STAGES, n.spec.pause, n.generation, n.status.conditions, put, NodeSetProvisioned);
  }

  // The Storage of the example, before and after an edit that leaves the number of nodes alone.

  const ENTRY := NodeSetEntry("a", 1, false, 0)
  const EDITED := NodeSetEntry("a", 1, false, 1)
  const REF := NodeSetRef(false, "a")

  function SpecOf(e: NodeSetEntry): StorageSpec { StorageSpec(false, true, 1, Some([e]), Static(0)) }

  const BASE := PassEnv(true, true, true, true, None, true, true, None, Refused, PollEmpty, Unreadable, map[], true)
  const PARENT := Parent(ParentEnv(BASE, true, [true], true, true, {}, {}))
  const START := Cluster(World([], SpecOf(ENTRY), false, Status(Pending, []), None, []), Objects(map[], 0), {})

  /** A cluster whose Storage has that one node set, and how far the node set has come. */
  predicate Reached(c: Cluster, e: NodeSetEntry, p: Progress) {
    && SyncsResources(c.storage) && c.storage.spec == SpecOf(e) && c.objects.nodeSets.Keys == {REF}
    && var n := c.objects.nodeSets[REF];
       n.owner.ThisStorage? && n.uid == 0 && n.spec == Recast(SpecOf(ENTRY), ENTRY) && At(n, p)
  }

  /** A Storage that has begun to sync its resources goes on doing so. */
  lemma GoesOnSyncing(c: Cluster, env: ParentEnv)
    requires SyncsResources(c.storage)
    ensures SyncsResources(ParentPass(c, env).storage)
  {
    Safety.PassMoves(c.storage, Answers(c, env));
  }

  lemma PushesOne(c: Cluster, e: NodeSetEntry)
    requires c.storage.spec == SpecOf(e) && RefOf(e) == REF && c.objects.nodeSets.Keys <= {REF}
    requires REF in c.objects.nodeSets ==> c.objects.nodeSets[REF].owner.ThisStorage?
    ensures Synced(c, PARENT.env).0 == Push(c.objects, SpecOf(e), e, true).0
  {
    var o := c.objects;
    var next := Push(o, SpecOf(e), e, true).0;
    assert [e][1..] == [] && [true][1..] == [];
    assert PushAll(o, SpecOf(e), [e], [true]) == (next, true);
    assert RefOf([e][0]) == REF;
    assert Unwanted(next.nodeSets, [e]) == {};
    assert Deleted(next.nodeSets, {}) == next.nodeSets;
  }

  /** Three passes of the parent create the child. */
  lemma ChildIsCreated()
    ensures NewCluster(START) && Reached(ClusterRun(START, [PARENT, PARENT, PARENT]), ENTRY, Blank)
  {
    var one, two := ClusterStep(START, PARENT), ClusterStep(ClusterStep(START, PARENT), PARENT);
    assert [PARENT] == [] + [PARENT] && [PARENT, PARENT] == [PARENT] + [PARENT];
    assert [PARENT, PARENT, PARENT] == [PARENT, PARENT] + [PARENT];
    RunAppends(START, [], PARENT);
    RunAppends(START, [PARENT], PARENT);
    RunAppends(START, [PARENT, PARENT], PARENT);
    assert one.storage.status.conditions != [] && one.storage.status.state.Pending? && one.objects == START.objects;
    assert SyncsResources(two.storage) && two.objects == START.objects;
    GoesOnSyncing(two, PARENT.env);
    PushesOne(two, ENTRY);
  }

  lemma ChildGoesOn(events: seq<ClusterEvent>, p: Progress) returns (more: seq<ClusterEvent>)
    requires Reached(ClusterRun(START, events), ENTRY, p) && !p.Serving?
    requires p.Scaling? ==> Child.Rebuilt(ClusterRun(START, events).objects.nodeSets[REF]).ready == 1
    ensures Reached(ClusterRun(START, more), ENTRY, Next(p))
  {
    var e := OnChild(REF, Own(WELL));
    more := events + [e];
    RunAppends(START, events, e);
    ChildChanges(ClusterRun(START, events), REF, Own(WELL));
    ChildAdvances(ClusterRun(START, events).objects.nodeSets[REF], p);
  }

  /** A stale certificate in a run from a new cluster: the child is certified, then the spec is edited
      without another number of nodes, and the parent pushes it. */
  lemma StaleHappens() returns (events: seq<ClusterEvent>)
    ensures NewCluster(START) && HoldsStale(ClusterRun(START, events), REF, 0)
    ensures var v := ClusterRun(START, events); v.storage.spec.nodeSets.Some? && Listed(Entries(v.storage), REF)
  {
    ChildIsCreated();
    events := ChildGoesOn([PARENT, PARENT, PARENT], Blank);
    events := ChildGoesOn(events, Reported);
    events := ChildGoesOn(events, Unprepared);
    events := ChildGoesOn(events, Prepared);
    events := ReplicasAreReady(events);
    events := ChildGoesOn(events, Scaling);
    events := EditIsPushed(events);
  }

  lemma ReplicasAreReady(events: seq<ClusterEvent>) returns (more: seq<ClusterEvent>)
    requires Reached(ClusterRun(START, events), ENTRY, Scaling)
    ensures Reached(ClusterRun(START, more), ENTRY, Scaling)
    ensures Child.Rebuilt(ClusterRun(START, more).objects.nodeSets[REF]).ready == 1
  {
    var e := OnChild(REF, ChildChange.Replicas(1));
    more := events + [e];
    RunAppends(START, events, e);
    ChildChanges(ClusterRun(START, events), REF, ChildChange.Replicas(1));
  }

  lemma PushRaises(o: Objects)
    requires REF in o.nodeSets && o.nodeSets[REF].owner.ThisStorage?
    requires o.nodeSets[REF].spec == Recast(SpecOf(ENTRY), ENTRY)
    ensures var n, after := o.nodeSets[REF], Push(o, SpecOf(EDITED), EDITED, true).0.nodeSets;
            && REF in after && after[REF].uid == n.uid && after[REF].status == n.status
            && after[REF].generation == n.generation + 1
  {
  }

  lemma PushOutdates(v: Cluster)
    requires Reached(v, EDITED, Serving)
    ensures HoldsStale(ParentPass(v, PARENT.env), REF, 0)
  {
    PushRaises(v.objects);
    PushesOne(v, EDITED);
    assert ParentPass(v, PARENT.env).objects == Push(v.objects, SpecOf(EDITED), EDITED, true).0;
  }

  lemma EditIsPushed(events: seq<ClusterEvent>) returns (more: seq<ClusterEvent>)
    requires Reached(ClusterRun(START, events), ENTRY, Serving)
    ensures HoldsStale(ClusterRun(START, more), REF, 0)
    ensures var v := ClusterRun(START, more); v.storage.spec.nodeSets.Some? && Listed(Entries(v.storage), REF)
  {
    var edit := AroundStorage(EditSpec(SpecOf(EDITED)));
    more := events + [edit] + [PARENT];
    RunAppends(START, events, edit);
    RunAppends(START, events + [edit], PARENT);
    assert SpecOf(EDITED).nodeSets.value[0] == EDITED && SpecOf(ENTRY).nodeSets.value[0] == ENTRY;
    var v := ClusterRun(START, events + [edit]);
    PushOutdates(v);
    assert ClusterRun(START, more).storage.spec == SpecOf(EDITED) && RefOf([EDITED][0]) == REF;
  }
}
