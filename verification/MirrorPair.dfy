/** Two RemoteStorageNodeSets of the same namespace, whose mirrors share the copies in the data cluster:
    what cleaning up after one of them does to the other. */
module MirrorPair {
  import opened Wrappers
  import opened Conditions
  import opened MirrorModel
  import opened MirrorSafety
  import opened MirrorProgress

  datatype Side = One | Two

  datatype Pair = Pair(
    one: Option<Remote>, two: Option<Remote>, remote: map<Ref, Object>, local: map<Ref, Object>,
    setOne: Option<NodeSet>, setTwo: Option<NodeSet>)

  function Other(side: Side): Side { if side.One? then Two else One }

  /** The world of one of the two mirrors. */
  function View(p: Pair, side: Side): World {
    match side
    case One => World(p.one, p.remote, p.local, p.setOne)
    case Two => World(p.two, p.remote, p.local, p.setTwo)
  }

  function With(p: Pair, side: Side, w: World): Pair {
    match side
    case One => p.(one := w.mirror, remote := w.remote, local := w.local, setOne := w.nodeSet)
    case Two => p.(two := w.mirror, remote := w.remote, local := w.local, setTwo := w.nodeSet)
  }

  /** `getAnotherStorageNodeSets`: the other node set is there and belongs to the same Storage. */
  predicate OtherSet(p: Pair, side: Side) {
    var other, mine := View(p, Other(side)).nodeSet, View(p, side).mirror;
    other.Some? && mine.Some? && other.value.storage == mine.value.spec.storage
  }

  function Seen(p: Pair, side: Side, env: PassEnv): PassEnv {
    if env.others.None? then env else env.(others := Some(OtherSet(p, side)))
  }

  datatype PairEvent = PairEvent(side: Side, event: Event)

  function PairStep(p: Pair, e: PairEvent): Pair {
    With(p, e.side, Step(View(p, e.side), if e.event.Pass? then Pass(Seen(p, e.side, e.event.env)) else e.event))
  }

  function PairRun(p: Pair, events: seq<PairEvent>): Pair
    decreases |events|
  {
    if events == [] then p else PairStep(PairRun(p, events[..|events| - 1]), events[|events| - 1])
  }

  predicate NewPair(p: Pair) { Initial(View(p, One)) && Initial(View(p, Two)) }

  ghost predicate PairInv(p: Pair) { Inv(View(p, One)) && Inv(View(p, Two)) }

  lemma {:induction false} PairInvHolds(p: Pair, events: seq<PairEvent>)
    requires PairInv(p)
    ensures PairInv(PairRun(p, events))
    decreases |events|
  {
    if events != [] {
      var v, e := PairRun(p, events[..|events| - 1]), events[|events| - 1];
      PairInvHolds(p, events[..|events| - 1]);
      EventKeepsInv(View(v, e.side), if e.event.Pass? then Pass(Seen(v, e.side, e.event.env)) else e.event);
    }
  }

  // ----- What cleaning up after one does to the copies -----

  /** The mirror has listed an object and found its copy, and is about to clean it up: its spec has
      dropped the object, or it is being deleted altogether. */
  ghost predicate CleansUp(w: World, env: PassEnv, r: Ref) {
    && w.mirror.Some? && w.mirror.value.finalizer && Listed(w.mirror.value.entries, r) && r in w.local
    && HealthyButForStatus(env)
    && if w.mirror.value.deleting then env.nodeSetDeleted
       else r !in RemoteRefs(w.mirror.value.spec) && Steady(w) && AllInOrder(w)
  }

  lemma CleanedUp(w: World, env: PassEnv, r: Ref)
    requires ListDistinct(w) && CleansUp(w, env, r)
    ensures r in Reconcile(w, env).world.local
       <==> PrimaryDatabase in w.local[r].annotations || r in env.deleteFails
  {
    var m := w.mirror.value;
    if m.deleting {
      CleanUpDecides(w.(nodeSet := Erased(w.nodeSet)), m.entries, [], env, r);
    } else {
      assert r in Candidates(m.entries, RemoteRefs(m.spec));
      PassReachesCleanUp(w, env);
      CleanUpDecides(PushNodeSet(w), m.entries, RemoteRefs(m.spec), env, r);
    }
  }

  /** The other mirror asks for the object. */
  predicate Wants(w: World, r: Ref) {
    w.mirror.Some? && !w.mirror.value.deleting && r in RemoteRefs(w.mirror.value.spec)
  }

  /** Cleaning up does not spare what the other mirror needs: over any run of two mirrors, when one drops
      an object or is deleted while the other asks for the same object, the copy survives the pass if and
      only if it bears a database annotation or its deletion fails. */
  lemma SharedCopySurvivesIff(p: Pair, events: seq<PairEvent>, side: Side, env: PassEnv, r: Ref)
    requires NewPair(p)
    ensures var v := PairRun(p, events);
            CleansUp(View(v, side), env, r) && Wants(View(v, Other(side)), r)
            ==> (r in PairStep(v, PairEvent(side, Pass(env))).local
                 <==> PrimaryDatabase in v.local[r].annotations || r in env.deleteFails)
  {
    var v := PairRun(p, events);
    PairInvHolds(p, events);
    if CleansUp(View(v, side), env, r) {
      assert CleansUp(View(v, side), Seen(v, side, env), r);
      CleanedUp(View(v, side), Seen(v, side, env), r);
    }
  }

  /** The other mirror brings it back: after as many of its healthy passes as its world then weighs. */
  lemma OtherBringsItBack(w: World, envs: seq<PassEnv>, r: Ref)
    requires Steady(w) && Inv(w) && NoneAbsent(w) && Wants(w, r)
    requires |envs| >= Weight(w) && forall i :: 0 <= i < |envs| ==> Healthy(envs[i])
    ensures r in Passes(w, envs).local
  {
    var v := Passes(w, envs);
    PassesDescend(w, envs);
    PassesKeepSpec(w, envs);
    WeightlessIsInOrder(v);
    var i :| 0 <= i < |RemoteRefs(v.mirror.value.spec)| && RemoteRefs(v.mirror.value.spec)[i] == r;
    assert InOrder(v, v.mirror.value.entries, r);
  }

  lemma WeightlessIsInOrder(w: World)
    requires Steady(w) && Weight(w) == 0
    ensures AllInOrder(w)
  {
    var m := w.mirror.value;
    SumIsZero(w, m.spec.storage, m.entries, RemoteRefs(m.spec));
  }

  lemma PassKeepsSpec(w: World, env: PassEnv)
    requires w.mirror.Some? && !w.mirror.value.deleting
    ensures var v := Reconcile(w, env).world;
            v.remote == w.remote && v.mirror.Some? && v.mirror.value.spec == w.mirror.value.spec
            && !v.mirror.value.deleting
  {
  }

  lemma {:induction false} PassesKeepSpec(w: World, envs: seq<PassEnv>)
    requires w.mirror.Some? && !w.mirror.value.deleting
    ensures var v := Passes(w, envs);
            v.remote == w.remote && v.mirror.Some? && v.mirror.value.spec == w.mirror.value.spec
            && !v.mirror.value.deleting
    decreases |envs|
  {
    if envs != [] {
      PassesKeepSpec(w, envs[..|envs| - 1]);
      PassKeepsSpec(Passes(w, envs[..|envs| - 1]), envs[|envs| - 1]);
    }
  }

  // ----- It does happen -----

  const SPEC := Spec("s", ["x"], "")
  const SECRET := Ref("", "v1", "Secret", "x")
  const PLAIN := Object(Meta("1", "", "", [], [], []), map[], "", "", [], "")
  const REMOTE := map r | r in RemoteRefs(SPEC) :: PLAIN
  const WELL := PassEnv(true, true, {}, {}, true, true, true, PLAIN, true, true, true, Some(false), {}, {}, {}, true)
  const START := Pair(None, None, REMOTE, map[], None, None)

  /** No database has claimed anything. */
  predicate Unclaimed(objects: map<Ref, Object>) {
    forall r :: r in objects ==> PrimaryDatabase !in objects[r].annotations
  }

  lemma SyncKeepsUnclaimed(w: World, storage: string, entries: seq<RemoteResource>, r: Ref, env: PassEnv)
    requires Listed(entries, r) && Unclaimed(w.remote) && Unclaimed(w.local)
    ensures var s := SyncObject(w, storage, entries, r, env); !s.Continue? ==> Unclaimed(s.local)
  {
    if r in w.remote {
      assert PrimaryDatabase !in Stored(r, CreateResource(r, w.remote[r]), env.server).annotations;
      if r in w.local {
        var wanted := Wanted(r, w.local[r], w.remote[r], storage);
        assert PrimaryDatabase !in Patched(w.local[r], wanted, env.server).annotations;
      }
    }
  }

  lemma {:induction false} CleaningKeepsUnclaimed(local: map<Ref, Object>, entries: seq<RemoteResource>,
                                                  candidates: seq<Ref>, others: bool, env: PassEnv)
    requires Unclaimed(local)
    ensures Unclaimed(CleanEach(local, entries, candidates, others, env).local)
    decreases |candidates|
  {
    if candidates != [] {
      var k, rest := candidates[0], candidates[1..];
      if k in env.inconvertible || k in env.localUnreadable {
      } else if k in local {
        CleaningKeepsUnclaimed(Release(local, k, others, env), RemoveEntry(entries, k), rest, others, env);
      } else {
        CleaningKeepsUnclaimed(local, entries, rest, others, env);
      }
    }
  }

  lemma StagesKeepUnclaimed(w: World, entries: seq<RemoteResource>, storage: string, refs: seq<Ref>, env: PassEnv)
    requires Unclaimed(w.remote) && Unclaimed(w.local)
    ensures var s := InitEntries(w, entries, refs); !s.Continue? ==> Unclaimed(s.local)
    ensures InitEntries(w, entries, refs).Continue? ==>
              var s := SyncObjects(w, storage, entries, refs, env); !s.Continue? ==> Unclaimed(s.local)
    ensures var s := CleanUp(w, entries, refs, env); !s.Continue? ==> Unclaimed(s.local)
  {
    if !InitEntries(w, entries, refs).Continue? {
      var r := InitStopsSomewhere(w, entries, refs);
    } else if !SyncObjects(w, storage, entries, refs, env).Continue? {
      var r := SyncStopsSomewhere(w, storage, entries, refs, env);
      SyncKeepsUnclaimed(w, storage, entries, r, env);
    }
    if env.others.Some? {
      CleaningKeepsUnclaimed(w.local, entries, Candidates(entries, refs), env.others.value, env);
    }
  }

  lemma PassKeepsUnclaimed(w: World, env: PassEnv)
    requires w.mirror.Some? && !w.mirror.value.deleting && Unclaimed(w.remote) && Unclaimed(w.local)
    ensures Unclaimed(Reconcile(w, env).world.local)
  {
    var m := w.mirror.value;
    var v := w.(mirror := Some(m.(finalizer := true)));
    StagesKeepUnclaimed(v, m.entries, m.spec.storage, RemoteRefs(m.spec), env);
    StagesKeepUnclaimed(PushNodeSet(v), m.entries, m.spec.storage, RemoteRefs(m.spec), env);
    assert m.finalizer ==> v == w;
  }

  lemma {:induction false} PassesKeepUnclaimed(w: World, envs: seq<PassEnv>)
    requires w.mirror.Some? && !w.mirror.value.deleting && Unclaimed(w.remote) && Unclaimed(w.local)
    ensures Unclaimed(Passes(w, envs).local)
    decreases |envs|
  {
    if envs != [] {
      var before := envs[..|envs| - 1];
      PassesKeepUnclaimed(w, before);
      PassesKeepSpec(w, before);
      PassKeepsUnclaimed(Passes(w, before), envs[|envs| - 1]);
    }
  }

  lemma RunAppends(p: Pair, events: seq<PairEvent>, e: PairEvent)
    ensures PairRun(p, events + [e]) == PairStep(PairRun(p, events), e)
  {
    assert (events + [e])[..|events|] == events;
  }

  lemma OnePass(p: Pair, side: Side)
    ensures var v := PairStep(p, PairEvent(side, Pass(WELL)));
            && View(v, side) == Reconcile(View(p, side), Seen(p, side, WELL)).world
            && View(v, Other(side)).mirror == View(p, Other(side)).mirror
            && View(v, Other(side)).nodeSet == View(p, Other(side)).nodeSet
    ensures Healthy(Seen(p, side, WELL)) && Seen(p, side, WELL).finalizerWritten
  {
  }

  lemma PassesAppend(w: World, envs: seq<PassEnv>, env: PassEnv)
    ensures Passes(w, envs + [env]) == Reconcile(Passes(w, envs), env).world
  {
    assert (envs + [env])[..|envs|] == envs;
  }

  /** So many healthy passes of one mirror, in a run of the pair and by themselves. */
  lemma {:induction false} PassesOfOne(events: seq<PairEvent>, side: Side, n: nat)
    returns (more: seq<PairEvent>, envs: seq<PassEnv>)
    ensures var v, u := PairRun(START, events), PairRun(START, more);
            && View(u, side) == Passes(View(v, side), envs)
            && View(u, Other(side)).mirror == View(v, Other(side)).mirror
            && View(u, Other(side)).nodeSet == View(v, Other(side)).nodeSet
    ensures |envs| == n && forall i :: 0 <= i < n ==> Healthy(envs[i]) && envs[i].finalizerWritten
  {
    if n == 0 {
      more, envs := events, [];
    } else {
      more, envs := PassesOfOne(events, side, n - 1);
      var e, env := PairEvent(side, Pass(WELL)), Seen(PairRun(START, more), side, WELL);
      RunAppends(START, more, e);
      OnePass(PairRun(START, more), side);
      PassesAppend(View(PairRun(START, events), side), envs, env);
      more, envs := more + [e], envs + [env];
    }
  }

  /** One mirror has settled: all is in order, and its node set is there. */
  ghost predicate Settled(w: World) {
    && w.mirror.Some? && w.mirror.value.spec == SPEC && !w.mirror.value.deleting && w.mirror.value.finalizer
    && w.remote == REMOTE && AllInOrder(w) && Unclaimed(w.local)
    && w.nodeSet.Some? && w.nodeSet.value.storage == "s"
  }

  lemma LastPassSettles(w: World, env: PassEnv)
    requires Steady(w) && Inv(w) && NoneAbsent(w)
    requires w.mirror.value.spec == SPEC && w.remote == REMOTE && Unclaimed(w.local)
    requires Healthy(env)
    ensures Weight(w) == 0 ==> Settled(Reconcile(w, env).world)
  {
    PassDescends(w, env);
    PassKeepsSpec(w, env);
    PassKeepsUnclaimed(w, env);
    if Weight(w) == 0 {
      FinishedIsSettled(w, env, env);
      SettledRefs(Reconcile(w, env).world);
    }
  }

  /** From its first pass on, a mirror settles in as many healthy passes as its world weighs, and one. */
  lemma PassesSettle(w: World, envs: seq<PassEnv>)
    requires Steady(w) && Inv(w) && NoneAbsent(w)
    requires w.mirror.value.spec == SPEC && w.remote == REMOTE && Unclaimed(w.local)
    requires |envs| == Weight(w) + 1 && forall i :: 0 <= i < |envs| ==> Healthy(envs[i])
    ensures Settled(Passes(w, envs))
  {
    var before := envs[..|envs| - 1];
    PassesDescend(w, before);
    PassesKeepSpec(w, before);
    PassesKeepUnclaimed(w, before);
    LastPassSettles(Passes(w, before), envs[|envs| - 1]);
  }

  /** The first pass over a new mirror sets the finalizer. */
  lemma FirstPass(w: World, env: PassEnv)
    requires w.mirror == Some(Remote(SPEC, false, false, [], NEW_STATUS)) && w.remote == REMOTE && Unclaimed(w.local)
    requires Inv(w) && Healthy(env) && env.finalizerWritten
    ensures var v := Reconcile(w, env).world;
            Steady(v) && NoneAbsent(v) && v.mirror.value.spec == SPEC && v.remote == REMOTE && Unclaimed(v.local)
  {
    var held := w.(mirror := Some(w.mirror.value.(finalizer := true)));
    assert Reconcile(w, env) == Reconcile(held, env);
    assert forall i :: 0 <= i < |RemoteRefs(SPEC)| ==> RemoteRefs(SPEC)[i] in REMOTE;
    assert Candidates([], RemoteRefs(SPEC)) == [];
    PassDescends(held, env);
    PassKeepsSpec(held, env);
    PassKeepsUnclaimed(held, env);
  }

  lemma OneSettles(events: seq<PairEvent>, side: Side) returns (more: seq<PairEvent>)
    requires var v := PairRun(START, events);
             PairInv(v) && View(v, side).mirror.None? && v.remote == REMOTE && Unclaimed(v.local)
    ensures var v, u := PairRun(START, events), PairRun(START, more);
            && PairInv(u) && Settled(View(u, side))
            && View(u, Other(side)).mirror == View(v, Other(side)).mirror
            && View(u, Other(side)).nodeSet == View(v, Other(side)).nodeSet
  {
    var created := PairEvent(side, CreateRemote(SPEC));
    RunAppends(START, events, created);
    PairInvHolds(START, events + [created]);
    var envs: seq<PassEnv>;
    more, envs := PassesOfOne(events + [created], side, 1);
    var w := View(PairRun(START, events + [created]), side);
    assert envs == [envs[0]] && Passes(w, envs[..0]) == w;
    assert View(PairRun(START, more), side) == Reconcile(w, envs[0]).world;
    FirstPass(w, envs[0]);
    PairInvHolds(START, more);
    var first := View(PairRun(START, more), side);
    more, envs := PassesOfOne(more, side, Weight(first) + 1);
    PassesSettle(first, envs);
    PairInvHolds(START, more);
  }

  lemma ListsTheSecret(w: World)
    requires Settled(w)
    ensures InOrder(w, w.mirror.value.entries, SECRET) && Wants(w, SECRET)
    ensures PrimaryDatabase !in w.local[SECRET].annotations
  {
    assert RemoteRefs(SPEC)[0] == SECRET;
    assert InOrder(w, w.mirror.value.entries, RemoteRefs(w.mirror.value.spec)[0]);
  }

  /** The first of two mirrors is on its way out, and the second has settled. */
  lemma TakenAfterDeletion(p: Pair)
    requires PairInv(p) && Settled(View(p, Two))
    requires p.one.Some? && p.one.value.deleting && p.one.value.finalizer && p.one.value.spec == SPEC
    requires Listed(p.one.value.entries, SECRET)
    ensures CleansUp(View(p, One), WELL, SECRET) && OtherSet(p, One)
    ensures SECRET !in PairStep(p, PairEvent(One, Pass(WELL))).local
  {
    ListsTheSecret(View(p, Two));
    assert CleansUp(View(p, One), Seen(p, One, WELL), SECRET);
    CleanedUp(View(p, One), Seen(p, One, WELL), SECRET);
  }

  lemma BothSettle() returns (events: seq<PairEvent>)
    ensures var p := PairRun(START, events);
            && PairInv(p) && Settled(View(p, Two))
            && p.one.Some? && p.one.value.finalizer && p.one.value.spec == SPEC && Listed(p.one.value.entries, SECRET)
  {
    assert START.remote == REMOTE && PairRun(START, []) == START;
    events := OneSettles([], One);
    ListsTheSecret(View(PairRun(START, events), One));
    events := OneSettles(events, Two);
  }

  /** The first mirror is deleted. */
  lemma OneIsDeleted(p: Pair)
    requires p.one.Some? && p.one.value.finalizer
    ensures PairStep(p, PairEvent(One, DeleteRemote)) == p.(one := Some(p.one.value.(deleting := true)))
  {
  }

  /** A shared copy is taken from the mirror that needs it: two mirrors of one Storage settle, the first
      is deleted, and its cleaning up deletes the Secret the second asks for and has in order, although the
      second one's node set is there. */
  lemma SharedCopyIsTaken() returns (events: seq<PairEvent>)
    ensures var v := PairRun(START, events);
            && NewPair(START) && CleansUp(View(v, One), WELL, SECRET) && OtherSet(v, One)
            && Wants(View(v, Two), SECRET) && InOrder(View(v, Two), v.two.value.entries, SECRET)
            && SECRET !in PairStep(v, PairEvent(One, Pass(WELL))).local
  {
    events := BothSettle();
    var p := PairRun(START, events);
    RunAppends(START, events, PairEvent(One, DeleteRemote));
    OneIsDeleted(p);
    events := events + [PairEvent(One, DeleteRemote)];
    var v := p.(one := Some(p.one.value.(deleting := true)));
    assert View(v, Two) == View(p, Two) && PairInv(v);
    ListsTheSecret(View(v, Two));
    TakenAfterDeletion(v);
  }
}
