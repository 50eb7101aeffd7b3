/** When the mirror settles: with a stable management cluster and calls that succeed, each pass that
    stops early leaves less to do, and the last pass is reached exactly when no unused entry has
    lost its copy. */
module MirrorProgress {
  import opened Wrappers
  import opened Conditions
  import opened MirrorModel
  import opened MirrorSafety

  // ----- What is left to do -----

  function EntryWeight(entries: seq<RemoteResource>, r: Ref): nat {
    if !Listed(entries, r) then 2 else if !Synced(entries[EntryOf(entries, r)]) then 1 else 0
  }

  /** An absent object weighs 2: creation does not name its storage owner, so a patch follows. */
  function ObjectWeight(w: World, storage: string, r: Ref): nat
    requires r in w.remote
  {
    if r !in w.local then 2 else if !Same(w.local[r], Wanted(r, w.local[r], w.remote[r], storage)) then 1 else 0
  }

  function RefWeight(w: World, storage: string, entries: seq<RemoteResource>, r: Ref): nat
    requires r in w.remote
  {
    EntryWeight(entries, r) + ObjectWeight(w, storage, r)
  }

  function RefsWeight(w: World, storage: string, entries: seq<RemoteResource>, refs: seq<Ref>): nat
    requires forall i :: 0 <= i < |refs| ==> refs[i] in w.remote
  {
    if refs == [] then 0
    else RefWeight(w, storage, entries, refs[0]) + RefsWeight(w, storage, entries, refs[1..])
  }

  /** A mirror in use, all of whose objects are there to be copied. */
  predicate Steady(w: World) {
    && w.mirror.Some? && !w.mirror.value.deleting && w.mirror.value.finalizer
    && forall i :: 0 <= i < |RemoteRefs(w.mirror.value.spec)| ==> RemoteRefs(w.mirror.value.spec)[i] in w.remote
  }

  function Weight(w: World): nat
    requires Steady(w)
  {
    var o := w.mirror.value;
    RefsWeight(w, o.spec.storage, o.entries, RemoteRefs(o.spec)) + |Candidates(o.entries, RemoteRefs(o.spec))|
  }

  /** Every call succeeds, except that releasing a copy may fail. */
  predicate Healthy(env: PassEnv) { env.statusWritten && HealthyButForStatus(env) }

  predicate HealthyButForStatus(env: PassEnv) {
    && env.remoteUnreadable == {} && env.localUnreadable == {}
    && env.created && env.diffed && env.patched && env.nodeSetSynced && env.nodeSetReadable
    && env.others.Some? && env.inconvertible == {} && env.statusCopied
  }

  /** No entry outlives both its place in the spec and its copy. */
  predicate NoneAbsent(w: World)
    requires w.mirror.Some?
  {
    var candidates := Candidates(w.mirror.value.entries, RemoteRefs(w.mirror.value.spec));
    forall r :: r in candidates ==> r in w.local
  }

  // ----- Sums -----

  lemma {:induction false} SumDescends(w: World, w': World, storage: string, entries: seq<RemoteResource>,
                                       entries': seq<RemoteResource>, refs: seq<Ref>, r: Ref)
    requires forall i :: 0 <= i < |refs| ==> refs[i] in w.remote && refs[i] in w'.remote
    requires forall i :: 0 <= i < |refs| && refs[i] != r ==>
               RefWeight(w', storage, entries', refs[i]) == RefWeight(w, storage, entries, refs[i])
    requires r in refs ==> RefWeight(w', storage, entries', r) < RefWeight(w, storage, entries, r)
    ensures RefsWeight(w', storage, entries', refs) <= RefsWeight(w, storage, entries, refs)
    ensures r in refs ==> RefsWeight(w', storage, entries', refs) < RefsWeight(w, storage, entries, refs)
  {
    if refs != [] {
      SumDescends(w, w', storage, entries, entries', refs[1..], r);
    }
  }

  lemma {:induction false} SumIsZero(w: World, storage: string, entries: seq<RemoteResource>, refs: seq<Ref>)
    requires forall i :: 0 <= i < |refs| ==> refs[i] in w.remote
    ensures RefsWeight(w, storage, entries, refs) == 0 <==> forall i :: 0 <= i < |refs| ==> InOrder(w, entries, refs[i])
  {
    if refs != [] {
      var r, rest := refs[0], refs[1..];
      SumIsZero(w, storage, entries, rest);
      if r in w.local { NothingToPatch(r, w.local[r], w.remote[r], storage); }
      assert RefWeight(w, storage, entries, r) == 0 <==> InOrder(w, entries, r);
      if forall i :: 0 <= i < |rest| ==> InOrder(w, entries, rest[i]) {
        forall i | 0 < i < |refs| ensures InOrder(w, entries, refs[i]) { assert refs[i] == rest[i - 1]; }
      }
      if forall i :: 0 <= i < |refs| ==> InOrder(w, entries, refs[i]) {
        forall i | 0 <= i < |rest| ensures InOrder(w, entries, rest[i]) { assert rest[i] == refs[i + 1]; }
      }
    }
  }

  // ----- How the list changes -----

  lemma {:induction false} AppendFinds(entries: seq<RemoteResource>, e: RemoteResource, r: Ref)
    requires !Listed(entries, e.ref)
    ensures Listed(entries + [e], r) <==> Listed(entries, r) || r == e.ref
    ensures Listed(entries + [e], r) ==>
              (entries + [e])[EntryOf(entries + [e], r)] == if r == e.ref then e else entries[EntryOf(entries, r)]
  {
    if entries != [] {
      AppendFinds(entries[1..], e, r);
      assert (entries + [e])[1..] == entries[1..] + [e];
    }
  }

  lemma {:induction false} AppendCandidates(entries: seq<RemoteResource>, e: RemoteResource, refs: seq<Ref>)
    requires e.ref in refs
    ensures Candidates(entries + [e], refs) == Candidates(entries, refs)
  {
    if entries != [] {
      AppendCandidates(entries[1..], e, refs);
      assert (entries + [e])[1..] == entries[1..] + [e];
    }
  }

  lemma {:induction false} SameRefsSameCandidates(a: seq<RemoteResource>, b: seq<RemoteResource>, refs: seq<Ref>)
    requires |a| == |b| && forall i :: 0 <= i < |a| ==> a[i].ref == b[i].ref
    ensures Candidates(a, refs) == Candidates(b, refs)
  {
    if a != [] { SameRefsSameCandidates(a[1..], b[1..], refs); }
  }

  lemma MarkFinds(entries: seq<RemoteResource>, k: Ref, ok: bool, r: Ref)
    requires Listed(entries, k)
    ensures var m := Mark(entries, k, ok);
            && EntryOf(m, r) == EntryOf(entries, r)
            && (Listed(entries, r) ==> m[EntryOf(m, r)] == if r == k then Marked(entries[EntryOf(entries, k)], ok)
                                                           else entries[EntryOf(entries, r)])
  {
    var m := Mark(entries, k, ok);
    assert forall i :: 0 <= i < |entries| ==> m[i].ref == entries[i].ref;
    SamePlaces(entries, m, r);
  }

  lemma {:induction false} SamePlaces(a: seq<RemoteResource>, b: seq<RemoteResource>, r: Ref)
    requires |a| == |b| && forall i :: 0 <= i < |a| ==> a[i].ref == b[i].ref
    ensures EntryOf(a, r) == EntryOf(b, r)
  {
    if a != [] { SamePlaces(a[1..], b[1..], r); }
  }

  lemma {:induction false} KeepFinds(entries: seq<RemoteResource>, gone: set<Ref>, r: Ref)
    requires r !in gone
    ensures Listed(Keep(entries, gone), r) <==> Listed(entries, r)
    ensures Listed(entries, r) ==>
              Keep(entries, gone)[EntryOf(Keep(entries, gone), r)] == entries[EntryOf(entries, r)]
  {
    if entries != [] {
      KeepFinds(entries[1..], gone, r);
      var rest := Keep(entries[1..], gone);
      assert ([entries[0]] + rest)[1..] == rest;
    }
  }

  // ----- Each stopping step leaves less to do -----

  /** Only that object's own copy may have changed. */
  ghost predicate OnlyAt(r: Ref, local: map<Ref, Object>, local': map<Ref, Object>) {
    forall k :: k != r ==> (k in local' <==> k in local) && (k in local ==> local'[k] == local[k])
  }

  lemma PatchWeighsNothing(w: World, storage: string, r: Ref, server: Object)
    requires r in w.remote && r in w.local
    ensures var patched := Patched(w.local[r], Wanted(r, w.local[r], w.remote[r], storage), server);
            ObjectWeight(w.(local := w.local[r := patched]), storage, r) == 0
  {
    var patched := Patched(w.local[r], Wanted(r, w.local[r], w.remote[r], storage), server);
    PatchIsEnough(r, w.local[r], w.remote[r], storage, server);
    NothingToPatch(r, patched, w.remote[r], storage);
  }

  lemma SyncObjectDescends(w: World, storage: string, entries: seq<RemoteResource>, r: Ref, env: PassEnv)
    requires Listed(entries, r) && r in w.remote && Healthy(env)
    requires !SyncObject(w, storage, entries, r, env).Continue?
    ensures var s := SyncObject(w, storage, entries, r, env);
            && s.Report? && s.entries == Mark(entries, r, true) && OnlyAt(r, w.local, s.local)
            && ObjectWeight(w.(local := s.local), storage, r) < RefWeight(w, storage, entries, r)
  {
    if r in w.local { PatchWeighsNothing(w, storage, r, env.server); }
  }

  lemma MarkWeighs(entries: seq<RemoteResource>, r: Ref, k: Ref)
    requires Listed(entries, r)
    ensures EntryWeight(Mark(entries, r, true), k) == if k == r then 0 else EntryWeight(entries, k)
  {
    MarkFinds(entries, r, true, k);
  }

  lemma {:induction false} SyncStopsSomewhere(w: World, storage: string, entries: seq<RemoteResource>,
                                              refs: seq<Ref>, env: PassEnv) returns (r: Ref)
    requires forall i :: 0 <= i < |refs| ==> Listed(entries, refs[i])
    requires !SyncObjects(w, storage, entries, refs, env).Continue?
    ensures r in refs && Listed(entries, r)
    ensures SyncObjects(w, storage, entries, refs, env) == SyncObject(w, storage, entries, r, env)
  {
    r := refs[0];
    if SyncObject(w, storage, entries, r, env).Continue? {
      r := SyncStopsSomewhere(w, storage, entries, refs[1..], env);
    }
  }

  lemma MarkDescends(w: World, local': map<Ref, Object>, storage: string, entries: seq<RemoteResource>,
                     refs: seq<Ref>, r: Ref)
    requires forall i :: 0 <= i < |refs| ==> refs[i] in w.remote
    requires r in refs && r in w.remote && Listed(entries, r) && OnlyAt(r, w.local, local')
    requires ObjectWeight(w.(local := local'), storage, r) < RefWeight(w, storage, entries, r)
    ensures RefsWeight(w.(local := local'), storage, Mark(entries, r, true), refs)
          < RefsWeight(w, storage, entries, refs)
    ensures Candidates(Mark(entries, r, true), refs) == Candidates(entries, refs)
  {
    var w' := w.(local := local');
    MarkWeighs(entries, r, r);
    forall i | 0 <= i < |refs| && refs[i] != r
      ensures RefWeight(w', storage, Mark(entries, r, true), refs[i]) == RefWeight(w, storage, entries, refs[i])
    {
      MarkWeighs(entries, r, refs[i]);
    }
    SumDescends(w, w', storage, entries, Mark(entries, r, true), refs, r);
    SameRefsSameCandidates(entries, Mark(entries, r, true), refs);
  }

  lemma SyncDescends(w: World, storage: string, entries: seq<RemoteResource>, refs: seq<Ref>, env: PassEnv)
    requires forall i :: 0 <= i < |refs| ==> Listed(entries, refs[i]) && refs[i] in w.remote
    requires Healthy(env) && !SyncObjects(w, storage, entries, refs, env).Continue?
    ensures var s := SyncObjects(w, storage, entries, refs, env);
            && s.Report? && Candidates(s.entries, refs) == Candidates(entries, refs)
            && RefsWeight(w.(local := s.local), storage, s.entries, refs) < RefsWeight(w, storage, entries, refs)
            && (forall x :: x !in refs && x in w.local ==> x in s.local)
  {
    var r := SyncStopsSomewhere(w, storage, entries, refs, env);
    SyncObjectDescends(w, storage, entries, r, env);
    MarkDescends(w, SyncObject(w, storage, entries, r, env).local, storage, entries, refs, r);
  }

  lemma {:induction false} InitStopsSomewhere(w: World, entries: seq<RemoteResource>, refs: seq<Ref>) returns (r: Ref)
    requires !InitEntries(w, entries, refs).Continue?
    ensures r in refs && !Listed(entries, r)
    ensures InitEntries(w, entries, refs) == Report(w.local, entries + [NewEntry(r)])
  {
    r := refs[0];
    if Listed(entries, r) { r := InitStopsSomewhere(w, entries, refs[1..]); }
  }

  lemma InitDescends(w: World, storage: string, entries: seq<RemoteResource>, refs: seq<Ref>)
    requires forall i :: 0 <= i < |refs| ==> refs[i] in w.remote
    requires !InitEntries(w, entries, refs).Continue?
    ensures var s := InitEntries(w, entries, refs);
            && s.Report? && s.local == w.local && Candidates(s.entries, refs) == Candidates(entries, refs)
            && RefsWeight(w, storage, s.entries, refs) < RefsWeight(w, storage, entries, refs)
  {
    var r := InitStopsSomewhere(w, entries, refs);
    forall k ensures EntryWeight(entries + [NewEntry(r)], k) == if k == r then 1 else EntryWeight(entries, k) {
      AppendFinds(entries, NewEntry(r), k);
    }
    SumDescends(w, w, storage, entries, entries + [NewEntry(r)], refs, r);
    AppendCandidates(entries, NewEntry(r), refs);
  }

  lemma NoCandidateKept(entries: seq<RemoteResource>, refs: seq<Ref>, gone: set<Ref>)
    requires forall r :: r in Candidates(entries, refs) ==> r in gone
    ensures Candidates(Keep(entries, gone), refs) == []
  {
    var left := Candidates(Keep(entries, gone), refs);
    if left != [] {
      assert left[0] in left;
      KeepMembers(entries, gone, left[0]);
      assert false;
    }
  }

  lemma CleanUpDescends(w: World, storage: string, entries: seq<RemoteResource>, refs: seq<Ref>, env: PassEnv)
    requires forall i :: 0 <= i < |refs| ==> refs[i] in w.remote
    requires Distinct(entries) && Healthy(env) && Candidates(entries, refs) != []
    requires forall r :: r in Candidates(entries, refs) ==> r in w.local
    ensures var s := CleanUp(w, entries, refs, env);
            && s.Report? && Candidates(s.entries, refs) == []
            && RefsWeight(w.(local := s.local), storage, s.entries, refs) == RefsWeight(w, storage, entries, refs)
  {
    var candidates := Candidates(entries, refs);
    var gone := Found(candidates, w.local);
    CandidatesDoNotRepeat(entries, refs);
    CleaningIsExact(w.local, entries, candidates, env.others.value, env);
    CleaningIsLocal(w.local, entries, candidates, env.others.value, env);
    NoCandidateKept(entries, refs, gone);
    forall r | r in refs ensures EntryWeight(Keep(entries, gone), r) == EntryWeight(entries, r) {
      KeepFinds(entries, gone, r);
    }
    SumsAgree(w, w.(local := CleanUp(w, entries, refs, env).local), storage, entries, Keep(entries, gone), refs);
  }

  lemma {:induction false} SumsAgree(w: World, w': World, storage: string, entries: seq<RemoteResource>,
                                     entries': seq<RemoteResource>, refs: seq<Ref>)
    requires w'.remote == w.remote && forall i :: 0 <= i < |refs| ==> refs[i] in w.remote
    requires forall r :: r in refs ==>
               && EntryWeight(entries', r) == EntryWeight(entries, r)
               && (r in w'.local <==> r in w.local) && (r in w.local ==> w'.local[r] == w.local[r])
    ensures RefsWeight(w', storage, entries', refs) == RefsWeight(w, storage, entries, refs)
  {
    if refs != [] { SumsAgree(w, w', storage, entries, entries', refs[1..]); }
  }

  // ----- Each pass -----

  /** What a world weighs, in terms of the parts a stage changes. */
  ghost predicate Lighter(w: World, w': World) {
    && Steady(w) && Steady(w') && NoneAbsent(w') && Weight(w') < Weight(w)
  }

  lemma ReportIsLighter(w: World, s: Stage, env: PassEnv)
    requires Steady(w) && s.Report? && env.statusWritten
    requires var m := w.mirror.value;
             var refs := RemoteRefs(m.spec);
             && (RefsWeight(w.(local := s.local), m.spec.storage, s.entries, refs) + |Candidates(s.entries, refs)|
                   < RefsWeight(w, m.spec.storage, m.entries, refs) + |Candidates(m.entries, refs)|)
             && (forall r :: r in Candidates(s.entries, refs) ==> r in s.local)
    ensures Lighter(w, Settle(w, s, env))
  {
    var m := w.mirror.value;
    WeightOfParts(w.(local := s.local), Settle(w, s, env), m.spec.storage, s.entries, RemoteRefs(m.spec));
  }

  lemma {:induction false} WeightOfParts(w: World, w': World, storage: string, entries: seq<RemoteResource>,
                                         refs: seq<Ref>)
    requires w'.remote == w.remote && w'.local == w.local
    requires forall i :: 0 <= i < |refs| ==> refs[i] in w.remote
    ensures RefsWeight(w', storage, entries, refs) == RefsWeight(w, storage, entries, refs)
  {
    if refs != [] { WeightOfParts(w, w', storage, entries, refs[1..]); }
  }

  lemma PassThatSyncs(w: World, env: PassEnv)
    requires Steady(w) && NoneAbsent(w) && Healthy(env)
    requires var m := w.mirror.value;
             var refs := RemoteRefs(m.spec);
             InitEntries(w, m.entries, refs).Continue? ==>
               !SyncObjects(w, m.spec.storage, m.entries, refs, env).Continue?
    ensures !Reconcile(w, env).finished && Lighter(w, Reconcile(w, env).world)
  {
    var m := w.mirror.value;
    var refs, storage := RemoteRefs(m.spec), m.spec.storage;
    if !InitEntries(w, m.entries, refs).Continue? {
      InitDescends(w, storage, m.entries, refs);
      assert w.(local := w.local) == w;
      ReportIsLighter(w, InitEntries(w, m.entries, refs), env);
    } else {
      SyncDescends(w, storage, m.entries, refs, env);
      ReportIsLighter(w, SyncObjects(w, storage, m.entries, refs, env), env);
    }
  }

  lemma PassThatCleans(w: World, env: PassEnv)
    requires Steady(w) && ListDistinct(w) && NoneAbsent(w) && Healthy(env)
    requires Candidates(w.mirror.value.entries, RemoteRefs(w.mirror.value.spec)) != []
    ensures var m, v := w.mirror.value, PushNodeSet(w);
            Lighter(w, Settle(v, CleanUp(v, m.entries, RemoteRefs(m.spec), env), env))
  {
    var m, v := w.mirror.value, PushNodeSet(w);
    var refs := RemoteRefs(m.spec);
    CleanUpDescends(v, m.spec.storage, m.entries, refs, env);
    WeightOfParts(w, v, m.spec.storage, m.entries, refs);
    ReportIsLighter(v, CleanUp(v, m.entries, refs, env), env);
  }

  /** Mirror convergence measure: a healthy pass runs to its end exactly when nothing is left to do,
      and otherwise strictly lowers what is left; no entry loses its copy on the way. */
  lemma PassDescends(w: World, env: PassEnv)
    requires Steady(w) && ListDistinct(w) && NoneAbsent(w) && Healthy(env)
    ensures var o := Reconcile(w, env);
            && o.finished == (Weight(w) == 0)
            && (if o.finished then Weight(o.world) == 0 && NoneAbsent(o.world) && Steady(o.world)
                else Lighter(w, o.world))
  {
    var m := w.mirror.value;
    var refs, storage := RemoteRefs(m.spec), m.spec.storage;
    if !InitEntries(w, m.entries, refs).Continue? || !SyncObjects(w, storage, m.entries, refs, env).Continue? {
      PassThatSyncs(w, env);
    } else {
      SyncContinuesInOrder(w, storage, m.entries, refs, env);
      SumIsZero(w, storage, m.entries, refs);
      if Candidates(m.entries, refs) != [] {
        PassThatCleans(w, env);
      } else {
        WeightOfParts(w, CopyStatus(PushNodeSet(w)), storage, m.entries, refs);
      }
    }
  }

  function Passes(w: World, envs: seq<PassEnv>): World
    decreases |envs|
  {
    if envs == [] then w else Reconcile(Passes(w, envs[..|envs| - 1]), envs[|envs| - 1]).world
  }

  lemma {:induction false} PassesDescend(w: World, envs: seq<PassEnv>)
    requires Steady(w) && Inv(w) && NoneAbsent(w) && forall i :: 0 <= i < |envs| ==> Healthy(envs[i])
    ensures var v := Passes(w, envs);
            Steady(v) && Inv(v) && NoneAbsent(v) && (Weight(v) == 0 || Weight(v) + |envs| <= Weight(w))
    decreases |envs|
  {
    if envs != [] {
      var before, env := envs[..|envs| - 1], envs[|envs| - 1];
      PassesDescend(w, before);
      PassDescends(Passes(w, before), env);
      ReconcileKeeps(Passes(w, before), env);
    }
  }

  // ----- An unused entry that lost its copy -----

  predicate Absent(w: World, r: Ref) {
    && w.mirror.Some? && Listed(w.mirror.value.entries, r)
    && r !in RemoteRefs(w.mirror.value.spec) && r !in w.local
  }

  lemma {:induction false} CleaningAddsNothing(local: map<Ref, Object>, entries: seq<RemoteResource>,
                                               candidates: seq<Ref>, others: bool, env: PassEnv)
    ensures var s := CleanEach(local, entries, candidates, others, env);
            && s.local.Keys <= local.Keys
            && (s.Report? ==> Reachable(candidates, env))
    decreases |candidates|
  {
    if candidates != [] {
      var k, rest := candidates[0], candidates[1..];
      if k in env.inconvertible || k in env.localUnreadable {
      } else if k in local {
        CleaningAddsNothing(Release(local, k, others, env), RemoveEntry(entries, k), rest, others, env);
      } else {
        CleaningAddsNothing(local, entries, rest, others, env);
      }
    }
  }

  lemma CleanUpKeepsTheAbsent(w: World, entries: seq<RemoteResource>, refs: seq<Ref>, env: PassEnv, r: Ref)
    requires Distinct(entries) && Listed(entries, r) && r !in refs && r !in w.local
    ensures var s := CleanUp(w, entries, refs, env);
            !s.Continue? && r !in s.local && (s.Report? ==> Listed(s.entries, r))
  {
    var candidates := Candidates(entries, refs);
    assert r in candidates;
    if env.others.Some? {
      var s := CleanUp(w, entries, refs, env);
      CleaningAddsNothing(w.local, entries, candidates, env.others.value, env);
      if s.Report? {
        CandidatesDoNotRepeat(entries, refs);
        CleaningIsExact(w.local, entries, candidates, env.others.value, env);
        KeepMembers(entries, Found(candidates, w.local), r);
      }
    }
  }

  lemma SyncObjectKeepsTheAbsent(w: World, storage: string, entries: seq<RemoteResource>, k: Ref, env: PassEnv, r: Ref)
    requires Listed(entries, k) && k != r && r !in w.local
    ensures var s := SyncObject(w, storage, entries, k, env);
            && (!s.Continue? ==> r !in s.local)
            && (s.Report? ==> s.entries == Mark(entries, k, true) || s.entries == Mark(entries, k, false))
  {
  }

  lemma SyncKeepsTheAbsent(w: World, storage: string, entries: seq<RemoteResource>, refs: seq<Ref>,
                           env: PassEnv, r: Ref)
    requires forall i :: 0 <= i < |refs| ==> Listed(entries, refs[i])
    requires Listed(entries, r) && r !in refs && r !in w.local
    ensures var s := SyncObjects(w, storage, entries, refs, env);
            !s.Continue? ==> r !in s.local && (s.Report? ==> Listed(s.entries, r))
  {
    if !SyncObjects(w, storage, entries, refs, env).Continue? {
      var k := SyncStopsSomewhere(w, storage, entries, refs, env);
      SyncObjectKeepsTheAbsent(w, storage, entries, k, env, r);
      MarkFinds(entries, k, true, r);
      MarkFinds(entries, k, false, r);
    }
  }

  /** Whatever the calls answer, a pass never ends while an unused entry has lost its copy, and the
      entry stays. */
  lemma AbsentSticks(w: World, env: PassEnv, r: Ref)
    requires Absent(w, r) && ListDistinct(w) && !w.mirror.value.deleting
    ensures var o := Reconcile(w, env);
            !o.finished && Absent(o.world, r) && !o.world.mirror.value.deleting
  {
    var m := w.mirror.value;
    if m.finalizer || env.finalizerWritten {
      AbsentSticksInSync(w.(mirror := Some(m.(finalizer := true))), env, r);
      assert m.finalizer ==> w.(mirror := Some(m.(finalizer := true))) == w;
    }
  }

  lemma AbsentSticksInSync(w: World, env: PassEnv, r: Ref)
    requires Absent(w, r) && ListDistinct(w) && !w.mirror.value.deleting
    ensures var o := Sync(w, env);
            !o.finished && Absent(o.world, r) && !o.world.mirror.value.deleting
  {
    var m := w.mirror.value;
    var refs, storage := RemoteRefs(m.spec), m.spec.storage;
    if !InitEntries(w, m.entries, refs).Continue? {
      var k := InitStopsSomewhere(w, m.entries, refs);
      AppendFinds(m.entries, NewEntry(k), r);
    } else {
      SyncKeepsTheAbsent(w, storage, m.entries, refs, env, r);
      CleanUpKeepsTheAbsent(PushNodeSet(w), m.entries, refs, env, r);
    }
  }

  lemma {:induction false} AbsentSticksForever(w: World, envs: seq<PassEnv>, r: Ref)
    requires Absent(w, r) && Inv(w) && !w.mirror.value.deleting
    ensures var v := Passes(w, envs);
            Absent(v, r) && Inv(v) && !v.mirror.value.deleting
    decreases |envs|
  {
    if envs != [] {
      var before, env := envs[..|envs| - 1], envs[|envs| - 1];
      AbsentSticksForever(w, before, r);
      AbsentSticks(Passes(w, before), env, r);
      ReconcileKeeps(Passes(w, before), env);
    }
  }

  lemma CleanUpDecides(w: World, entries: seq<RemoteResource>, refs: seq<Ref>, env: PassEnv, r: Ref)
    requires Distinct(entries) && HealthyButForStatus(env)
    requires Listed(entries, r) && r !in refs && r in w.local
    ensures var s := CleanUp(w, entries, refs, env);
            s.Report? && (r in s.local <==> PrimaryDatabase in w.local[r].annotations || r in env.deleteFails)
  {
    var candidates := Candidates(entries, refs);
    assert r in candidates;
    CandidatesDoNotRepeat(entries, refs);
    CleaningIsExact(w.local, entries, candidates, env.others.value, env);
    CleaningDecides(w.local, entries, candidates, env.others.value, env, r);
  }

  /** Everything the spec asks for is in order, so that a pass gets to cleaning up. */
  ghost predicate AllInOrder(w: World)
    requires w.mirror.Some?
  {
    forall i :: 0 <= i < |RemoteRefs(w.mirror.value.spec)| ==>
      InOrder(w, w.mirror.value.entries, RemoteRefs(w.mirror.value.spec)[i])
  }

  lemma NothingBeforeCleanUp(w: World, env: PassEnv)
    requires Steady(w) && AllInOrder(w) && HealthyButForStatus(env)
    ensures var m := w.mirror.value;
            && InitEntries(w, m.entries, RemoteRefs(m.spec)).Continue?
            && SyncObjects(w, m.spec.storage, m.entries, RemoteRefs(m.spec), env).Continue?
  {
    var m := w.mirror.value;
    SyncContinuesInOrder(w, m.spec.storage, m.entries, RemoteRefs(m.spec), env);
  }

  lemma PassReachesCleanUp(w: World, env: PassEnv)
    requires Steady(w) && AllInOrder(w) && HealthyButForStatus(env)
    requires Candidates(w.mirror.value.entries, RemoteRefs(w.mirror.value.spec)) != []
    ensures var v := PushNodeSet(w);
            var s := CleanUp(v, v.mirror.value.entries, RemoteRefs(v.mirror.value.spec), env);
            Reconcile(w, env) == Outcome(Settle(v, s, env), false)
  {
    NothingBeforeCleanUp(w, env);
    assert Reconcile(w, env) == Sync(w, env);
  }

  /** The operator loses a copy itself: a single cleaning pass whose status write fails deletes an
      unclaimed copy that is no longer asked for and keeps its entry. */
  lemma FailedWriteLosesTheCopy(w: World, env: PassEnv, r: Ref)
    requires Steady(w) && ListDistinct(w) && AllInOrder(w) && HealthyButForStatus(env) && !env.statusWritten
    requires Listed(w.mirror.value.entries, r) && r !in RemoteRefs(w.mirror.value.spec) && r in w.local
    requires PrimaryDatabase !in w.local[r].annotations && r !in env.deleteFails
    ensures Absent(Reconcile(w, env).world, r)
  {
    var m := w.mirror.value;
    assert r in Candidates(m.entries, RemoteRefs(m.spec));
    PassReachesCleanUp(w, env);
    CleanUpDecides(PushNodeSet(w), m.entries, RemoteRefs(m.spec), env, r);
  }

  /** After that, whatever the calls answer, no pass over the same spec ever runs to its end. */
  lemma FailedWriteBlocksForEver(w: World, env: PassEnv, r: Ref, envs: seq<PassEnv>, next: PassEnv)
    requires Steady(w) && Inv(w) && AllInOrder(w) && HealthyButForStatus(env) && !env.statusWritten
    requires Listed(w.mirror.value.entries, r) && r !in RemoteRefs(w.mirror.value.spec) && r in w.local
    requires PrimaryDatabase !in w.local[r].annotations && r !in env.deleteFails
    ensures !Reconcile(Passes(Reconcile(w, env).world, envs), next).finished
  {
    var v := Reconcile(w, env).world;
    FailedWriteLosesTheCopy(w, env, r);
    ReconcileKeeps(w, env);
    PassReachesCleanUp(w, env);
    AbsentSticksForever(v, envs, r);
    AbsentSticks(Passes(v, envs), next, r);
  }

  /** Mirror convergence: after as many healthy passes as the world weighs, every further pass runs to
      its end, exactly when no unused entry had lost its copy at the start. */
  lemma MirrorConverges(w: World, envs: seq<PassEnv>, env: PassEnv)
    requires Steady(w) && Inv(w) && Healthy(env) && forall i :: 0 <= i < |envs| ==> Healthy(envs[i])
    requires |envs| >= Weight(w)
    ensures Reconcile(Passes(w, envs), env).finished <==> NoneAbsent(w)
  {
    if NoneAbsent(w) {
      PassesDescend(w, envs);
      PassDescends(Passes(w, envs), env);
    } else {
      var r :| r in Candidates(w.mirror.value.entries, RemoteRefs(w.mirror.value.spec)) && r !in w.local;
      AbsentSticksForever(w, envs, r);
      AbsentSticks(Passes(w, envs), env, r);
    }
  }

  /** Every object needed is copied faithfully and reported so, and no other is listed. */
  ghost predicate AllSettled(w: World)
    requires w.mirror.Some?
  {
    var m := w.mirror.value;
    && (forall r :: Needed(m.spec, r) ==> InOrder(w, m.entries, r))
    && (forall r :: Listed(m.entries, r) ==> Needed(m.spec, r))
  }

  lemma SettledRefs(w: World)
    requires w.mirror.Some?
    ensures var m := w.mirror.value;
            AllSettled(w) <==> AllInOrder(w) && Candidates(m.entries, RemoteRefs(m.spec)) == []
  {
    var m := w.mirror.value;
    var refs := RemoteRefs(m.spec);
    forall r { RefsAreNeeded(m.spec, r); }
    assert forall i :: 0 <= i < |refs| ==> refs[i] in refs;
    if Candidates(m.entries, refs) != [] { assert Candidates(m.entries, refs)[0] in Candidates(m.entries, refs); }
  }

  /** The calls a pass makes when there is nothing left to do. */
  ghost predicate LastCallsSucceed(w: World, env: PassEnv)
    requires w.mirror.Some?
  {
    && (forall r :: Needed(w.mirror.value.spec, r) ==> Readable(env, r))
    && env.nodeSetSynced && env.nodeSetReadable && env.statusCopied
  }

  /** A pass runs to its end exactly when the mirror is settled and the calls that are left succeed. */
  lemma FinishesIff(w: World, env: PassEnv)
    requires Steady(w)
    ensures Reconcile(w, env).finished <==> AllSettled(w) && LastCallsSucceed(w, env)
  {
    var m := w.mirror.value;
    SettledRefs(w);
    ReadableRefs(m.spec, env);
    if InitEntries(w, m.entries, RemoteRefs(m.spec)).Continue? {
      SyncContinuesInOrder(w, m.spec.storage, m.entries, RemoteRefs(m.spec), env);
    }
  }

  lemma ReadableRefs(spec: Spec, env: PassEnv)
    ensures (forall r :: Needed(spec, r) ==> Readable(env, r)) <==>
            forall i :: 0 <= i < |RemoteRefs(spec)| ==> Readable(env, RemoteRefs(spec)[i])
  {
    forall r { RefsAreNeeded(spec, r); }
    assert forall i :: 0 <= i < |RemoteRefs(spec)| ==> RemoteRefs(spec)[i] in RemoteRefs(spec);
  }

  /** A pass that gets to push leaves a StorageNodeSet with the spec of the mirror, and otherwise as it was; a
      new one is in its first state, bears the mark of the mirror and no finalizer. */
  lemma PushedNodeSet(w: World)
    requires w.mirror.Some?
    ensures var v, spec := PushNodeSet(w), w.mirror.value.spec;
            && v.nodeSet.Some? && v == w.(nodeSet := v.nodeSet)
            && v.nodeSet.value.storage == spec.storage && v.nodeSet.value.payload == spec.payload
            && (w.nodeSet.Some? ==>
                  v.nodeSet.value == w.nodeSet.value.(storage := spec.storage, payload := spec.payload))
            && (w.nodeSet.None? ==>
                  var n := v.nodeSet.value;
                  n.status == Status(Pending, []) && n.mirrored && !n.finalizer && !n.deleting)
  {
  }

  /** The settled mirror: a healthy pass that runs to its end leaves every object needed in order, no other
      in the list, the spec pushed and the status copied; and the next one changes nothing. */
  lemma FinishedIsSettled(w: World, env: PassEnv, next: PassEnv)
    requires Steady(w) && Healthy(env) && Healthy(next) && Reconcile(w, env).finished
    ensures var v := Reconcile(w, env).world;
            && v.mirror.Some? && v.nodeSet.Some?
            && v.nodeSet.value.storage == v.mirror.value.spec.storage
            && v.nodeSet.value.payload == v.mirror.value.spec.payload
            && v.mirror.value.status == v.nodeSet.value.status
            && AllSettled(v) && Reconcile(v, next) == Outcome(v, true)
  {
    FinishesIff(w, env);
    FinishedLeaves(w, env);
    FinishesIff(Reconcile(w, env).world, next);
    FinishedLeaves(Reconcile(w, env).world, next);
  }

  lemma FinishedLeaves(w: World, env: PassEnv)
    requires Steady(w) && Healthy(env) && Reconcile(w, env).finished
    ensures Reconcile(w, env).world == CopyStatus(PushNodeSet(w)) && Steady(Reconcile(w, env).world)
    ensures AllSettled(w) ==> AllSettled(Reconcile(w, env).world)
  {
  }
}
