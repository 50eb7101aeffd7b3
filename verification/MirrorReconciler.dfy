/** The mirror's reconciler step by step: `Reconcile` is proved to do exactly what
    `MirrorModel.Reconcile` says. */
module MirrorReconciler {
  import opened Wrappers
  import opened Conditions
  import opened MirrorModel

  class Reconciler {
    // What the two API servers hold.
    const remote: map<Ref, Object>
    var mirror: Option<Remote>
    var local: map<Ref, Object>
    var nodeSet: Option<NodeSet>
    // The pass under way: its copy of the status list.
    var listed: seq<RemoteResource>

    constructor (w: World)
      ensures Here() == w
    {
      remote, mirror, local, nodeSet, listed := w.remote, w.mirror, w.local, w.nodeSet, [];
    }

    ghost function Here(): World reads this { World(mirror, remote, local, nodeSet) }

    /** The pass works on a mirror that exists, with the status list as read. */
    ghost predicate Entered() reads this { mirror.Some? && listed == mirror.value.entries }

    // ----- Copies of objects -----

    method CopyPrimaryAnnotations(annotations: map<Key, string>, from: map<Key, string>)
      returns (r: map<Key, string>)
      ensures r == CopyPrimary(annotations, from)
    {
      r := annotations;
      var keys := from.Keys;
      while keys != {}
        invariant keys <= from.Keys
        invariant forall k :: k in r <==> k in annotations || (k in from && k !in keys && IsPrimary(k))
        invariant forall k :: k in r ==>
                    r[k] == if k in from && k !in keys && IsPrimary(k) then from[k] else annotations[k]
        decreases |keys|
      {
        var k :| k in keys;
        keys := keys - {k};
        if IsPrimary(k) {
          r := r[k := from[k]];
        }
      }
    }

    method UpdatedCopy(r: Ref, copy: Object, obj: Object, storage: string) returns (updated: Object)
      ensures updated == Wanted(r, copy, obj, storage)
    {
      var wanted := obj;
      if PrimaryStorage !in wanted.annotations {
        wanted := wanted.(annotations := wanted.annotations[PrimaryStorage := storage]);
      }
      updated := wanted.(meta := copy.meta);
      if IsService(r) {
        updated := updated.(clusterIP := copy.clusterIP, clusterIPs := copy.clusterIPs);
      }
      var annotations := CopyPrimaryAnnotations(updated.annotations, copy.annotations);
      updated := updated.(annotations := annotations[RemoteVersion := obj.meta.resourceVersion]);
    }

    // ----- The status list -----

    method FindEntry(r: Ref) returns (i: nat)
      ensures i == EntryOf(listed, r)
    {
      i := 0;
      while i < |listed|
        invariant i <= |listed|
        invariant forall j :: 0 <= j < i ==> listed[j].ref != r
      {
        if listed[i].ref == r {
          return;
        }
        i := i + 1;
      }
    }

    method CreateRemoteResourceStatus(r: Ref)
      modifies this`listed
      ensures listed == old(listed) + [NewEntry(r)]
    {
      listed := listed + [RemoteResource(r, SyncPending, [])];
      var last := |listed| - 1;
      listed := listed[last := listed[last].(conditions :=
        SetStatusCondition(listed[last].conditions, Condition(ResourceSynced, Unknown, InProgress, 0, Empty)))];
    }

    method UpdateRemoteResourceStatus(i: nat, ok: bool)
      requires i < |listed|
      modifies this`listed
      ensures listed == old(listed)[i := Marked(old(listed)[i], ok)]
    {
      var c := if ok then Condition(ResourceSynced, True, Completed, 0, Note)
               else Condition(ResourceSynced, False, InProgress, 0, Note);
      listed := listed[i := listed[i].(conditions := SetStatusCondition(listed[i].conditions, c))];
      listed := listed[i := listed[i].(state := if ok then SyncSuccess else SyncPending)];
    }

    method RemoveRemoteResourceStatus(r: Ref)
      requires listed != []
      modifies this`listed
      ensures listed == RemoveEntry(old(listed), r)
    {
      var i := FindEntry(r);
      if i == |listed| {
        i := 0;
      }
      listed := listed[..i] + listed[i + 1..];
    }

    method UpdateStatusRemoteObjects(env: PassEnv)
      requires mirror.Some?
      modifies this`mirror
      ensures mirror == Some(if env.statusWritten then old(mirror.value).(entries := listed) else old(mirror.value))
    {
      if env.statusWritten {
        mirror := Some(mirror.value.(entries := listed));
      }
    }

    // ----- The steps of a pass -----

    method InitRemoteObjectsStatus(refs: seq<Ref>, env: PassEnv) returns (stop: bool)
      requires Entered()
      modifies this`mirror, this`listed
      ensures var s := InitEntries(old(Here()), old(listed), refs);
              && stop == !s.Continue?
              && Here() == Settle(old(Here()), s, env)
              && (!stop ==> Entered())
    {
      ghost var w := Here();
      for i := 0 to |refs|
        invariant Entered() && Here() == w
        invariant InitEntries(w, listed, refs) == InitEntries(w, listed, refs[i..])
      {
        assert refs[i..][0] == refs[i] && refs[i..][1..] == refs[i + 1..];
        var k := FindEntry(refs[i]);
        if k == |listed| {
          CreateRemoteResourceStatus(refs[i]);
          UpdateStatusRemoteObjects(env);
          return true;
        }
      }
      return false;
    }

    /** The body of the loop over the objects to mirror; the entry `i` is never missing. */
    method SyncRemoteObject(r: Ref, i: nat, env: PassEnv) returns (stop: bool)
      requires Entered() && Listed(listed, r) && i == EntryOf(listed, r)
      modifies this`mirror, this`listed, this`local
      ensures var s := SyncObject(old(Here()), old(mirror.value.spec.storage), old(listed), r, env);
              && stop == !s.Continue?
              && Here() == Settle(old(Here()), s, env)
              && (!stop ==> unchanged(this))
    {
      if r !in remote || r in env.remoteUnreadable {
        return true;
      }
      if r in env.localUnreadable {
        UpdateRemoteResourceStatus(i, false);
        UpdateStatusRemoteObjects(env);
        return true;
      }
      if r !in local {
        if env.created {
          local := local[r := Stored(r, CreateResource(r, remote[r]), env.server)];
        }
        UpdateRemoteResourceStatus(i, env.created);
        UpdateStatusRemoteObjects(env);
        return true;
      }
      stop := PatchRemoteObject(r, i, env);
    }

    method PatchRemoteObject(r: Ref, i: nat, env: PassEnv) returns (stop: bool)
      requires Entered() && Listed(listed, r) && i == EntryOf(listed, r)
      requires r in remote && r in local
      modifies this`mirror, this`listed, this`local
      ensures var s := SyncPresent(old(Here()), old(mirror.value.spec.storage), old(listed), r, env);
              && stop == !s.Continue?
              && Here() == Settle(old(Here()), s, env)
              && (!stop ==> unchanged(this))
    {
      var updated := UpdatedCopy(r, local[r], remote[r], mirror.value.spec.storage);
      if !env.diffed {
        UpdateRemoteResourceStatus(i, false);
      } else if !Same(local[r], updated) {
        if env.patched {
          local := local[r := Patched(local[r], updated, env.server)];
        }
        UpdateRemoteResourceStatus(i, env.patched);
      } else if !Synced(listed[i]) {
        UpdateRemoteResourceStatus(i, true);
      } else {
        return false;
      }
      UpdateStatusRemoteObjects(env);
      return true;
    }

    method SyncRemoteObjects(refs: seq<Ref>, env: PassEnv) returns (stop: bool)
      requires Entered() && forall i :: 0 <= i < |refs| ==> Listed(listed, refs[i])
      modifies this`mirror, this`listed, this`local
      ensures var s := SyncObjects(old(Here()), old(mirror.value.spec.storage), old(listed), refs, env);
              && stop == !s.Continue?
              && Here() == Settle(old(Here()), s, env)
              && (!stop ==> unchanged(this))
    {
      ghost var w, entries, storage := Here(), listed, mirror.value.spec.storage;
      for i := 0 to |refs|
        invariant Entered() && Here() == w && listed == entries
        invariant SyncObjects(w, storage, entries, refs, env) == SyncObjects(w, storage, entries, refs[i..], env)
      {
        assert refs[i..][0] == refs[i] && refs[i..][1..] == refs[i + 1..];
        var k := FindEntry(refs[i]);
        stop := SyncRemoteObject(refs[i], k, env);
        if stop {
          return;
        }
      }
      return false;
    }

    method HandleResourcesSync(env: PassEnv) returns (stop: bool)
      requires mirror.Some?
      modifies this`nodeSet
      ensures stop == !env.nodeSetSynced
      ensures Here() == if stop then old(Here()) else PushNodeSet(old(Here()))
    {
      if !env.nodeSetSynced {
        return true;
      }
      var spec := mirror.value.spec;
      if nodeSet.None? {
        nodeSet := Some(NodeSet(spec.storage, spec.payload, NEW_STATUS, true, false, false));
      } else {
        nodeSet := Some(nodeSet.value.(storage := spec.storage, payload := spec.payload));
      }
      return false;
    }

    method ExistsIn(refs: seq<Ref>, r: Ref) returns (found: bool)
      ensures found == (r in refs)
    {
      found := false;
      for j := 0 to |refs|
        invariant !found && r !in refs[..j]
      {
        if r == refs[j] {
          return true;
        }
      }
    }

    method CandidatesToDelete(refs: seq<Ref>) returns (candidates: seq<Ref>)
      ensures candidates == Candidates(listed, refs)
    {
      candidates := [];
      for i := 0 to |listed|
        invariant candidates + Candidates(listed[i..], refs) == Candidates(listed, refs)
      {
        ghost var was := candidates;
        var existInSpec := ExistsIn(refs, listed[i].ref);
        if !existInSpec {
          candidates := candidates + [listed[i].ref];
        }
        CandidatesAt(listed, i, refs, was);
      }
    }

    method ReleaseObject(r: Ref, others: bool, env: PassEnv)
      requires r in local
      modifies this`local
      ensures local == Release(old(local), r, others, env)
    {
      if !others && r !in env.unsetFails {
        local := local[r := local[r].(annotations := local[r].annotations - {PrimaryStorage})];
      }
      if PrimaryDatabase !in local[r].annotations && r !in env.deleteFails {
        local := local - {r};
      }
    }

    /** One round of the loop over the candidates: the object is there, and its entry is listed. */
    method CleanCandidate(r: Ref, others: bool, env: PassEnv)
      requires r in local && Listed(listed, r)
      modifies this`listed, this`local
      ensures local == Release(old(local), r, others, env)
      ensures listed == RemoveEntry(old(listed), r)
    {
      ReleaseObject(r, others, env);
      RemoveRemoteResourceStatus(r);
    }

    method CleanCandidates(candidates: seq<Ref>, others: bool, env: PassEnv) returns (ok: bool)
      requires multiset(candidates) <= multiset(Refs(listed))
      modifies this`listed, this`local
      ensures CleanEach(old(local), old(listed), candidates, others, env)
           == if ok then Report(local, listed) else Halt(local)
    {
      ghost var whole := CleanEach(local, listed, candidates, others, env);
      assert candidates[0..] == candidates;
      for i := 0 to |candidates|
        invariant multiset(candidates[i..]) <= multiset(Refs(listed))
        invariant whole == CleanEach(local, listed, candidates[i..], others, env)
      {
        var r := candidates[i];
        FirstIsListed(candidates[i..], listed);
        assert candidates[i..][1..] == candidates[i + 1..];
        if r in env.inconvertible || r in env.localUnreadable {
          return false;
        }
        if r in local {
          CleanCandidate(r, others, env);
        }
      }
      return true;
    }

    /** The second answer is whether the step ended without an error. */
    method RemoveUnusedRemoteObjects(refs: seq<Ref>, env: PassEnv) returns (stop: bool, ok: bool)
      requires Entered()
      modifies this`mirror, this`listed, this`local
      ensures var s := CleanUp(old(Here()), old(listed), refs, env);
              && stop == !s.Continue?
              && ok == (s.Continue? || (s.Report? && env.statusWritten))
              && Here() == Settle(old(Here()), s, env)
              && (!stop ==> unchanged(this))
    {
      var candidates := CandidatesToDelete(refs);
      if |candidates| == 0 {
        return false, true;
      }
      if env.others.None? {
        return true, false;
      }
      CandidatesAreListed(listed, refs);
      ok := CleanCandidates(candidates, env.others.value, env);
      if !ok {
        return true, false;
      }
      UpdateStatusRemoteObjects(env);
      return true, env.statusWritten;
    }

    method UpdateRemoteStatus(env: PassEnv) returns (stop: bool)
      requires mirror.Some? && nodeSet.Some?
      modifies this`mirror
      ensures stop == (!env.nodeSetReadable || !env.statusCopied)
      ensures Here() == if stop then old(Here()) else CopyStatus(old(Here()))
    {
      if !env.nodeSetReadable || !env.statusCopied {
        return true;
      }
      mirror := Some(mirror.value.(status := nodeSet.value.status));
      return false;
    }

    method Sync(env: PassEnv) returns (finished: bool)
      requires mirror.Some?
      modifies this
      ensures Outcome(Here(), finished) == MirrorModel.Sync(old(Here()), env)
    {
      listed := mirror.value.entries;
      var refs := RemoteRefs(mirror.value.spec);
      var stop := InitRemoteObjectsStatus(refs, env);
      if stop {
        return false;
      }
      stop := SyncRemoteObjects(refs, env);
      if stop {
        return false;
      }
      stop := HandleResourcesSync(env);
      if stop {
        return false;
      }
      var removed, _ := RemoveUnusedRemoteObjects(refs, env);
      if removed {
        return false;
      }
      stop := UpdateRemoteStatus(env);
      return !stop;
    }

    method DeleteExternalResources(env: PassEnv) returns (ok: bool)
      requires mirror.Some?
      modifies this
      ensures (Here(), ok) == DeleteExternal(old(Here()), env)
    {
      if !env.nodeSetReadable {
        return false;
      }
      if nodeSet.Some? {
        if !env.nodeSetDeleted {
          return false;
        }
        nodeSet := Erased(nodeSet);
      }
      listed := mirror.value.entries;
      var _, removed := RemoveUnusedRemoteObjects([], env);
      return removed;
    }

    method Reconcile(env: PassEnv) returns (finished: bool)
      modifies this
      ensures Outcome(Here(), finished) == MirrorModel.Reconcile(old(Here()), env)
    {
      if mirror.None? {
        return false;
      }
      if !mirror.value.deleting {
        if !mirror.value.finalizer {
          if !env.finalizerWritten {
            return false;
          }
          mirror := Some(mirror.value.(finalizer := true));
        }
      } else {
        if mirror.value.finalizer {
          var ok := DeleteExternalResources(env);
          if !ok {
            return false;
          }
          if env.finalizerWritten {
            mirror := None;
          }
        }
        return false;
      }
      finished := Sync(env);
    }
  }

  lemma CandidatesAt(entries: seq<RemoteResource>, i: nat, refs: seq<Ref>, before: seq<Ref>)
    requires i < |entries|
    ensures before + Candidates(entries[i..], refs)
         == (if entries[i].ref in refs then before else before + [entries[i].ref]) + Candidates(entries[i + 1..], refs)
  {
    assert entries[i..][0] == entries[i] && entries[i..][1..] == entries[i + 1..];
  }

  // ----- The entry cut out is always there -----

  function Refs(entries: seq<RemoteResource>): (r: seq<Ref>)
    ensures |r| == |entries| && forall i :: 0 <= i < |r| ==> r[i] == entries[i].ref
  {
    seq(|entries|, i requires 0 <= i < |entries| => entries[i].ref)
  }

  lemma {:induction false} CandidatesAreListed(entries: seq<RemoteResource>, refs: seq<Ref>)
    ensures multiset(Candidates(entries, refs)) <= multiset(Refs(entries))
  {
    if entries != [] {
      CandidatesAreListed(entries[1..], refs);
      assert Refs(entries) == [entries[0].ref] + Refs(entries[1..]);
    }
  }

  lemma MiddleTaken(a: seq<Ref>, r: Ref, b: seq<Ref>)
    ensures multiset(a + b) == multiset(a + [r] + b) - multiset{r}
  {
    assert multiset(a + [r] + b) == multiset(a) + multiset([r]) + multiset(b);
    assert multiset(a + b) == multiset(a) + multiset(b);
  }

  lemma RemovalTakesOne(entries: seq<RemoteResource>, r: Ref)
    requires Listed(entries, r)
    ensures multiset(Refs(RemoveEntry(entries, r))) == multiset(Refs(entries)) - multiset{r}
  {
    var i := EntryOf(entries, r);
    var a, b := Refs(entries[..i]), Refs(entries[i + 1..]);
    assert Refs(entries) == a + [r] + b;
    assert Refs(entries[..i] + entries[i + 1..]) == a + b;
    MiddleTaken(a, r, b);
  }

  lemma FirstIsListed(candidates: seq<Ref>, entries: seq<RemoteResource>)
    requires candidates != [] && multiset(candidates) <= multiset(Refs(entries))
    ensures Listed(entries, candidates[0])
    ensures multiset(candidates[1..]) <= multiset(Refs(entries))
    ensures multiset(candidates[1..]) <= multiset(Refs(RemoveEntry(entries, candidates[0])))
  {
    var r := candidates[0];
    assert candidates == [r] + candidates[1..];
    assert r in multiset(candidates);
    assert r in multiset(Refs(entries));
    RemovalTakesOne(entries, r);
  }
}
