/** What the mirror keeps: faithful copies, an honest status list, other owners' claims, and no
    StorageNodeSet left behind. */
module MirrorSafety {
  import opened Wrappers
  import opened Conditions
  import opened MirrorModel

  // ----- Copies -----

  /** A local object is a faithful copy: the content and plain annotations of the remote object, its
      current version recorded, a storage owner named, and no database owner of the remote lost. */
  ghost predicate MirrorOf(r: Ref, local: Object, remote: Object) {
    && local.content == remote.content
    && (!IsService(r) ==> local.clusterIP == remote.clusterIP && local.clusterIPs == remote.clusterIPs)
    && PrimaryStorage in local.annotations
    && (PrimaryDatabase in remote.annotations ==> PrimaryDatabase in local.annotations)
    && RemoteVersion in local.annotations && local.annotations[RemoteVersion] == remote.meta.resourceVersion
    && forall name: string ::
         && (OtherKey(name) in local.annotations <==> OtherKey(name) in remote.annotations)
         && (OtherKey(name) in local.annotations ==>
               local.annotations[OtherKey(name)] == remote.annotations[OtherKey(name)])
  }

  /** Nothing is left to patch exactly when the local object is a faithful copy. */
  lemma NothingToPatch(r: Ref, local: Object, remote: Object, storage: string)
    ensures Same(local, Wanted(r, local, remote, storage)) <==> MirrorOf(r, local, remote)
  {
    var wanted := Wanted(r, local, remote, storage);
    if MirrorOf(r, local, remote) {
      forall k ensures k in local.annotations <==> k in wanted.annotations {
        match k case OtherKey(name) => {} case _ => {}
      }
      forall k | k in local.annotations ensures local.annotations[k] == wanted.annotations[k] {
        match k case OtherKey(name) => {} case _ => {}
      }
      assert local.annotations == wanted.annotations;
    }
  }

  /** Updating keeps the identity, the addresses of a service and the owners of the local object, and
      updating once more changes nothing. */
  lemma UpdateIsIdempotent(r: Ref, local: Object, remote: Object)
    ensures var u := UpdateResource(r, local, remote);
            && u.meta == local.meta
            && (IsService(r) ==> u.clusterIP == local.clusterIP && u.clusterIPs == local.clusterIPs)
            && (forall k :: IsPrimary(k) && k in local.annotations ==>
                  k in u.annotations && u.annotations[k] == local.annotations[k])
            && UpdateResource(r, u, remote) == u
  {
    var u := UpdateResource(r, local, remote);
    assert UpdateResource(r, u, remote).annotations == u.annotations;
  }

  /** One patch is enough: what the server stores for it is a faithful copy, the same object at a later
      version, whose storage owner is the one it had, else the remote object's, else the mirror's own. */
  lemma PatchIsEnough(r: Ref, local: Object, remote: Object, storage: string, server: Object)
    ensures var patched := Patched(local, Wanted(r, local, remote, storage), server);
            && MirrorOf(r, patched, remote)
            && patched.status == local.status
            && patched.meta == local.meta.(resourceVersion := server.meta.resourceVersion)
            && patched.annotations[PrimaryStorage]
                 == if PrimaryStorage in local.annotations then local.annotations[PrimaryStorage]
                    else if PrimaryStorage in remote.annotations then remote.annotations[PrimaryStorage]
                    else storage
  {
  }

  /** A created copy is faithful only if the remote object already named a storage owner: creation
      itself does not set one, so another pass has to. */
  lemma CreationLacksTheOwner(r: Ref, remote: Object, server: Object)
    ensures MirrorOf(r, Stored(r, CreateResource(r, remote), server), remote) <==> PrimaryStorage in remote.annotations
  {
  }

  /** An object is in order: mirrored faithfully and reported so. */
  ghost predicate InOrder(w: World, entries: seq<RemoteResource>, r: Ref) {
    && Listed(entries, r) && Synced(entries[EntryOf(entries, r)])
    && r in w.remote && r in w.local && MirrorOf(r, w.local[r], w.remote[r])
  }

  predicate Readable(env: PassEnv, r: Ref) {
    r !in env.remoteUnreadable && r !in env.localUnreadable && env.diffed
  }

  /** Mirror fixpoint: synchronization continues exactly when every object could be read and is in order. */
  lemma {:induction false} SyncContinuesInOrder(w: World, storage: string, entries: seq<RemoteResource>,
                                                refs: seq<Ref>, env: PassEnv)
    requires forall i :: 0 <= i < |refs| ==> Listed(entries, refs[i])
    ensures SyncObjects(w, storage, entries, refs, env).Continue?
       <==> forall i :: 0 <= i < |refs| ==> Readable(env, refs[i]) && InOrder(w, entries, refs[i])
  {
    if refs != [] {
      var r := refs[0];
      if r in w.remote && r in w.local { NothingToPatch(r, w.local[r], w.remote[r], storage); }
      assert SyncObject(w, storage, entries, r, env).Continue? <==> Readable(env, r) && InOrder(w, entries, r);
      SyncContinuesInOrder(w, storage, entries, refs[1..], env);
      forall i | 0 < i < |refs| ensures refs[i] == refs[1..][i - 1] {}
      if forall i :: 0 <= i < |refs[1..]| ==> Readable(env, refs[1..][i]) && InOrder(w, entries, refs[1..][i]) {
        forall i | 0 < i < |refs| ensures Readable(env, refs[i]) && InOrder(w, entries, refs[i]) {
          assert refs[i] == refs[1..][i - 1];
        }
      }
    }
  }

  /** The objects a remote node set needs beside it: the Secrets its spec lists, the ConfigMap named after
      the Storage, and the three Services of the Storage. */
  predicate Needed(spec: Spec, r: Ref) {
    && r.group == "" && r.version == "v1"
    && (|| (r.kind == "Secret" && r.name in spec.secrets)
        || (r.kind == "ConfigMap" && r.name == spec.storage)
        || (r.kind == "Service"
            && r.name in {spec.storage + "-grpc", spec.storage + "-interconnect", spec.storage + "-status"}))
  }

  lemma {:induction false} SecretsAreNamed(names: seq<string>, r: Ref)
    ensures r in SecretRefs(names) <==> r.group == "" && r.version == "v1" && r.kind == "Secret" && r.name in names
  {
    if names != [] {
      SecretsAreNamed(names[1..], r);
      assert names == [names[0]] + names[1..];
    }
  }

  /** What a pass goes through is exactly what is needed. */
  lemma RefsAreNeeded(spec: Spec, r: Ref)
    ensures r in RemoteRefs(spec) <==> Needed(spec, r)
  {
    SecretsAreNamed(spec.secrets, r);
    var others := [Ref("", "v1", "ConfigMap", spec.storage),
                   Ref("", "v1", "Service", spec.storage + "-grpc"),
                   Ref("", "v1", "Service", spec.storage + "-interconnect"),
                   Ref("", "v1", "Service", spec.storage + "-status")];
    assert RemoteRefs(spec) == SecretRefs(spec.secrets) + others;
  }

  /** How the copy of an object stands after a step on it: there and faithful, or just created. */
  predicate Copied(w: World, storage: string, r: Ref, env: PassEnv)
    requires r in w.remote
  {
    && r !in env.localUnreadable
    && if r !in w.local then env.created
       else env.diffed && (env.patched || Same(w.local[r], Wanted(r, w.local[r], w.remote[r], storage)))
  }

  /** Marks are earned: a step on an object that cannot be read remotely changes nothing; any other that stops
      leaves its entry marked as synced, in state and condition alike, exactly if the copy was made, patched or
      found right, and as failed otherwise; and the copy changes only then. */
  lemma MarksAreEarned(w: World, storage: string, entries: seq<RemoteResource>, r: Ref, env: PassEnv)
    requires Listed(entries, r) && !SyncObject(w, storage, entries, r, env).Continue?
    ensures var s := SyncObject(w, storage, entries, r, env);
            if r !in w.remote || r in env.remoteUnreadable then s == Halt(w.local)
            else
              && s.Report? && |s.entries| == |entries| && EntryOf(entries, r) < |s.entries|
              && s.entries == entries[EntryOf(entries, r) := s.entries[EntryOf(entries, r)]]
              && var e := s.entries[EntryOf(entries, r)];
                 && e.ref == r
                 && (if Copied(w, storage, r, env)
                     then e.state.SyncSuccess? && Is(e.conditions, ResourceSynced, True)
                     else e.state.SyncPending? && Is(e.conditions, ResourceSynced, False) && s.local == w.local)
  {
  }

  // ----- The status list -----

  ghost predicate Distinct(entries: seq<RemoteResource>) {
    forall i, j :: 0 <= i < j < |entries| ==> entries[i].ref != entries[j].ref
  }

  /** The list, in order, without the entries for some objects. */
  function Keep(entries: seq<RemoteResource>, gone: set<Ref>): seq<RemoteResource> {
    if entries == [] then []
    else if entries[0].ref in gone then Keep(entries[1..], gone)
    else [entries[0]] + Keep(entries[1..], gone)
  }

  lemma {:induction false} KeepMembers(entries: seq<RemoteResource>, gone: set<Ref>, r: Ref)
    ensures Listed(Keep(entries, gone), r) <==> Listed(entries, r) && r !in gone
  {
    if entries != [] {
      KeepMembers(entries[1..], gone, r);
      var rest := Keep(entries[1..], gone);
      assert ([entries[0]] + rest)[1..] == rest;
    }
  }

  lemma {:induction false} KeepAll(entries: seq<RemoteResource>, gone: set<Ref>)
    requires forall i :: 0 <= i < |entries| ==> entries[i].ref !in gone
    ensures Keep(entries, gone) == entries
  {
    if entries != [] { KeepAll(entries[1..], gone); }
  }

  lemma {:induction false} KeepDistinct(entries: seq<RemoteResource>, gone: set<Ref>)
    requires Distinct(entries)
    ensures Distinct(Keep(entries, gone))
  {
    if entries != [] {
      var rest, r := Keep(entries[1..], gone), entries[0].ref;
      KeepDistinct(entries[1..], gone);
      KeepMembers(entries[1..], gone, r);
      NotListedAgain(entries);
    }
  }

  lemma NotListedAgain(entries: seq<RemoteResource>)
    requires entries != [] && Distinct(entries)
    ensures !Listed(entries[1..], entries[0].ref)
  {
    forall k | 0 <= k < |entries[1..]| ensures entries[1..][k].ref != entries[0].ref {
      assert entries[1..][k] == entries[k + 1];
    }
  }

  lemma {:induction false} KeepTwice(entries: seq<RemoteResource>, a: set<Ref>, b: set<Ref>)
    ensures Keep(Keep(entries, a), b) == Keep(entries, a + b)
  {
    if entries != [] {
      KeepTwice(entries[1..], a, b);
      if entries[0].ref !in a {
        var rest := Keep(entries[1..], a);
        assert ([entries[0]] + rest)[1..] == rest;
      }
    }
  }

  lemma {:induction false} CutIsKeep(entries: seq<RemoteResource>, i: nat)
    requires Distinct(entries) && i < |entries|
    ensures entries[..i] + entries[i + 1..] == Keep(entries, {entries[i].ref})
  {
    var rest := entries[1..];
    if i == 0 {
      KeepAll(rest, {entries[0].ref});
    } else {
      CutIsKeep(rest, i - 1);
      assert entries[..i] + entries[i + 1..] == [entries[0]] + (rest[..i - 1] + rest[i..]);
    }
  }

  /** In a list without duplicates, cutting out a listed entry leaves exactly the others, in order. */
  lemma RemovalIsExact(entries: seq<RemoteResource>, r: Ref)
    requires Distinct(entries) && Listed(entries, r)
    ensures RemoveEntry(entries, r) == Keep(entries, {r})
  {
    CutIsKeep(entries, EntryOf(entries, r));
  }

  /** Removal takes the head of the list exactly when that is the entry asked for or when there is none. */
  lemma RemovalOfTheUnlisted(entries: seq<RemoteResource>, r: Ref)
    requires entries != []
    ensures RemoveEntry(entries, r) == entries[1..] <==> (!Listed(entries, r) || entries[0].ref == r)
  {
    var i := EntryOf(entries, r);
    if 0 < i < |entries| {
      assert RemoveEntry(entries, r)[i - 1].ref != r && entries[1..][i - 1].ref == r;
    }
  }

  ghost predicate NoRepeats(refs: seq<Ref>) { forall i, j :: 0 <= i < j < |refs| ==> refs[i] != refs[j] }

  lemma {:induction false} CandidatesDoNotRepeat(entries: seq<RemoteResource>, refs: seq<Ref>)
    requires Distinct(entries)
    ensures NoRepeats(Candidates(entries, refs))
  {
    if entries != [] {
      CandidatesDoNotRepeat(entries[1..], refs);
      var rest := Candidates(entries[1..], refs);
      NotListedAgain(entries);
      assert entries[0].ref !in rest;
    }
  }

  /** The candidates whose copies are there. */
  function Found(candidates: seq<Ref>, local: map<Ref, Object>): set<Ref> {
    set r | r in candidates && r in local
  }

  predicate Reachable(candidates: seq<Ref>, env: PassEnv) {
    forall i :: 0 <= i < |candidates| ==> candidates[i] !in env.inconvertible && candidates[i] !in env.localUnreadable
  }

  lemma FoundSplits(candidates: seq<Ref>, local: map<Ref, Object>, local': map<Ref, Object>)
    requires candidates != [] && NoRepeats(candidates)
    requires forall r :: r != candidates[0] ==> (r in local' <==> r in local)
    ensures candidates[0] in local ==> Found(candidates, local) == {candidates[0]} + Found(candidates[1..], local')
    ensures candidates[0] !in local ==> Found(candidates, local) == Found(candidates[1..], local')
    ensures candidates[0] !in candidates[1..] && NoRepeats(candidates[1..])
  {
    var r, rest := candidates[0], candidates[1..];
    assert candidates == [r] + rest;
    forall i | 0 <= i < |rest| ensures rest[i] != r { assert rest[i] == candidates[i + 1]; }
    forall i, j | 0 <= i < j < |rest| ensures rest[i] != rest[j] {
      assert rest[i] == candidates[i + 1] && rest[j] == candidates[j + 1];
    }
  }

  lemma {:induction false} CleaningIsExact(local: map<Ref, Object>, entries: seq<RemoteResource>,
                                           candidates: seq<Ref>, others: bool, env: PassEnv)
    requires Distinct(entries) && NoRepeats(candidates) && Reachable(candidates, env)
    requires forall r :: r in candidates ==> Listed(entries, r)
    ensures var s := CleanEach(local, entries, candidates, others, env);
            s.Report? && s.entries == Keep(entries, Found(candidates, local))
    decreases |candidates|
  {
    if candidates == [] {
      assert Found(candidates, local) == {};
      KeepAll(entries, {});
    } else {
      var r, rest := candidates[0], candidates[1..];
      if r in local {
        var local' := Release(local, r, others, env);
        RemovalIsExact(entries, r);
        KeepDistinct(entries, {r});
        FoundSplits(candidates, local, local');
        forall k | k in rest ensures Listed(Keep(entries, {r}), k) { KeepMembers(entries, {r}, k); }
        CleaningIsExact(local', Keep(entries, {r}), rest, others, env);
        KeepTwice(entries, {r}, Found(rest, local'));
      } else {
        FoundSplits(candidates, local, local);
        CleaningIsExact(local, entries, rest, others, env);
      }
    }
  }

  /** Only the candidates' own copies are touched. */
  ghost predicate LocalBeyond(candidates: seq<Ref>, local: map<Ref, Object>, local': map<Ref, Object>) {
    forall r :: r !in candidates ==> (r in local' <==> r in local) && (r in local ==> local'[r] == local[r])
  }

  lemma {:induction false} CleaningIsLocal(local: map<Ref, Object>, entries: seq<RemoteResource>,
                                           candidates: seq<Ref>, others: bool, env: PassEnv)
    ensures LocalBeyond(candidates, local, CleanEach(local, entries, candidates, others, env).local)
    decreases |candidates|
  {
    if candidates != [] {
      var r, rest := candidates[0], candidates[1..];
      if r in env.inconvertible || r in env.localUnreadable {
      } else if r in local {
        CleaningIsLocal(Release(local, r, others, env), RemoveEntry(entries, r), rest, others, env);
      } else {
        CleaningIsLocal(local, entries, rest, others, env);
      }
    }
  }

  /** Status list integrity, removal: what cleaning up persists is exactly the old list, in order,
      minus the entries that are neither asked for by the spec nor without a local copy. */
  lemma CleanUpIsExact(w: World, entries: seq<RemoteResource>, refs: seq<Ref>, env: PassEnv)
    requires Distinct(entries) && env.others.Some? && Reachable(Candidates(entries, refs), env)
    requires exists i :: 0 <= i < |entries| && entries[i].ref !in refs
    ensures var s := CleanUp(w, entries, refs, env);
            && s.Report?
            && s.entries == Keep(entries, set e | e in entries && e.ref !in refs && e.ref in w.local :: e.ref)
            && forall r :: r in refs ==> (r in s.local <==> r in w.local) && (r in w.local ==> s.local[r] == w.local[r])
  {
    var candidates := Candidates(entries, refs);
    var i :| 0 <= i < |entries| && entries[i].ref !in refs;
    assert Listed(entries, entries[i].ref);
    assert entries[i].ref in candidates;
    CandidatesDoNotRepeat(entries, refs);
    CleaningIsExact(w.local, entries, candidates, env.others.value, env);
    CleaningIsLocal(w.local, entries, candidates, env.others.value, env);
    assert Found(candidates, w.local) == (set e | e in entries && e.ref !in refs && e.ref in w.local :: e.ref) by {
      forall r ensures Listed(entries, r) <==> exists e :: e in entries && e.ref == r {
        if Listed(entries, r) { assert entries[EntryOf(entries, r)] in entries; }
      }
    }
  }

  lemma {:induction false} CleaningKeepsDistinct(local: map<Ref, Object>, entries: seq<RemoteResource>,
                                                 candidates: seq<Ref>, others: bool, env: PassEnv)
    requires Distinct(entries)
    ensures var s := CleanEach(local, entries, candidates, others, env); s.Report? ==> Distinct(s.entries)
    decreases |candidates|
  {
    if candidates != [] {
      var r, rest := candidates[0], candidates[1..];
      if r in env.inconvertible || r in env.localUnreadable {
      } else if r in local {
        CleaningKeepsDistinct(Release(local, r, others, env), RemoveEntry(entries, r), rest, others, env);
      } else {
        CleaningKeepsDistinct(local, entries, rest, others, env);
      }
    }
  }

  // ----- Claims of other owners -----

  /** The copy is there and carries that database annotation. */
  predicate Claimed(local: map<Ref, Object>, r: Ref, owner: string) {
    && r in local && PrimaryDatabase in local[r].annotations && local[r].annotations[PrimaryDatabase] == owner
  }

  lemma ReleaseKeepsClaims(local: map<Ref, Object>, k: Ref, others: bool, env: PassEnv, r: Ref, owner: string)
    requires k in local && Claimed(local, r, owner)
    ensures Claimed(Release(local, k, others, env), r, owner)
  {
  }

  /** A released copy is deleted exactly when it bears no database annotation and the call succeeds;
      whether another node set of the same Storage still needs it does not matter. */
  lemma ReleaseDeletesTheUnclaimed(local: map<Ref, Object>, r: Ref, others: bool, env: PassEnv)
    requires r in local
    ensures r !in Release(local, r, others, env) <==>
            PrimaryDatabase !in local[r].annotations && r !in env.deleteFails
  {
  }

  /** What is left of a released copy that stays: itself, without its storage annotation exactly if no other
      node set is there and the call to take it off succeeds. */
  lemma ReleaseDisowns(local: map<Ref, Object>, r: Ref, others: bool, env: PassEnv)
    requires r in local && r in Release(local, r, others, env)
    ensures var before, after := local[r], Release(local, r, others, env)[r];
            && (PrimaryStorage in after.annotations <==>
                  PrimaryStorage in before.annotations && (others || r in env.unsetFails))
            && (forall k :: k != PrimaryStorage ==> (k in after.annotations <==> k in before.annotations))
            && (forall k :: k in after.annotations ==> after.annotations[k] == before.annotations[k])
            && after == before.(annotations := after.annotations)
            && Release(local, r, others, env) == local[r := after]
  {
  }

  /** Cleaning up decides for each candidate found as if it were the only one. */
  lemma {:induction false} CleaningDecides(local: map<Ref, Object>, entries: seq<RemoteResource>,
                                           candidates: seq<Ref>, others: bool, env: PassEnv, r: Ref)
    requires NoRepeats(candidates) && Reachable(candidates, env) && r in candidates && r in local
    ensures r in CleanEach(local, entries, candidates, others, env).local
       <==> PrimaryDatabase in local[r].annotations || r in env.deleteFails
    decreases |candidates|
  {
    var k, rest := candidates[0], candidates[1..];
    FoundSplits(candidates, local, local);
    if k == r {
      ReleaseDeletesTheUnclaimed(local, r, others, env);
      CleaningIsLocal(Release(local, r, others, env), RemoveEntry(entries, r), rest, others, env);
    } else if k in local {
      CleaningDecides(Release(local, k, others, env), RemoveEntry(entries, k), rest, others, env, r);
    } else {
      CleaningDecides(local, entries, rest, others, env, r);
    }
  }

  lemma {:induction false} CleaningKeepsClaims(local: map<Ref, Object>, entries: seq<RemoteResource>,
                                               candidates: seq<Ref>, others: bool, env: PassEnv, r: Ref, owner: string)
    requires Claimed(local, r, owner)
    ensures Claimed(CleanEach(local, entries, candidates, others, env).local, r, owner)
    decreases |candidates|
  {
    if candidates != [] {
      var k, rest := candidates[0], candidates[1..];
      if k in env.inconvertible || k in env.localUnreadable {
      } else if k in local {
        ReleaseKeepsClaims(local, k, others, env, r, owner);
        CleaningKeepsClaims(Release(local, k, others, env), RemoveEntry(entries, k), rest, others, env, r, owner);
      } else {
        CleaningKeepsClaims(local, entries, rest, others, env, r, owner);
      }
    }
  }

  // ----- What every step of a pass keeps -----

  /** A stage persists no duplicate and breaks no claim. */
  ghost predicate Sound(w: World, s: Stage) {
    && (s.Report? ==> Distinct(s.entries))
    && (!s.Continue? ==> forall r, owner :: Claimed(w.local, r, owner) ==> Claimed(s.local, r, owner))
  }

  lemma {:induction false} InitIsSound(w: World, entries: seq<RemoteResource>, refs: seq<Ref>)
    requires Distinct(entries)
    ensures Sound(w, InitEntries(w, entries, refs))
  {
    if refs != [] { InitIsSound(w, entries, refs[1..]); }
  }

  lemma MarkKeepsDistinct(entries: seq<RemoteResource>, k: Ref, ok: bool)
    requires Distinct(entries) && Listed(entries, k)
    ensures Distinct(Mark(entries, k, ok))
  {
    forall i | 0 <= i < |entries| ensures Mark(entries, k, ok)[i].ref == entries[i].ref {}
  }

  lemma PatchKeepsClaims(local: map<Ref, Object>, k: Ref, remote: Object, storage: string, server: Object)
    requires k in local
    ensures var local' := local[k := Patched(local[k], Wanted(k, local[k], remote, storage), server)];
            forall r, owner :: Claimed(local, r, owner) ==> Claimed(local', r, owner)
  {
    var patched := Patched(local[k], Wanted(k, local[k], remote, storage), server);
    assert PrimaryDatabase in local[k].annotations ==>
             PrimaryDatabase in patched.annotations
             && patched.annotations[PrimaryDatabase] == local[k].annotations[PrimaryDatabase];
  }

  lemma SyncObjectIsSound(w: World, storage: string, entries: seq<RemoteResource>, k: Ref, env: PassEnv)
    requires Distinct(entries) && Listed(entries, k)
    ensures Sound(w, SyncObject(w, storage, entries, k, env))
  {
    MarkKeepsDistinct(entries, k, true);
    MarkKeepsDistinct(entries, k, false);
    if k in w.remote && k in w.local {
      PatchKeepsClaims(w.local, k, w.remote[k], storage, env.server);
    }
  }

  lemma {:induction false} SyncIsSound(w: World, storage: string, entries: seq<RemoteResource>, refs: seq<Ref>,
                                       env: PassEnv)
    requires Distinct(entries) && forall i :: 0 <= i < |refs| ==> Listed(entries, refs[i])
    ensures Sound(w, SyncObjects(w, storage, entries, refs, env))
  {
    if refs != [] {
      SyncObjectIsSound(w, storage, entries, refs[0], env);
      SyncIsSound(w, storage, entries, refs[1..], env);
    }
  }

  lemma CleanUpIsSound(w: World, entries: seq<RemoteResource>, refs: seq<Ref>, env: PassEnv)
    requires Distinct(entries)
    ensures Sound(w, CleanUp(w, entries, refs, env))
  {
    var candidates := Candidates(entries, refs);
    if candidates != [] && env.others.Some? {
      CleaningKeepsDistinct(w.local, entries, candidates, env.others.value, env);
      forall r, owner | Claimed(w.local, r, owner)
        ensures Claimed(CleanEach(w.local, entries, candidates, env.others.value, env).local, r, owner)
      {
        CleaningKeepsClaims(w.local, entries, candidates, env.others.value, env, r, owner);
      }
    }
  }

  // ----- Runs -----

  ghost predicate ListDistinct(w: World) { w.mirror.Some? ==> Distinct(w.mirror.value.entries) }

  /** The StorageNodeSet the mirror made, unless it is on its way out already, has a RemoteStorageNodeSet
      that still holds the finalizer. */
  predicate NoOrphan(w: World) {
    w.nodeSet.Some? && w.nodeSet.value.mirrored && !w.nodeSet.value.deleting ==>
      w.mirror.Some? && w.mirror.value.finalizer
  }

  lemma SettleKeeps(w: World, s: Stage, env: PassEnv)
    requires w.mirror.Some? && ListDistinct(w) && Sound(w, s)
    ensures var w' := Settle(w, s, env);
            && ListDistinct(w') && w'.mirror.Some? && w'.mirror.value.finalizer == w.mirror.value.finalizer
            && forall r, owner :: Claimed(w.local, r, owner) ==> Claimed(w'.local, r, owner)
  {
  }

  lemma SyncKeeps(w: World, env: PassEnv)
    requires w.mirror.Some? && w.mirror.value.finalizer && ListDistinct(w)
    ensures var w' := Sync(w, env).world;
            && ListDistinct(w') && w'.mirror.Some? && w'.mirror.value.finalizer
            && forall r, owner :: Claimed(w.local, r, owner) ==> Claimed(w'.local, r, owner)
  {
    var o := w.mirror.value;
    var refs := RemoteRefs(o.spec);
    var init := InitEntries(w, o.entries, refs);
    InitIsSound(w, o.entries, refs);
    SettleKeeps(w, init, env);
    if init.Continue? {
      var sync, pushed := SyncObjects(w, o.spec.storage, o.entries, refs, env), PushNodeSet(w);
      SyncIsSound(w, o.spec.storage, o.entries, refs, env);
      SettleKeeps(w, sync, env);
      CleanUpIsSound(pushed, o.entries, refs, env);
      SettleKeeps(pushed, CleanUp(pushed, o.entries, refs, env), env);
    }
  }

  lemma DeleteKeeps(w: World, env: PassEnv)
    requires w.mirror.Some? && w.mirror.value.finalizer && ListDistinct(w)
    ensures var (w', ok) := DeleteExternal(w, env);
            && ListDistinct(w') && w'.mirror.value.finalizer && (ok ==> w'.nodeSet == Erased(w.nodeSet))
            && forall r, owner :: Claimed(w.local, r, owner) ==> Claimed(w'.local, r, owner)
  {
    CleanUpIsSound(w.(nodeSet := Erased(w.nodeSet)), w.mirror.value.entries, [], env);
  }

  lemma ReconcileKeeps(w: World, env: PassEnv)
    requires ListDistinct(w) && NoOrphan(w)
    ensures var w' := Reconcile(w, env).world;
            && ListDistinct(w') && NoOrphan(w')
            && forall r, owner :: Claimed(w.local, r, owner) ==> Claimed(w'.local, r, owner)
  {
    if w.mirror.Some? {
      var o := w.mirror.value;
      if o.deleting && o.finalizer {
        DeleteKeeps(w, env);
      } else if !o.deleting && (o.finalizer || env.finalizerWritten) {
        SyncKeeps(w.(mirror := Some(o.(finalizer := true))), env);
        assert w.(mirror := Some(o.(finalizer := true))) == w || !o.finalizer;
      }
    }
  }

  /** What every reachable world satisfies. */
  ghost predicate Inv(w: World) { ListDistinct(w) && NoOrphan(w) }

  lemma EventKeepsInv(w: World, e: Event)
    requires Inv(w)
    ensures Inv(Step(w, e))
  {
    if e.Pass? { ReconcileKeeps(w, e.env); }
  }

  lemma {:induction false} InvHolds(w: World, events: seq<Event>)
    requires Inv(w)
    ensures Inv(Run(w, events))
    decreases |events|
  {
    if events != [] {
      InvHolds(w, events[..|events| - 1]);
      EventKeepsInv(Run(w, events[..|events| - 1]), events[|events| - 1]);
    }
  }

  /** Status list integrity: over any run, no object is ever listed twice. */
  lemma {:induction false} NeverListedTwice(w: World, events: seq<Event>, i: nat, j: nat)
    requires Initial(w) && Run(w, events).mirror.Some?
    requires i < j < |Run(w, events).mirror.value.entries|
    ensures Run(w, events).mirror.value.entries[i].ref != Run(w, events).mirror.value.entries[j].ref
  {
    InvHolds(w, events);
  }

  /** No orphans: over any run, whenever the data cluster holds a StorageNodeSet the mirror made that is not
      on its way out, its RemoteStorageNodeSet exists and still holds the finalizer; and a pass that lets the
      RemoteStorageNodeSet go leaves a StorageNodeSet of that name, whoever made it, if and only if a
      finalizer holds it, and then on its way out. */
  lemma {:induction false} NoOrphans(w: World, events: seq<Event>, env: PassEnv)
    requires Initial(w)
    ensures NoOrphan(Run(w, events))
    ensures var v, v' := Run(w, events), Reconcile(Run(w, events), env).world;
            v.mirror.Some? && v.mirror.value.finalizer && (v'.mirror.None? || !v'.mirror.value.finalizer)
            ==> LetsGo(v, v')
  {
    InvHolds(w, events);
    var v := Run(w, events);
    if v.mirror.Some? && v.mirror.value.finalizer { FinalizerGoesLast(v, env); }
  }

  /** The RemoteStorageNodeSet was being deleted and is gone, and its StorageNodeSet has been deleted before. */
  predicate LetsGo(w: World, w': World) {
    && w.mirror.Some? && w.mirror.value.deleting && w'.mirror.None?
    && (w'.nodeSet.Some? <==> w.nodeSet.Some? && w.nodeSet.value.finalizer)
    && (w'.nodeSet.Some? ==> w'.nodeSet.value.deleting)
  }

  lemma FinalizerGoesLast(w: World, env: PassEnv)
    requires w.mirror.Some? && w.mirror.value.finalizer && ListDistinct(w)
    ensures var w' := Reconcile(w, env).world;
            w'.mirror.None? || !w'.mirror.value.finalizer ==> LetsGo(w, w')
  {
    if w.mirror.value.deleting { DeleteKeeps(w, env); } else { SyncKeeps(w, env); }
  }

  /** What deletion needs: its StorageNodeSet deleted, or gone already, and every listed copy dealt with. */
  predicate CanLetGo(w: World, env: PassEnv)
    requires w.mirror.Some?
  {
    var entries := w.mirror.value.entries;
    && env.finalizerWritten && env.nodeSetReadable && (w.nodeSet.None? || env.nodeSetDeleted)
    && (entries == [] || (env.others.Some? && env.statusWritten
          && forall i :: 0 <= i < |entries| ==>
               entries[i].ref !in env.inconvertible && entries[i].ref !in env.localUnreadable))
  }

  lemma {:induction false} CleaningEndsIff(local: map<Ref, Object>, entries: seq<RemoteResource>,
                                           candidates: seq<Ref>, others: bool, env: PassEnv)
    ensures CleanEach(local, entries, candidates, others, env).Report? <==> Reachable(candidates, env)
    decreases |candidates|
  {
    if candidates != [] {
      var r, rest := candidates[0], candidates[1..];
      if r in env.inconvertible || r in env.localUnreadable {
      } else {
        if r in local {
          CleaningEndsIff(Release(local, r, others, env), RemoveEntry(entries, r), rest, others, env);
        } else {
          CleaningEndsIff(local, entries, rest, others, env);
        }
        assert candidates == [r] + rest;
        assert forall i :: 0 <= i < |rest| ==> rest[i] == candidates[i + 1];
      }
    }
  }

  /** The finalizer: a pass lets a RemoteStorageNodeSet under deletion go exactly if every call it takes
      succeeds; if one fails, the finalizer stays. */
  lemma LetsGoIff(w: World, env: PassEnv)
    requires w.mirror.Some? && w.mirror.value.deleting && w.mirror.value.finalizer
    ensures Reconcile(w, env).world.mirror.None? <==> CanLetGo(w, env)
    ensures Reconcile(w, env).world.mirror.Some? ==> Reconcile(w, env).world.mirror.value.finalizer
  {
    var entries := w.mirror.value.entries;
    var candidates := Candidates(entries, []);
    AllAreCandidates(entries, env);
    if env.others.Some? { CleaningEndsIff(w.local, entries, candidates, env.others.value, env); }
  }

  lemma AllAreCandidates(entries: seq<RemoteResource>, env: PassEnv)
    ensures Candidates(entries, []) == [] <==> entries == []
    ensures Reachable(Candidates(entries, []), env) <==> forall i :: 0 <= i < |entries| ==>
              entries[i].ref !in env.inconvertible && entries[i].ref !in env.localUnreadable
  {
    var candidates := Candidates(entries, []);
    forall i | 0 <= i < |entries| ensures entries[i].ref in candidates { assert Listed(entries, entries[i].ref); }
    forall i | 0 <= i < |candidates|
      ensures Listed(entries, candidates[i]) && entries[EntryOf(entries, candidates[i])].ref == candidates[i]
    {
      assert candidates[i] in candidates;
    }
    if Reachable(candidates, env) {
      forall i | 0 <= i < |entries|
        ensures entries[i].ref !in env.inconvertible && entries[i].ref !in env.localUnreadable
      {
        var k :| 0 <= k < |candidates| && candidates[k] == entries[i].ref;
      }
    }
  }

  /** Somebody else may do what they like to the copy, except take the claim off it. */
  predicate Respects(w: World, e: Event, r: Ref, owner: string) {
    e.ChangeLocal? ==> Claimed(Step(w, e).local, r, owner)
  }

  lemma EventKeepsClaim(w: World, e: Event, r: Ref, owner: string)
    requires Inv(w) && Claimed(w.local, r, owner) && Respects(w, e, r, owner)
    ensures Claimed(Step(w, e).local, r, owner)
  {
    if e.Pass? { ReconcileKeeps(w, e.env); }
  }

  /** Foreign ownership: over any run of passes and cleanups from any reachable world, however the
      spec, the management cluster and the calls behave, a database annotation on a copy is neither
      removed nor changed, and the copy is not deleted. */
  lemma {:induction false} ClaimsStand(w: World, events: seq<Event>, r: Ref, owner: string)
    requires Inv(w) && Claimed(w.local, r, owner)
    requires forall k: nat :: k < |events| ==> Respects(Run(w, events[..k]), events[k], r, owner)
    ensures Claimed(Run(w, events).local, r, owner)
    decreases |events|
  {
    if events != [] {
      var n := |events| - 1;
      var before := events[..n];
      forall k: nat | k < n ensures Respects(Run(w, before[..k]), before[k], r, owner) {
        assert before[..k] == events[..k];
      }
      ClaimsStand(w, before, r, owner);
      InvHolds(w, before);
      assert Respects(Run(w, before), events[n], r, owner);
      EventKeepsClaim(Run(w, before), events[n], r, owner);
    }
  }
}
