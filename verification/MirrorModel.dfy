/** The mirror: a RemoteStorageNodeSet of the management cluster makes the data cluster hold copies
    of the objects a Storage needs there, and a StorageNodeSet of the same name.

    One pass copies or corrects at most one object. What has been mirrored is remembered in the
    status list `entries`; the finalizer and the ownership annotations say when a copy may go. */
module MirrorModel {
  import opened Wrappers
  import opened Conditions

  /** The API type and the name of an object; all are in one namespace. */
  datatype Ref = Ref(group: string, version: string, kind: string, name: string)

  datatype Key = PrimaryStorage | PrimaryDatabase | RemoteVersion | OtherKey(name: string)

  /** The metadata a cluster assigns to its own copy. */
  datatype Meta = Meta(resourceVersion: string, created: string, uid: string,
                       owners: seq<string>, finalizers: seq<string>, managed: seq<string>)

  const NO_META := Meta("", "", "", [], [], [])

  /** `content` stands for everything else the two copies share; the addresses are those of a Service. */
  datatype Object = Object(meta: Meta, annotations: map<Key, string>, content: string,
                           clusterIP: string, clusterIPs: seq<string>, status: string)

  predicate IsService(r: Ref) { r.group == "" && r.version == "v1" && r.kind == "Service" }

  // ----- Copies -----

  predicate IsPrimary(k: Key) { k.PrimaryDatabase? || k.PrimaryStorage? }

  function CopyPrimary(annotations: map<Key, string>, from: map<Key, string>): (r: map<Key, string>)
    ensures forall k :: k in r <==> k in annotations || (k in from && IsPrimary(k))
    ensures forall k :: k in r ==> r[k] == if k in from && IsPrimary(k) then from[k] else annotations[k]
  {
    annotations + (map k | k in from && IsPrimary(k) :: from[k])
  }

  function CreateResource(r: Ref, obj: Object): Object {
    obj.(meta := NO_META,
         clusterIP := if IsService(r) then "" else obj.clusterIP,
         clusterIPs := if IsService(r) then [] else obj.clusterIPs,
         annotations := obj.annotations[RemoteVersion := obj.meta.resourceVersion])
  }

  /** The remote object in the identity of the local one. */
  function UpdateResource(r: Ref, local: Object, remote: Object): Object {
    remote.(meta := local.meta,
            clusterIP := if IsService(r) then local.clusterIP else remote.clusterIP,
            clusterIPs := if IsService(r) then local.clusterIPs else remote.clusterIPs,
            annotations :=
              CopyPrimary(remote.annotations, local.annotations)[RemoteVersion := remote.meta.resourceVersion])
  }

  function SetPrimary(annotations: map<Key, string>, storage: string): map<Key, string> {
    if PrimaryStorage in annotations then annotations else annotations[PrimaryStorage := storage]
  }

  /** What the local copy of a remote object should be. */
  function Wanted(r: Ref, local: Object, remote: Object, storage: string): Object {
    UpdateResource(r, local, remote.(annotations := SetPrimary(remote.annotations, storage)))
  }

  /** The patch between two objects is empty: they differ at most in their status. */
  predicate Same(a: Object, b: Object) { a.(status := b.status) == b }

  // ----- The status list -----

  datatype SyncState = SyncPending | SyncSuccess

  datatype RemoteResource = RemoteResource(ref: Ref, state: SyncState, conditions: seq<Condition>)

  predicate Synced(e: RemoteResource) { Is(e.conditions, ResourceSynced, True) }

  /** Where the first entry for an object stands; the length of the list if there is none. */
  function EntryOf(entries: seq<RemoteResource>, r: Ref): (i: nat)
    ensures i <= |entries|
    ensures i < |entries| ==> entries[i].ref == r
    ensures forall j :: 0 <= j < i ==> entries[j].ref != r
  {
    if entries == [] || entries[0].ref == r then 0 else 1 + EntryOf(entries[1..], r)
  }

  predicate Listed(entries: seq<RemoteResource>, r: Ref) { EntryOf(entries, r) < |entries| }

  function NewEntry(r: Ref): RemoteResource {
    RemoteResource(r, SyncPending, SetStatusCondition([], Condition(ResourceSynced, Unknown, InProgress, 0, Empty)))
  }

  function Marked(e: RemoteResource, ok: bool): RemoteResource {
    if ok then
      RemoteResource(e.ref, SyncSuccess,
                     SetStatusCondition(e.conditions, Condition(ResourceSynced, True, Completed, 0, Note)))
    else
      RemoteResource(e.ref, SyncPending,
                     SetStatusCondition(e.conditions, Condition(ResourceSynced, False, InProgress, 0, Note)))
  }

  function Mark(entries: seq<RemoteResource>, r: Ref, ok: bool): seq<RemoteResource>
    requires Listed(entries, r)
  {
    entries[EntryOf(entries, r) := Marked(entries[EntryOf(entries, r)], ok)]
  }

  /** The entry for the object is cut out; if there is none, the first entry of the list is. No pass
      asks this of an empty list: MirrorReconciler proves the entry is always there. */
  function RemoveEntry(entries: seq<RemoteResource>, r: Ref): seq<RemoteResource> {
    var i := if Listed(entries, r) then EntryOf(entries, r) else 0;
    if entries == [] then [] else entries[..i] + entries[i + 1..]
  }

  // ----- One pass -----

  /** The part of a RemoteStorageNodeSet's spec the mirror reads; `payload` is the rest, copied as is. */
  datatype Spec = Spec(storage: string, secrets: seq<string>, payload: string)

  function SecretRefs(names: seq<string>): seq<Ref> {
    if names == [] then [] else [Ref("", "v1", "Secret", names[0])] + SecretRefs(names[1..])
  }

  /** The objects to mirror: the listed secrets, the configuration, and the three services. */
  function RemoteRefs(spec: Spec): seq<Ref> {
    SecretRefs(spec.secrets) +
    [Ref("", "v1", "ConfigMap", spec.storage),
     Ref("", "v1", "Service", spec.storage + "-grpc"),
     Ref("", "v1", "Service", spec.storage + "-interconnect"),
     Ref("", "v1", "Service", spec.storage + "-status")]
  }

  datatype Remote = Remote(spec: Spec, deleting: bool, finalizer: bool, entries: seq<RemoteResource>, status: Status)

  /** The StorageNodeSet of that name in the data cluster; `mirrored` if the mirror created it. The
      operator sets no finalizer on it, but somebody else may. */
  datatype NodeSet = NodeSet(
    storage: string, payload: string, status: Status, mirrored: bool, finalizer: bool, deleting: bool)

  /** What is left of a node set that is deleted: it only goes once no finalizer holds it. */
  function Erased(n: Option<NodeSet>): Option<NodeSet> {
    if n.Some? && n.value.finalizer then Some(n.value.(deleting := true)) else None
  }

  datatype World = World(
    mirror: Option<Remote>, remote: map<Ref, Object>, local: map<Ref, Object>, nodeSet: Option<NodeSet>)

  /** The answers of the two API servers during one pass. Any call may fail; a crash is the case
      where everything after some point fails. */
  datatype PassEnv = PassEnv(
    finalizerWritten: bool, statusWritten: bool,
    remoteUnreadable: set<Ref>, localUnreadable: set<Ref>,
    created: bool, diffed: bool, patched: bool, server: Object,
    nodeSetSynced: bool, nodeSetReadable: bool, nodeSetDeleted: bool,
    others: Option<bool>,                        // other node sets of the same Storage, if they could be listed
    inconvertible: set<Ref>, unsetFails: set<Ref>, deleteFails: set<Ref>,
    statusCopied: bool)

  /** How a step ends: with nothing to do, with a failure, or with a status list to persist. The
      data cluster has changed in any case. */
  datatype Stage =
    | Continue
    | Halt(local: map<Ref, Object>)
    | Report(local: map<Ref, Object>, entries: seq<RemoteResource>)

  function InitEntries(w: World, entries: seq<RemoteResource>, refs: seq<Ref>): (s: Stage)
    ensures s.Continue? <==> forall i :: 0 <= i < |refs| ==> Listed(entries, refs[i])
  {
    if refs == [] then Continue
    else if Listed(entries, refs[0]) then InitEntries(w, entries, refs[1..])
    else Report(w.local, entries + [NewEntry(refs[0])])
  }

  /** The server stores an object it was sent under its own metadata. */
  function Stored(r: Ref, obj: Object, server: Object): Object {
    if IsService(r) then obj.(meta := server.meta, clusterIP := server.clusterIP, clusterIPs := server.clusterIPs)
    else obj.(meta := server.meta)
  }

  function Patched(local: Object, updated: Object, server: Object): Object {
    updated.(meta := updated.meta.(resourceVersion := server.meta.resourceVersion), status := local.status)
  }

  function SyncObject(w: World, storage: string, entries: seq<RemoteResource>, r: Ref, env: PassEnv): Stage
    requires Listed(entries, r)
  {
    if r !in w.remote || r in env.remoteUnreadable then Halt(w.local)
    else if r in env.localUnreadable then Report(w.local, Mark(entries, r, false))
    else if r !in w.local then
      (if env.created
       then Report(w.local[r := Stored(r, CreateResource(r, w.remote[r]), env.server)], Mark(entries, r, true))
       else Report(w.local, Mark(entries, r, false)))
    else SyncPresent(w, storage, entries, r, env)
  }

  function SyncPresent(w: World, storage: string, entries: seq<RemoteResource>, r: Ref, env: PassEnv): Stage
    requires Listed(entries, r) && r in w.remote && r in w.local
  {
    var wanted := Wanted(r, w.local[r], w.remote[r], storage);
    if !env.diffed then Report(w.local, Mark(entries, r, false))
    else if !Same(w.local[r], wanted) then
      (if env.patched then Report(w.local[r := Patched(w.local[r], wanted, env.server)], Mark(entries, r, true))
       else Report(w.local, Mark(entries, r, false)))
    else if !Synced(entries[EntryOf(entries, r)]) then Report(w.local, Mark(entries, r, true))
    else Continue
  }

  function SyncObjects(w: World, storage: string, entries: seq<RemoteResource>, refs: seq<Ref>, env: PassEnv): Stage
    requires forall i :: 0 <= i < |refs| ==> Listed(entries, refs[i])
  {
    if refs == [] then Continue
    else
      var s := SyncObject(w, storage, entries, refs[0], env);
      if s.Continue? then SyncObjects(w, storage, entries, refs[1..], env) else s
  }

  /** The objects listed in the status that the spec no longer asks for. */
  function Candidates(entries: seq<RemoteResource>, refs: seq<Ref>): (r: seq<Ref>)
    ensures forall k :: k in r <==> k !in refs && Listed(entries, k)
  {
    if entries == [] then []
    else if entries[0].ref in refs then Candidates(entries[1..], refs)
    else [entries[0].ref] + Candidates(entries[1..], refs)
  }

  function Disown(local: Object, r: Ref, others: bool, env: PassEnv): Object {
    if others || r in env.unsetFails then local
    else local.(annotations := local.annotations - {PrimaryStorage})
  }

  /** A copy no longer needed loses its storage annotation unless another node set is there, and is
      deleted unless it bears a database annotation; its entry goes even if one of the calls failed. */
  function Release(local: map<Ref, Object>, r: Ref, others: bool, env: PassEnv): map<Ref, Object>
    requires r in local
  {
    var obj := Disown(local[r], r, others, env);
    if PrimaryDatabase !in obj.annotations && r !in env.deleteFails then local - {r} else local[r := obj]
  }

  function CleanEach(local: map<Ref, Object>, entries: seq<RemoteResource>, candidates: seq<Ref>,
                     others: bool, env: PassEnv): (s: Stage)
    ensures !s.Continue?
  {
    if candidates == [] then Report(local, entries)
    else
      var r := candidates[0];
      if r in env.inconvertible || r in env.localUnreadable then Halt(local)
      else if r !in local then CleanEach(local, entries, candidates[1..], others, env)
      else CleanEach(Release(local, r, others, env), RemoveEntry(entries, r), candidates[1..], others, env)
  }

  function CleanUp(w: World, entries: seq<RemoteResource>, refs: seq<Ref>, env: PassEnv): Stage {
    var candidates := Candidates(entries, refs);
    if candidates == [] then Continue
    else if env.others.None? then Halt(w.local)
    else CleanEach(w.local, entries, candidates, env.others.value, env)
  }

  /** A pass: the new world, and whether the pass ran to its end. */
  datatype Outcome = Outcome(world: World, finished: bool)

  function Settle(w: World, s: Stage, env: PassEnv): (v: World)
    requires w.mirror.Some?
    ensures v.remote == w.remote && v.nodeSet == w.nodeSet && v.mirror.Some?
    ensures v.mirror.value.(entries := w.mirror.value.entries) == w.mirror.value
  {
    match s
    case Continue => w
    case Halt(local) => w.(local := local)
    case Report(local, entries) =>
      var m := w.mirror.value;
      w.(local := local, mirror := Some(if env.statusWritten then m.(entries := entries) else m))
  }

  const NEW_STATUS := Status(Pending, [])

  /** The StorageNodeSet is created, or its spec replaced. */
  function PushNodeSet(w: World): World
    requires w.mirror.Some?
  {
    var spec := w.mirror.value.spec;
    w.(nodeSet := Some(if w.nodeSet.Some? then w.nodeSet.value.(storage := spec.storage, payload := spec.payload)
                       else NodeSet(spec.storage, spec.payload, NEW_STATUS, true, false, false)))
  }

  function CopyStatus(w: World): World
    requires w.mirror.Some? && w.nodeSet.Some?
  {
    w.(mirror := Some(w.mirror.value.(status := w.nodeSet.value.status)))
  }

  function Sync(w: World, env: PassEnv): (o: Outcome)
    requires w.mirror.Some?
    ensures o.world.remote == w.remote && o.world.mirror.Some?
    ensures var before, after := w.mirror.value, o.world.mirror.value;
            after.spec == before.spec && after.deleting == before.deleting && after.finalizer == before.finalizer
  {
    var o := w.mirror.value;
    var refs := RemoteRefs(o.spec);
    var init := InitEntries(w, o.entries, refs);
    if !init.Continue? then Outcome(Settle(w, init, env), false)
    else
      var sync := SyncObjects(w, o.spec.storage, o.entries, refs, env);
      if !sync.Continue? then Outcome(Settle(w, sync, env), false)
      else if !env.nodeSetSynced then Outcome(w, false)
      else
        var pushed := PushNodeSet(w);
        var clean := CleanUp(pushed, o.entries, refs, env);
        if !clean.Continue? then Outcome(Settle(pushed, clean, env), false)
        else if !env.nodeSetReadable || !env.statusCopied then Outcome(pushed, false)
        else Outcome(CopyStatus(pushed), true)
  }

  /** `deleteExternalResources`: the StorageNodeSet goes first, then every mirrored object is
      released. The answer is whether the finalizer may be removed. */
  function DeleteExternal(w: World, env: PassEnv): (r: (World, bool))
    requires w.mirror.Some?
    ensures r.0.mirror.Some?
  {
    if !env.nodeSetReadable || (w.nodeSet.Some? && !env.nodeSetDeleted) then (w, false)
    else
      var gone := w.(nodeSet := Erased(w.nodeSet));
      var clean := CleanUp(gone, w.mirror.value.entries, [], env);
      (Settle(gone, clean, env), clean.Continue? || (clean.Report? && env.statusWritten))
  }

  function Reconcile(w: World, env: PassEnv): Outcome {
    if w.mirror.None? then Outcome(w, false)
    else if !w.mirror.value.deleting then
      if w.mirror.value.finalizer then Sync(w, env)
      else if env.finalizerWritten then Sync(w.(mirror := Some(w.mirror.value.(finalizer := true))), env)
      else Outcome(w, false)
    else if !w.mirror.value.finalizer then Outcome(w, false)
    else
      var (v, ok) := DeleteExternal(w, env);
      // Without its last finalizer an object under deletion is gone.
      Outcome(if ok && env.finalizerWritten then v.(mirror := None) else v, false)
  }

  // ----- Everything that can happen around the mirror -----

  datatype Event =
    | Pass(env: PassEnv)
    | CreateRemote(spec: Spec)
    | EditRemote(spec: Spec)
    | DeleteRemote
    | ChangeRemote(ref: Ref, to: Option<Object>)     // an object of the management cluster
    | ChangeLocal(ref: Ref, to: Option<Object>)      // somebody else acts on an object of the data cluster
    | ReportNodeSet(status: Status)
    | CreateNodeSet(nodeSet: NodeSet)                // somebody else creates the StorageNodeSet,
    | DeleteNodeSet                                  // deletes it,
    | FinalizeNodeSet(finalizer: bool)               // or holds it by a finalizer and lets it go

  function Placed(objects: map<Ref, Object>, r: Ref, to: Option<Object>): map<Ref, Object> {
    if to.Some? then objects[r := to.value] else objects - {r}
  }

  function Step(w: World, e: Event): World {
    match e
    case Pass(env) => Reconcile(w, env).world
    case CreateRemote(spec) =>
      if w.mirror.None? then w.(mirror := Some(Remote(spec, false, false, [], NEW_STATUS))) else w
    case EditRemote(spec) => if w.mirror.Some? then w.(mirror := Some(w.mirror.value.(spec := spec))) else w
    case DeleteRemote =>
      if w.mirror.None? then w
      else if w.mirror.value.finalizer then w.(mirror := Some(w.mirror.value.(deleting := true)))
      else w.(mirror := None)
    case ChangeRemote(r, to) => w.(remote := Placed(w.remote, r, to))
    case ChangeLocal(r, to) => w.(local := Placed(w.local, r, to))
    case ReportNodeSet(status) =>
      if w.nodeSet.Some? then w.(nodeSet := Some(w.nodeSet.value.(status := status))) else w
    case CreateNodeSet(nodeSet) =>
      if w.nodeSet.None? && !nodeSet.mirrored then w.(nodeSet := Some(nodeSet)) else w
    case DeleteNodeSet => w.(nodeSet := Erased(w.nodeSet))
    case FinalizeNodeSet(finalizer) =>
      if w.nodeSet.None? then w
      else if w.nodeSet.value.deleting && !finalizer then w.(nodeSet := None)
      else w.(nodeSet := Some(w.nodeSet.value.(finalizer := finalizer)))
  }

  function Run(w: World, events: seq<Event>): World
    decreases |events|
  {
    if events == [] then w else Step(Run(w, events[..|events| - 1]), events[|events| - 1])
  }

  /** Nothing has been mirrored yet. */
  predicate Initial(w: World) {
    w.mirror.None? && (w.nodeSet.None? || !w.nodeSet.value.mirrored)
  }
}
