/** Labels and selectors, from a Storage to the pods that serve it, directly or through a node set
    that is recast as a Storage of its own.

    A label map is specified one key at a time: the functions named `...At` say what a key holds, and
    the builders, which merge maps in place, are proved to produce maps that hold it. */
module Labels {
  import opened Wrappers

  datatype Key =
    | NameKey | InstanceKey | ComponentKey | PartOfKey | ManagedByKey
    | ServiceComponent | StatefulsetComponent
    | StorageNodeSetComponent | DatabaseNodeSetComponent | RemoteClusterKey
    | UserKey(name: string)

  type LabelMap = map<Key, string>

  const STORAGE_COMPONENT := "storage-node"

  /** The parts of a Storage that end up in labels: its metadata and the two user maps of its node spec. */
  datatype Storage = Storage(name: string, labels: LabelMap, additionalLabels: LabelMap, additionalPodLabels: LabelMap)

  datatype NodeSetInline = NodeSetInline(
    name: string, labels: LabelMap, additionalLabels: LabelMap, additionalPodLabels: LabelMap,
    remoteCluster: Option<string>)

  datatype NodeSet = NodeSet(
    name: string, labels: LabelMap, storageRef: string, additionalLabels: LabelMap, additionalPodLabels: LabelMap)

  /** A StatefulSet: its own selector and the labels of its pods. */
  datatype StatefulSet = StatefulSet(name: string, selector: LabelMap, podLabels: LabelMap)

  // ----- What each key holds -----

  function Get(labels: LabelMap, k: Key): Option<string> { if k in labels then Some(labels[k]) else None }

  function OrElse(a: Option<string>, b: Option<string>): Option<string> { if a.Some? then a else b }

  /** Which labels of another object are taken over into the common ones. */
  predicate TakenOver(k: Key) { k.StorageNodeSetComponent? || k.DatabaseNodeSetComponent? || k.RemoteClusterKey? }

  function CommonAt(other: LabelMap, instance: string, k: Key): Option<string> {
    match k
    case PartOfKey => OrElse(Get(other, PartOfKey), Some("yandex-database"))
    case NameKey => Some("ydb")
    case InstanceKey => Some(instance)
    case ManagedByKey => Some("ydb-operator")
    case _ => if TakenOver(k) then Get(other, k) else None
  }

  /** The selector of every service of a Storage. */
  function SelectorAt(cr: Storage, k: Key): Option<string> {
    if k.ComponentKey? then Some(STORAGE_COMPONENT) else CommonAt(cr.labels, cr.name, k)
  }

  function StorageAt(cr: Storage, k: Key): Option<string> { OrElse(Get(cr.additionalLabels, k), SelectorAt(cr, k)) }

  function PodAt(cr: Storage, name: string, k: Key): Option<string> {
    OrElse(Get(cr.additionalPodLabels, k), if k.StatefulsetComponent? then Some(name) else StorageAt(cr, k))
  }

  function NodeSetAt(cr: Storage, ns: NodeSetInline, k: Key): Option<string> {
    if k.RemoteClusterKey? && ns.remoteCluster.Some? then ns.remoteCluster
    else if k.StorageNodeSetComponent? then Some(ns.name)
    else OrElse(Get(ns.labels, k), StorageAt(cr, k))
  }

  function NodeSetName(cr: Storage, ns: NodeSetInline): string { cr.name + "-" + ns.name }

  // ----- What is built -----

  ghost predicate IsStatefulSet(s: StatefulSet, cr: Storage, name: string) {
    && s.name == name && s.selector == map[StatefulsetComponent := name]
    && forall k :: Get(s.podLabels, k) == PodAt(cr, name, k)
  }

  /** The node set made for an inline one. Pod labels the inline node set adds are not taken over. */
  ghost predicate IsNodeSet(n: NodeSet, cr: Storage, ns: NodeSetInline) {
    && n.name == NodeSetName(cr, ns) && n.storageRef == cr.name && n.additionalPodLabels == cr.additionalPodLabels
    && (forall k :: Get(n.labels, k) == NodeSetAt(cr, ns, k))
    && (forall k :: Get(n.additionalLabels, k) == OrElse(Get(ns.additionalLabels, k), Get(cr.additionalLabels, k)))
  }

  function RecastStorageNodeSet(n: NodeSet): Storage {
    Storage(n.storageRef, n.labels, n.additionalLabels, n.additionalPodLabels)
  }

  /** A node set's controller builds the StatefulSet of the Storage the node set is recast as. */
  ghost predicate IsNodeSetStatefulSet(s: StatefulSet, cr: Storage, ns: NodeSetInline) {
    exists n :: IsNodeSet(n, cr, ns) && IsStatefulSet(s, RecastStorageNodeSet(n), n.name)
  }

  // ----- The builders, in place -----

  /** `labels.Labels`: a map that is merged into where it stands. */
  class LabelSet {
    var entries: LabelMap

    constructor ()
      ensures forall k :: Get(entries, k) == None
    {
      entries := map[];
    }

    method Merge(other: LabelMap)
      modifies this
      ensures forall k :: Get(entries, k) == OrElse(Get(other, k), Get(old(entries), k))
    {
      var keys := other.Keys;
      while keys != {}
        invariant keys <= other.Keys
        invariant forall k :: Get(entries, k) == if k in keys then Get(old(entries), k)
                                                 else OrElse(Get(other, k), Get(old(entries), k))
        decreases |keys|
      {
        var k :| k in keys;
        keys := keys - {k};
        entries := entries[k := other[k]];
      }
    }

    /** The copy shares nothing with the original. */
    method Copy() returns (copy: LabelSet)
      ensures fresh(copy) && forall k :: Get(copy.entries, k) == Get(entries, k)
    {
      copy := new LabelSet();
      copy.Merge(entries);
    }

    method Set(k: Key, value: string)
      modifies this
      ensures forall j :: Get(entries, j) == if j == k then Some(value) else Get(old(entries), j)
    {
      entries := entries[k := value];
    }

    /** One label of another object, if it has it. */
    method TakeOver(other: LabelMap, k: Key)
      modifies this
      ensures forall j :: Get(entries, j) == if j == k then OrElse(Get(other, k), Get(old(entries), k))
                                             else Get(old(entries), j)
    {
      if k in other {
        entries := entries[k := other[k]];
      }
    }
  }

  method MakeFixedLabels(other: LabelMap, instance: string) returns (common: LabelSet)
    ensures fresh(common)
    ensures forall k :: Get(common.entries, k) == if TakenOver(k) then None else CommonAt(other, instance, k)
  {
    common := new LabelSet();
    common.Set(PartOfKey, if PartOfKey in other then other[PartOfKey] else "yandex-database");
    common.Set(NameKey, "ydb");
    common.Set(InstanceKey, instance);
    common.Set(ManagedByKey, "ydb-operator");
  }

  method MakeCommonLabels(other: LabelMap, instance: string) returns (common: LabelSet)
    ensures fresh(common) && forall k :: Get(common.entries, k) == CommonAt(other, instance, k)
  {
    common := MakeFixedLabels(other, instance);
    common.TakeOver(other, StorageNodeSetComponent);
    common.TakeOver(other, DatabaseNodeSetComponent);
    common.TakeOver(other, RemoteClusterKey);
  }

  method BuildSelectorLabels(cr: Storage) returns (l: LabelSet)
    ensures fresh(l) && forall k :: Get(l.entries, k) == SelectorAt(cr, k)
  {
    l := new LabelSet();
    var common := MakeCommonLabels(cr.labels, cr.name);
    l.Merge(common.entries);
    l.Merge(map[ComponentKey := STORAGE_COMPONENT]);
  }

  method BuildLabels(cr: Storage) returns (l: LabelSet)
    ensures fresh(l) && forall k :: Get(l.entries, k) == StorageAt(cr, k)
  {
    l := BuildSelectorLabels(cr);
    l.Merge(cr.additionalLabels);
  }

  method BuildNodeSetLabels(cr: Storage, ns: NodeSetInline) returns (l: LabelSet)
    ensures fresh(l) && forall k :: Get(l.entries, k) == NodeSetAt(cr, ns, k)
  {
    l := BuildLabels(cr);
    l.Merge(ns.labels);
    l.Merge(map[StorageNodeSetComponent := ns.name]);
    if ns.remoteCluster.Some? {
      l.Merge(map[RemoteClusterKey := ns.remoteCluster.value]);
    }
  }

  method BuildNodeSet(cr: Storage, ns: NodeSetInline) returns (n: NodeSet)
    ensures IsNodeSet(n, cr, ns)
  {
    var labels := BuildNodeSetLabels(cr, ns);
    var additional := new LabelSet();
    additional.Merge(cr.additionalLabels);
    additional.Merge(ns.additionalLabels);
    n := NodeSet(NodeSetName(cr, ns), labels.entries, cr.name, additional.entries, cr.additionalPodLabels);
  }

  /** The labels of a service are made on a copy: those of the StatefulSet stay as they were. */
  method BuildServiceLabels(storageLabels: LabelSet, additional: LabelMap, service: string) returns (l: LabelSet)
    ensures fresh(l)
    ensures forall k :: Get(l.entries, k) == if k.ServiceComponent? then Some(service)
                                             else OrElse(Get(additional, k), Get(storageLabels.entries, k))
  {
    l := storageLabels.Copy();
    l.Merge(additional);
    l.Merge(map[ServiceComponent := service]);
  }

  method BuildStatefulSet(cr: Storage, name: string) returns (s: StatefulSet)
    ensures IsStatefulSet(s, cr, name)
  {
    var labels := BuildLabels(cr);
    var podTemplateLabels := new LabelSet();
    podTemplateLabels.Merge(labels.entries);
    podTemplateLabels.Merge(map[StatefulsetComponent := name]);
    podTemplateLabels.Merge(cr.additionalPodLabels);
    s := StatefulSet(name, map[StatefulsetComponent := name], podTemplateLabels.entries);
  }

  // ----- Services select the pods -----

  ghost predicate Selects(cr: Storage, pods: LabelMap) {
    forall k :: SelectorAt(cr, k).Some? ==> Get(pods, k) == SelectorAt(cr, k)
  }

  /** What is selected is a storage node of the operator's making, of the Storage of that name. */
  lemma SelectedAreItsOwn(cr: Storage, pods: LabelMap)
    requires Selects(cr, pods)
    ensures Get(pods, ComponentKey) == Some("storage-node") && Get(pods, InstanceKey) == Some(cr.name)
    ensures Get(pods, NameKey) == Some("ydb") && Get(pods, ManagedByKey) == Some("ydb-operator")
  {
    forall k | k in {ComponentKey, InstanceKey, NameKey, ManagedByKey} ensures Get(pods, k) == SelectorAt(cr, k) {
      assert SelectorAt(cr, k).Some?;
    }
  }

  /** Whatever the users set on a selector's key, those for pods taking precedence, they set to the
      same value. */
  ghost predicate Agrees(additional: LabelMap, podLabels: LabelMap, cr: Storage) {
    forall k :: SelectorAt(cr, k).Some? && OrElse(Get(podLabels, k), Get(additional, k)).Some?
      ==> OrElse(Get(podLabels, k), Get(additional, k)) == SelectorAt(cr, k)
  }

  /** The services of a Storage without node sets select its pods exactly when the labels users add
      agree with the selector. */
  lemma ServicesSelectDirectPods(cr: Storage, s: StatefulSet)
    requires IsStatefulSet(s, cr, cr.name)
    ensures Selects(cr, s.podLabels) <==> Agrees(cr.additionalLabels, cr.additionalPodLabels, cr)
  {
    forall k ensures Get(s.podLabels, k) == PodAt(cr, cr.name, k) {}
  }

  /** Keys the operator itself gives a meaning to. */
  predicate AvoidsReserved(labels: LabelMap) { forall k :: k in labels ==> k.UserKey? }

  /** Another Storage's pods, where its user maps avoid the reserved keys, are selected exactly if it has the
      same name and the labels of the two agree on the application and on what is taken over: so never in
      one namespace, where names differ. */
  lemma ServicesSelectOthersIff(cr: Storage, other: Storage, s: StatefulSet)
    requires IsStatefulSet(s, other, other.name)
    requires AvoidsReserved(other.additionalLabels) && AvoidsReserved(other.additionalPodLabels)
    ensures Selects(cr, s.podLabels)
       <==> && cr.name == other.name
            && OrElse(Get(cr.labels, PartOfKey), Some("yandex-database"))
                 == OrElse(Get(other.labels, PartOfKey), Some("yandex-database"))
            && forall k :: TakenOver(k) && k in cr.labels ==> Get(other.labels, k) == Get(cr.labels, k)
  {
    forall k | SelectorAt(cr, k).Some? ensures Get(s.podLabels, k) == SelectorAt(other, k) {
      assert Get(s.podLabels, k) == PodAt(other, other.name, k);
      assert !k.UserKey?;
    }
    assert SelectorAt(cr, InstanceKey) == Some(cr.name) && SelectorAt(cr, PartOfKey).Some?;
    if Selects(cr, s.podLabels) {
      forall k | TakenOver(k) && k in cr.labels ensures Get(other.labels, k) == Get(cr.labels, k) {
        assert SelectorAt(cr, k) == Get(cr.labels, k);
      }
    }
  }

  /** The labels users add on the way through a node set. */
  function AddedAt(cr: Storage, ns: NodeSetInline, k: Key): Option<string> {
    OrElse(Get(cr.additionalPodLabels, k), OrElse(Get(ns.additionalLabels, k), Get(cr.additionalLabels, k)))
  }

  /** What a key of the selector holds on the pods of a node set, after recasting. */
  lemma NodeSetPodLabel(cr: Storage, ns: NodeSetInline, n: NodeSet, s: StatefulSet, k: Key)
    requires IsNodeSet(n, cr, ns) && IsStatefulSet(s, RecastStorageNodeSet(n), n.name)
    requires SelectorAt(cr, k).Some?
    ensures Get(s.podLabels, k)
         == if AddedAt(cr, ns, k).Some? then AddedAt(cr, ns, k)
            else if k.StorageNodeSetComponent? then Some(ns.name)
            else if k.RemoteClusterKey? && ns.remoteCluster.Some? then ns.remoteCluster
            else if k.PartOfKey? || TakenOver(k) then OrElse(Get(ns.labels, k), SelectorAt(cr, k))
            else SelectorAt(cr, k)
  {
    assert Get(n.labels, k) == NodeSetAt(cr, ns, k);
    assert Get(n.additionalLabels, k) == OrElse(Get(ns.additionalLabels, k), Get(cr.additionalLabels, k));
    assert Get(s.podLabels, k) == PodAt(RecastStorageNodeSet(n), n.name, k);
  }

  ghost predicate AddedAgrees(cr: Storage, ns: NodeSetInline) {
    forall k :: SelectorAt(cr, k).Some? && AddedAt(cr, ns, k).Some? ==> AddedAt(cr, ns, k) == SelectorAt(cr, k)
  }

  predicate NamesNoNodeSet(labels: LabelMap) { forall k :: k in labels ==> !TakenOver(k) }

  lemma PlainPodLabel(cr: Storage, ns: NodeSetInline, n: NodeSet, s: StatefulSet, k: Key)
    requires IsNodeSet(n, cr, ns) && IsStatefulSet(s, RecastStorageNodeSet(n), n.name)
    requires NamesNoNodeSet(cr.labels) && SelectorAt(cr, k).Some?
    ensures Get(s.podLabels, k)
         == OrElse(AddedAt(cr, ns, k),
                   if k.PartOfKey? then OrElse(Get(ns.labels, k), SelectorAt(cr, k)) else SelectorAt(cr, k))
  {
    NodeSetPodLabel(cr, ns, n, s, k);
    assert !TakenOver(k);
  }

  /** Selectors survive recasting: if the Storage's own labels name no node set and no remote cluster,
      its services select the pods of a node set exactly when the labels added on the way agree with
      the selector and the node set's own labels do not rename the application it is part of. */
  lemma ServicesSelectNodeSetPods(cr: Storage, ns: NodeSetInline, s: StatefulSet)
    requires IsNodeSetStatefulSet(s, cr, ns) && NamesNoNodeSet(cr.labels)
    ensures Selects(cr, s.podLabels)
       <==> && AddedAgrees(cr, ns)
            && (PartOfKey in ns.labels && AddedAt(cr, ns, PartOfKey).None? ==>
                  Get(ns.labels, PartOfKey) == SelectorAt(cr, PartOfKey))
  {
    var n :| IsNodeSet(n, cr, ns) && IsStatefulSet(s, RecastStorageNodeSet(n), n.name);
    forall k | SelectorAt(cr, k).Some? { PlainPodLabel(cr, ns, n, s, k); }
    assert SelectorAt(cr, PartOfKey).Some?;
  }

  predicate UsersAvoidReserved(cr: Storage, ns: NodeSetInline) {
    && AvoidsReserved(cr.additionalLabels) && AvoidsReserved(cr.additionalPodLabels)
    && AvoidsReserved(ns.additionalLabels) && AvoidsReserved(ns.labels)
  }

  lemma ReservedPodLabel(cr: Storage, ns: NodeSetInline, n: NodeSet, s: StatefulSet, k: Key)
    requires IsNodeSet(n, cr, ns) && IsStatefulSet(s, RecastStorageNodeSet(n), n.name)
    requires UsersAvoidReserved(cr, ns) && SelectorAt(cr, k).Some?
    ensures Get(s.podLabels, k)
         == if k.StorageNodeSetComponent? then Some(ns.name)
            else if k.RemoteClusterKey? && ns.remoteCluster.Some? then ns.remoteCluster
            else SelectorAt(cr, k)
  {
    NodeSetPodLabel(cr, ns, n, s, k);
    assert !k.UserKey?;
  }

  /** If the users' maps avoid the reserved keys, the pods of a node set are selected exactly when the
      Storage's own labels name no other node set and no other remote cluster. */
  lemma ReservedKeysKept(cr: Storage, ns: NodeSetInline, s: StatefulSet)
    requires IsNodeSetStatefulSet(s, cr, ns) && UsersAvoidReserved(cr, ns)
    ensures Selects(cr, s.podLabels)
       <==> && (StorageNodeSetComponent in cr.labels ==> cr.labels[StorageNodeSetComponent] == ns.name)
            && (RemoteClusterKey in cr.labels && ns.remoteCluster.Some? ==>
                  cr.labels[RemoteClusterKey] == ns.remoteCluster.value)
  {
    var n :| IsNodeSet(n, cr, ns) && IsStatefulSet(s, RecastStorageNodeSet(n), n.name);
    forall k | SelectorAt(cr, k).Some? { ReservedPodLabel(cr, ns, n, s, k); }
    assert SelectorAt(cr, StorageNodeSetComponent) == Get(cr.labels, StorageNodeSetComponent);
    assert SelectorAt(cr, RemoteClusterKey) == Get(cr.labels, RemoteClusterKey);
  }

  // ----- StatefulSets select their own pods -----

  predicate SelectsOwn(s: StatefulSet, pods: LabelMap) {
    forall k :: k in s.selector ==> Get(pods, k) == Some(s.selector[k])
  }

  lemma SelectsByName(s: StatefulSet, cr: Storage, name: string, pods: LabelMap)
    requires IsStatefulSet(s, cr, name)
    ensures SelectsOwn(s, pods) <==> Get(pods, StatefulsetComponent) == Some(name)
    ensures Get(s.podLabels, StatefulsetComponent)
         == OrElse(Get(cr.additionalPodLabels, StatefulsetComponent), Some(name))
  {
    assert StatefulsetComponent in s.selector;
  }

  /** Each of two sibling StatefulSets selects its own pods and not the other's, exactly when the added
      pod labels do not touch the key they are told apart by. */
  lemma StatefulSetsSelectTheirOwn(cr: Storage, a: NodeSetInline, b: NodeSetInline, s: StatefulSet, t: StatefulSet)
    requires IsNodeSetStatefulSet(s, cr, a) && IsNodeSetStatefulSet(t, cr, b) && a.name != b.name
    ensures (SelectsOwn(s, s.podLabels) && SelectsOwn(t, t.podLabels)
             && !SelectsOwn(s, t.podLabels) && !SelectsOwn(t, s.podLabels))
       <==> StatefulsetComponent !in cr.additionalPodLabels
  {
    var m :| IsNodeSet(m, cr, a) && IsStatefulSet(s, RecastStorageNodeSet(m), m.name);
    var n :| IsNodeSet(n, cr, b) && IsStatefulSet(t, RecastStorageNodeSet(n), n.name);
    SelectsByName(s, RecastStorageNodeSet(m), m.name, s.podLabels);
    SelectsByName(s, RecastStorageNodeSet(m), m.name, t.podLabels);
    SelectsByName(t, RecastStorageNodeSet(n), n.name, t.podLabels);
    SelectsByName(t, RecastStorageNodeSet(n), n.name, s.podLabels);
    assert a.name == m.name[|cr.name| + 1..] && b.name == n.name[|cr.name| + 1..];
  }
}
