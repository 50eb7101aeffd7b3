/** How a Storage pushes its inline node sets to StorageNodeSet and RemoteStorageNodeSet objects and
    deletes those it owns and no longer lists. */
module OwnedNodeSets {
  import opened Wrappers
  import opened Conditions
  import opened Scaling
  import opened StorageModel
  import opened NodeSetModel

  datatype Objects = Objects(nodeSets: map<NodeSetRef, NodeSet>, nextUid: nat)

  function RefOf(e: NodeSetEntry): NodeSetRef { NodeSetRef(e.remote, e.name) }

  predicate Listed(entries: seq<NodeSetEntry>, ref: NodeSetRef) {
    exists i :: 0 <= i < |entries| && RefOf(entries[i]) == ref
  }

  function Recast(spec: StorageSpec, e: NodeSetEntry): NodeSetSpec {
    NodeSetSpec(e.nodes, spec.pause, spec.operatorSync, spec.config, e.overrides)
  }

  /** Create-or-update of one node set. A missing object is created with a fresh uid at generation 1;
      an existing one is adopted unless another controller owns it, and its generation rises exactly
      when its spec changes. `answer` is whether the API server goes along. */
  function Push(o: Objects, spec: StorageSpec, e: NodeSetEntry, answer: bool): (Objects, bool) {
    var ref := RefOf(e);
    if !answer then (o, false)
    else if ref !in o.nodeSets then
      (Objects(o.nodeSets[ref := NodeSet(o.nextUid, ThisStorage, 1, Recast(spec, e), Status(Pending, []),
                                         false, false, None)], o.nextUid + 1), true)
    else
      var n := o.nodeSets[ref];
      if n.owner.AnotherController? then (o, false)
      else
        var raised := if n.spec == Recast(spec, e) then n.generation else n.generation + 1;
        var pushed := n.(owner := ThisStorage, spec := Recast(spec, e), generation := raised);
        (o.(nodeSets := o.nodeSets[ref := pushed]), true)
  }

  function PushAll(o: Objects, spec: StorageSpec, entries: seq<NodeSetEntry>, answers: seq<bool>): (Objects, bool)
    decreases |entries|
  {
    if entries == [] then (o, true)
    else
      var (next, ok) := Push(o, spec, entries[0], answers != [] && answers[0]);
      if !ok then (next, false)
      else PushAll(next, spec, entries[1..], if answers == [] then [] else answers[1..])
  }

  /** The owned objects the spec does not list. */
  function Unwanted(nodeSets: map<NodeSetRef, NodeSet>, entries: seq<NodeSetEntry>): set<NodeSetRef> {
    set ref | ref in nodeSets && nodeSets[ref].owner.ThisStorage? && !Listed(entries, ref)
  }

  /** Deleting an object that carries a finalizer only marks it. */
  function Deleted(nodeSets: map<NodeSetRef, NodeSet>, victims: set<NodeSetRef>): map<NodeSetRef, NodeSet> {
    map ref | ref in nodeSets && !(ref in victims && !nodeSets[ref].finalizer) ::
      if ref in victims && !nodeSets[ref].deleting
      then nodeSets[ref].(deleting := true, generation := nodeSets[ref].generation + 1)
      else nodeSets[ref]
  }

  /** What a deletion leaves: nothing of an object without finalizer; one with a finalizer on its way out, its
      generation raised if it was not before; and every other object as it was. */
  lemma DeletedMeans(nodeSets: map<NodeSetRef, NodeSet>, victims: set<NodeSetRef>, ref: NodeSetRef)
    requires ref in nodeSets
    ensures var before, after := nodeSets[ref], Deleted(nodeSets, victims);
            && (ref in after <==> ref !in victims || before.finalizer)
            && (ref in after ==>
                  after[ref] == (if ref in victims && !before.deleting
                                 then before.(deleting := true, generation := before.generation + 1) else before))
  {
  }

  lemma DeletedOneMore(nodeSets: map<NodeSetRef, NodeSet>, victims: set<NodeSetRef>, ref: NodeSetRef)
    requires ref !in victims
    ensures Deleted(Deleted(nodeSets, victims), {ref}) == Deleted(nodeSets, victims + {ref})
  {
  }

  // ----- The two loops -----

  class Pusher {
    var objects: Objects

    method CreateOrUpdate(spec: StorageSpec, e: NodeSetEntry, answer: bool) returns (ok: bool)
      modifies this
      ensures (objects, ok) == Push(old(objects), spec, e, answer)
    {
      if !answer {
        return false;
      }
      var ref := RefOf(e);
      if ref !in objects.nodeSets {
        var n := NodeSet(objects.nextUid, ThisStorage, 1, Recast(spec, e), Status(Pending, []), false, false, None);
        objects := Objects(objects.nodeSets[ref := n], objects.nextUid + 1);
        return true;
      }
      var n := objects.nodeSets[ref];
      if n.owner.AnotherController? {
        return false;
      }
      if n.spec != Recast(spec, e) {
        n := n.(spec := Recast(spec, e), generation := n.generation + 1);
      }
      objects := objects.(nodeSets := objects.nodeSets[ref := n.(owner := ThisStorage)]);
      return true;
    }

    method SyncBuilders(spec: StorageSpec, entries: seq<NodeSetEntry>, answers: seq<bool>) returns (ok: bool)
      requires |answers| == |entries|
      modifies this
      ensures (objects, ok) == PushAll(old(objects), spec, entries, answers)
    {
      for i := 0 to |entries|
        invariant PushAll(old(objects), spec, entries, answers) == PushAll(objects, spec, entries[i..], answers[i..])
      {
        assert entries[i..][1..] == entries[i + 1..] && answers[i..][1..] == answers[i + 1..];
        ok := CreateOrUpdate(spec, entries[i], answers[i]);
        if !ok {
          return;
        }
      }
      return true;
    }

    method Delete(ref: NodeSetRef)
      requires ref in objects.nodeSets
      modifies this
      ensures objects == old(objects).(nodeSets := Deleted(old(objects.nodeSets), {ref}))
    {
      var n := objects.nodeSets[ref];
      ghost var before := objects.nodeSets;
      if !n.finalizer {
        objects := objects.(nodeSets := objects.nodeSets - {ref});
      } else if !n.deleting {
        objects := objects.(nodeSets := objects.nodeSets[ref := n.(deleting := true, generation := n.generation + 1)]);
      }
      assert objects.nodeSets == Deleted(before, {ref});
    }

    method IsListed(entries: seq<NodeSetEntry>, ref: NodeSetRef) returns (found: bool)
      ensures found == Listed(entries, ref)
    {
      found := false;
      for i := 0 to |entries|
        invariant !found && forall j :: 0 <= j < i ==> RefOf(entries[j]) != ref
      {
        if entries[i].remote == ref.remote && entries[i].name == ref.name {
          assert RefOf(entries[i]) == ref;
          return true;
        }
      }
    }

    /** One listing and its deletions; `deletable` are the deletions the API server will accept. */
    method PruneKind(entries: seq<NodeSetEntry>, remote: bool, deletable: set<NodeSetRef>)
      returns (ok: bool, ghost victims: set<NodeSetRef>)
      modifies this
      ensures objects == old(objects).(nodeSets := Deleted(old(objects.nodeSets), victims))
      ensures var all := set ref | ref in Unwanted(old(objects.nodeSets), entries) && ref.remote == remote;
              victims <= all && (ok ==> victims == all)
    {
      ghost var before := objects.nodeSets;
      var items := set ref |
        ref in objects.nodeSets && objects.nodeSets[ref].owner.ThisStorage? && ref.remote == remote;
      ghost var listed := items;
      victims := {};
      assert objects.nodeSets == Deleted(before, {});
      while items != {}
        invariant items <= listed && victims !! items
        invariant forall r :: r in items ==> r in objects.nodeSets
        invariant objects == old(objects).(nodeSets := Deleted(before, victims))
        invariant victims == set ref | ref in listed && ref !in items && !Listed(entries, ref)
        decreases |items|
      {
        var ref :| ref in items;
        var found := IsListed(entries, ref);
        if !found {
          if ref !in deletable {
            return false, victims;
          }
          Delete(ref);
          DeletedOneMore(before, victims, ref);
          victims := victims + {ref};
        }
        items := items - {ref};
      }
      ok := true;
    }
  }

  // ----- What they add up to -----

  /** How a push leaves an object that was there: the same incarnation with the same status, and an
      unchanged spec whenever the generation is unchanged. */
  predicate Succeeds(before: NodeSet, after: NodeSet) {
    && after.uid == before.uid && after.status == before.status && after.statefulSet == before.statefulSet
    && after.finalizer == before.finalizer && after.deleting == before.deleting
    && after.generation >= before.generation
    && (after.generation == before.generation ==> after.spec == before.spec)
  }

  predicate Fresh(n: NodeSet, nextUid: nat) {
    n.uid >= nextUid && n.status == Status(Pending, []) && !n.finalizer && !n.deleting && n.statefulSet.None?
  }

  /** The entry that decides for a ref: the last one of that name and kind. */
  predicate Decides(entries: seq<NodeSetEntry>, i: nat) {
    i < |entries| && forall j :: i < j < |entries| ==> RefOf(entries[j]) != RefOf(entries[i])
  }

  lemma PushFrame(o: Objects, spec: StorageSpec, e: NodeSetEntry, answer: bool)
    ensures var next := Push(o, spec, e, answer).0;
            && o.nextUid <= next.nextUid
            && (forall ref :: ref != RefOf(e) ==>
                  (ref in next.nodeSets <==> ref in o.nodeSets) &&
                  (ref in o.nodeSets ==> next.nodeSets[ref] == o.nodeSets[ref]))
            && (RefOf(e) in o.nodeSets ==>
                  RefOf(e) in next.nodeSets && Succeeds(o.nodeSets[RefOf(e)], next.nodeSets[RefOf(e)]))
            && (RefOf(e) in next.nodeSets && RefOf(e) !in o.nodeSets ==>
                  Fresh(next.nodeSets[RefOf(e)], o.nextUid) && next.nodeSets[RefOf(e)].uid < next.nextUid)
            && (Push(o, spec, e, answer).1 ==>
                  RefOf(e) in next.nodeSets && next.nodeSets[RefOf(e)].owner.ThisStorage?
                  && next.nodeSets[RefOf(e)].spec == Recast(spec, e))
  {
  }

  /** Pushing leaves what it does not list alone and every object it touches the same incarnation. */
  lemma {:induction false} PushAllFrame(o: Objects, spec: StorageSpec, entries: seq<NodeSetEntry>,
                                        answers: seq<bool>, ref: NodeSetRef)
    ensures var next := PushAll(o, spec, entries, answers).0;
            && o.nextUid <= next.nextUid
            && (ref in o.nodeSets ==> ref in next.nodeSets && Succeeds(o.nodeSets[ref], next.nodeSets[ref]))
            && (ref in next.nodeSets && ref !in o.nodeSets ==>
                  Fresh(next.nodeSets[ref], o.nextUid) && next.nodeSets[ref].uid < next.nextUid)
            && (!Listed(entries, ref) ==>
                  (ref in next.nodeSets <==> ref in o.nodeSets) &&
                  (ref in o.nodeSets ==> next.nodeSets[ref] == o.nodeSets[ref]))
    decreases |entries|
  {
    if entries != [] {
      var answer := answers != [] && answers[0];
      var (next, ok) := Push(o, spec, entries[0], answer);
      PushFrame(o, spec, entries[0], answer);
      if Listed(entries[1..], ref) {
        var i :| 0 <= i < |entries[1..]| && RefOf(entries[1..][i]) == ref;
        assert RefOf(entries[i + 1]) == ref;
      }
      if !Listed(entries, ref) { assert RefOf(entries[0]) != ref; }
      if ok {
        PushAllFrame(next, spec, entries[1..], if answers == [] then [] else answers[1..], ref);
      }
    }
  }

  /** When every push succeeds, each listed object is there, owned, with the spec of the entry that decides. */
  lemma {:induction false} PushAllDelivers(o: Objects, spec: StorageSpec, entries: seq<NodeSetEntry>,
                                           answers: seq<bool>, i: nat)
    requires PushAll(o, spec, entries, answers).1 && Decides(entries, i)
    ensures var next := PushAll(o, spec, entries, answers).0;
            var ref := RefOf(entries[i]);
            && ref in next.nodeSets && next.nodeSets[ref].owner.ThisStorage?
            && next.nodeSets[ref].spec == Recast(spec, entries[i])
    decreases |entries|
  {
    var answer := answers != [] && answers[0];
    var rest := if answers == [] then [] else answers[1..];
    var (next, ok) := Push(o, spec, entries[0], answer);
    if i == 0 {
      PushFrame(o, spec, entries[0], answer);
      forall j | 0 <= j < |entries[1..]| ensures RefOf(entries[1..][j]) != RefOf(entries[0]) {
        assert entries[1..][j] == entries[j + 1];
      }
      PushAllFrame(next, spec, entries[1..], rest, RefOf(entries[0]));
    } else {
      forall j | i - 1 < j < |entries[1..]| ensures RefOf(entries[1..][j]) != RefOf(entries[1..][i - 1]) {
        assert RefOf(entries[j + 1]) != RefOf(entries[i]);
      }
      PushAllDelivers(next, spec, entries[1..], rest, i - 1);
    }
  }

  /** Objects another controller owns are not touched. */
  lemma {:induction false} OthersAreLeft(o: Objects, spec: StorageSpec, entries: seq<NodeSetEntry>,
                                         answers: seq<bool>, ref: NodeSetRef)
    requires ref in o.nodeSets && o.nodeSets[ref].owner.AnotherController?
    ensures var next := PushAll(o, spec, entries, answers).0;
            ref in next.nodeSets && next.nodeSets[ref] == o.nodeSets[ref]
    decreases |entries|
  {
    if entries != [] {
      var (next, ok) := Push(o, spec, entries[0], answers != [] && answers[0]);
      PushFrame(o, spec, entries[0], answers != [] && answers[0]);
      if ok { OthersAreLeft(next, spec, entries[1..], if answers == [] then [] else answers[1..], ref); }
    }
  }

  /** The listed objects are free to be taken. */
  predicate Free(o: Objects, entries: seq<NodeSetEntry>) {
    forall i :: 0 <= i < |entries| && RefOf(entries[i]) in o.nodeSets ==>
      !o.nodeSets[RefOf(entries[i])].owner.AnotherController?
  }

  /** The push succeeds exactly if the API server goes along with each object and another controller owns none. */
  lemma {:induction false} PushSucceedsIff(o: Objects, spec: StorageSpec, entries: seq<NodeSetEntry>,
                                           answers: seq<bool>)
    requires |answers| == |entries|
    ensures PushAll(o, spec, entries, answers).1 <==>
            (forall i :: 0 <= i < |answers| ==> answers[i]) && Free(o, entries)
    decreases |entries|
  {
    if entries != [] {
      var (next, ok) := Push(o, spec, entries[0], answers[0]);
      var rest := entries[1..];
      assert forall i :: 0 < i < |entries| ==> entries[i] == rest[i - 1] && answers[i] == answers[1..][i - 1];
      if ok {
        PushFrame(o, spec, entries[0], answers[0]);
        PushSucceedsIff(next, spec, rest, answers[1..]);
        assert forall i :: 0 <= i < |rest| ==> rest[i] == entries[i + 1];
      }
    }
  }

  lemma {:induction false} SomeEntryDecides(entries: seq<NodeSetEntry>, ref: NodeSetRef) returns (i: nat)
    requires Listed(entries, ref)
    ensures Decides(entries, i) && RefOf(entries[i]) == ref
    decreases |entries|
  {
    var n := |entries| - 1;
    if RefOf(entries[n]) == ref {
      i := n;
    } else {
      var j :| 0 <= j < |entries| && RefOf(entries[j]) == ref;
      assert RefOf(entries[..n][j]) == ref;
      i := SomeEntryDecides(entries[..n], ref);
      forall j | i < j < |entries| ensures RefOf(entries[j]) != RefOf(entries[i]) {
        if j < n { assert RefOf(entries[..n][j]) != RefOf(entries[..n][i]); }
      }
    }
  }

  /** The node sets of this Storage that are not on their way out. */
  predicate Live(nodeSets: map<NodeSetRef, NodeSet>, ref: NodeSetRef) {
    ref in nodeSets && nodeSets[ref].owner.ThisStorage? && !nodeSets[ref].deleting
  }

  /** Owned equals desired: when the pushes and the deletions all succeed, whatever was there before,
      every listed node set exists and is owned; an owned object that is not listed is being deleted and
      only waits for its finalizer; and objects of other owners are as they were. The live owned objects are
      exactly the listed ones if and only if no listed one was already being deleted. */
  lemma OwnedEqualsDesired(o: Objects, spec: StorageSpec, entries: seq<NodeSetEntry>, answers: seq<bool>)
    requires PushAll(o, spec, entries, answers).1
    ensures var pushed := PushAll(o, spec, entries, answers).0.nodeSets;
            var after := Deleted(pushed, Unwanted(pushed, entries));
            && (forall ref :: Listed(entries, ref) ==> ref in after && after[ref].owner.ThisStorage?)
            && (forall ref :: ref in after && after[ref].owner.ThisStorage? && !Listed(entries, ref) ==>
                  after[ref].deleting && after[ref].finalizer)
            && (forall ref :: ref in o.nodeSets && !Listed(entries, ref) && !o.nodeSets[ref].owner.ThisStorage? ==>
                  ref in after && after[ref] == o.nodeSets[ref])
            && ((forall ref :: Live(after, ref) <==> Listed(entries, ref)) <==>
                (forall ref :: Listed(entries, ref) && ref in o.nodeSets ==> !o.nodeSets[ref].deleting))
  {
    var pushed := PushAll(o, spec, entries, answers).0.nodeSets;
    var after := Deleted(pushed, Unwanted(pushed, entries));
    forall ref ensures (ref in o.nodeSets ==> ref in pushed && Succeeds(o.nodeSets[ref], pushed[ref]))
                    && (ref in pushed && ref !in o.nodeSets ==> !pushed[ref].deleting)
                    && (!Listed(entries, ref) && ref in o.nodeSets ==> pushed[ref] == o.nodeSets[ref])
    {
      PushAllFrame(o, spec, entries, answers, ref);
    }
    forall ref | Listed(entries, ref)
      ensures ref in after && after[ref].owner.ThisStorage? && after[ref] == pushed[ref]
    {
      var i := SomeEntryDecides(entries, ref);
      PushAllDelivers(o, spec, entries, answers, i);
    }
    assert forall ref :: Live(after, ref) ==> Listed(entries, ref);
    forall ref | Listed(entries, ref)
      ensures Live(after, ref) <==> !(ref in o.nodeSets && o.nodeSets[ref].deleting)
    {
      assert ref in after;
    }
  }

  /** It does happen that one was: a remote node set that was unlisted, is on its way out but held by its
      finalizer, and is listed again. The push succeeds and takes it for the one asked for. */
  lemma ListedAgainTooEarly(spec: StorageSpec)
    ensures var e := NodeSetEntry("a", 1, true, 0);
            var going := NodeSet(0, ThisStorage, 2, Recast(spec, e), Status(Ready, []), true, true, None);
            var o := Objects(map[RefOf(e) := going], 1);
            && PushAll(o, spec, [e], [true]).1
            && var pushed := PushAll(o, spec, [e], [true]).0.nodeSets;
               Listed([e], RefOf(e)) && !Live(Deleted(pushed, Unwanted(pushed, [e])), RefOf(e))
  {
    var e := NodeSetEntry("a", 1, true, 0);
    assert [e][1..] == [] && [true][1..] == [];
    assert RefOf([e][0]) == RefOf(e);
  }
}
