/** The two ways a Storage or a Database learns whether its nodes run: from its one StatefulSet, or from
    the certificates of its node sets. */
module Scaling {
  import opened Wrappers
  import opened Conditions

  /** An inline node set; `overrides` stands for the fields it sets over the Storage's own. */
  datatype NodeSetEntry = NodeSetEntry(name: string, nodes: int, remote: bool, overrides: nat)

  datatype NodeSetRef = NodeSetRef(remote: bool, name: string)

  datatype NodeSetView = NodeSetView(generation: nat, conditions: seq<Condition>)

  datatype Lookup = Unreadable | Replicas(ready: int)

  datatype Scale = Unread | Lagging | Settled

  predicate Certified(v: NodeSetView) { IsAt(v.conditions, NodeSetProvisioned, True, v.generation) }

  function ScanNodeSets(entries: seq<NodeSetEntry>, views: map<NodeSetRef, NodeSetView>): Scale {
    if entries == [] then Settled
    else
      var ref := NodeSetRef(entries[0].remote, entries[0].name);
      if ref !in views then Unread
      else if !Certified(views[ref]) then Lagging
      else ScanNodeSets(entries[1..], views)
  }

  function ScaleOf(nodes: int, nodeSets: Option<seq<NodeSetEntry>>, statefulSet: Lookup,
                   views: map<NodeSetRef, NodeSetView>): Scale {
    match nodeSets
    case Some(entries) => ScanNodeSets(entries, views)
    case None =>
      match statefulSet
      case Unreadable => Unread
      case Replicas(ready) => if ready != nodes then Lagging else Settled
  }

  /** The node set of an entry could be read and holds a true certificate for its current generation. */
  predicate RunsAsListed(e: NodeSetEntry, views: map<NodeSetRef, NodeSetView>) {
    var ref := NodeSetRef(e.remote, e.name);
    ref in views && IsAt(views[ref].conditions, NodeSetProvisioned, True, views[ref].generation)
  }

  /** What a pass that goes on past the wait has read: the asked number of ready replicas, or a node set that
      runs as listed for every entry. */
  predicate AllRun(nodes: int, nodeSets: Option<seq<NodeSetEntry>>, statefulSet: Lookup,
                   views: map<NodeSetRef, NodeSetView>) {
    match nodeSets
    case None => statefulSet == Replicas(nodes)
    case Some(entries) => forall i :: 0 <= i < |entries| ==> RunsAsListed(entries[i], views)
  }

  /** That entry is the first whose node set does not run as listed, and its node set could be read. */
  predicate LagsAt(entries: seq<NodeSetEntry>, views: map<NodeSetRef, NodeSetView>, i: nat) {
    && i < |entries| && NodeSetRef(entries[i].remote, entries[i].name) in views
    && !RunsAsListed(entries[i], views) && forall j :: 0 <= j < i ==> RunsAsListed(entries[j], views)
  }

  /** What a pass that reports a lag has read: another number of ready replicas, or a node set that lags. */
  predicate SomeLag(nodes: int, nodeSets: Option<seq<NodeSetEntry>>, statefulSet: Lookup,
                    views: map<NodeSetRef, NodeSetView>) {
    match nodeSets
    case None => statefulSet.Replicas? && statefulSet.ready != nodes
    case Some(entries) => exists i :: 0 <= i < |entries| && LagsAt(entries, views, i)
  }

  lemma {:induction false} ScanSettles(entries: seq<NodeSetEntry>, views: map<NodeSetRef, NodeSetView>)
    ensures ScanNodeSets(entries, views).Settled? <==>
            forall i :: 0 <= i < |entries| ==> RunsAsListed(entries[i], views)
  {
    if entries != [] {
      ScanSettles(entries[1..], views);
      assert forall i :: 0 < i < |entries| ==> entries[i] == entries[1..][i - 1];
    }
  }

  lemma {:induction false} ScanLags(entries: seq<NodeSetEntry>, views: map<NodeSetRef, NodeSetView>)
    ensures ScanNodeSets(entries, views).Lagging? <==> exists i :: 0 <= i < |entries| && LagsAt(entries, views, i)
  {
    if entries != [] {
      var rest := entries[1..];
      ScanLags(rest, views);
      assert entries == [entries[0]] + rest;
      if i :| 0 <= i < |rest| && LagsAt(rest, views, i) {
        assert RunsAsListed(entries[0], views) ==> LagsAt(entries, views, i + 1);
      }
      if i :| 0 < i < |entries| && LagsAt(entries, views, i) {
        assert forall j :: 0 <= j < i - 1 ==> rest[j] == entries[j + 1];
        assert LagsAt(rest, views, i - 1);
      }
      assert LagsAt(entries, views, 0) <==>
        NodeSetRef(entries[0].remote, entries[0].name) in views && !RunsAsListed(entries[0], views);
    }
  }

  /** The three ways a wait ends, spelled out. */
  lemma ScaleMeans(nodes: int, nodeSets: Option<seq<NodeSetEntry>>, statefulSet: Lookup,
                   views: map<NodeSetRef, NodeSetView>)
    ensures ScaleOf(nodes, nodeSets, statefulSet, views).Settled? <==> AllRun(nodes, nodeSets, statefulSet, views)
    ensures ScaleOf(nodes, nodeSets, statefulSet, views).Lagging? <==> SomeLag(nodes, nodeSets, statefulSet, views)
  {
    if nodeSets.Some? {
      ScanSettles(nodeSets.value, views);
      ScanLags(nodeSets.value, views);
    }
  }

  datatype StatefulSet = StatefulSet(replicas: int, ready: int)

  /** The StatefulSet the builder asks for; one already scaled to zero is left alone during a pause. */
  function Rescaled(pause: bool, nodes: int, statefulSet: Option<StatefulSet>): StatefulSet {
    match statefulSet
    case None => StatefulSet(if pause then 0 else nodes, 0)
    case Some(sts) =>
      if pause && sts.replicas == 0 then sts
      else sts.(replicas := if pause then 0 else nodes)
  }
}
