/** The hosts written into the cluster configuration, and the pods they must be.

    Two pieces of code compute the same names apart: `generateHosts` when a Storage is defaulted, and
    the StatefulSets its node sets become. This module shows when they agree. */
module Hosts {
  import opened Wrappers

  datatype Erasure = Mirror3DC | Block42 | NoErasure | Unlisted(name: string)

  datatype NodeSetInline = NodeSetInline(name: string, nodes: int)

  datatype Host = Host(
    host: string, hostConfigId: int, nodeId: int, port: int, body: int, dataCenter: string, rack: string)

  /** The parsed configuration: its hosts, if the document has any such key, and the rest. */
  datatype Configuration = Configuration(hosts: Option<seq<Host>>, rest: string)

  datatype Storage = Storage(
    name: string, nodes: int, erasure: Erasure, nodeSets: Option<seq<NodeSetInline>>, pause: bool,
    operatorSync: bool, configuration: Configuration)

  const INTERCONNECT_PORT := 19001

  // ----- Decimal numbers and pod names -----

  const DIGITS := "0123456789"

  function Itoa(n: nat): (s: string)
    ensures |s| >= 1
    ensures forall i :: 0 <= i < |s| ==> s[i] != '-'
  {
    if n < 10 then [DIGITS[n]] else Itoa(n / 10) + [DIGITS[n % 10]]
  }

  /** The number a decimal numeral stands for. */
  function Value(s: string): nat
    requires forall i :: 0 <= i < |s| ==> '0' <= s[i] <= '9'
  {
    if s == "" then 0 else 10 * Value(s[..|s| - 1]) + (s[|s| - 1] as nat - '0' as nat)
  }

  lemma {:induction false} ItoaRoundTrip(n: nat)
    ensures forall i :: 0 <= i < |Itoa(n)| ==> '0' <= Itoa(n)[i] <= '9'
    ensures Value(Itoa(n)) == n
    ensures Itoa(n)[0] == '0' ==> n == 0
  {
    assert forall d :: 0 <= d < 10 ==> DIGITS[d] as nat - '0' as nat == d;
    if n < 10 {
      assert Itoa(n)[..0] == "";
    } else {
      ItoaRoundTrip(n / 10);
      assert Itoa(n)[..|Itoa(n)| - 1] == Itoa(n / 10);
    }
  }

  lemma ItoaIsInjective(m: nat, n: nat)
    requires Itoa(m) == Itoa(n)
    ensures m == n
  {
    ItoaRoundTrip(m);
    ItoaRoundTrip(n);
  }

  /** The pod of a StatefulSet with that ordinal. */
  function PodName(statefulSet: string, ordinal: nat): string { statefulSet + "-" + Itoa(ordinal) }

  lemma LastDash(a: string, x: string, b: string, y: string)
    requires a + "-" + x == b + "-" + y
    requires forall i :: 0 <= i < |y| ==> y[i] != '-'
    ensures |a| <= |b|
  {
    var s := b + "-" + y;
    assert (a + "-" + x)[|a|] == '-';
    forall k | |b| < k < |s| ensures s[k] != '-' { assert s[k] == y[k - |b| - 1]; }
  }

  /** A pod name determines its StatefulSet and its ordinal. */
  lemma PodNameIsInjective(a: string, i: nat, b: string, j: nat)
    requires PodName(a, i) == PodName(b, j)
    ensures a == b && i == j
  {
    LastDash(a, Itoa(i), b, Itoa(j));
    LastDash(b, Itoa(j), a, Itoa(i));
    var s := PodName(a, i);
    assert a == s[..|a|] && b == s[..|a|];
    assert Itoa(i) == s[|a| + 1..] && Itoa(j) == s[|a| + 1..];
    ItoaIsInjective(i, j);
  }

  /** A loop up to a negative count does not run. */
  function Count(nodes: int): nat { if nodes < 0 then 0 else nodes }

  function PodsOf(statefulSet: string, nodes: int): (r: seq<string>)
    ensures |r| == Count(nodes) && forall j :: 0 <= j < |r| ==> r[j] == PodName(statefulSet, j)
  {
    seq(Count(nodes), j requires 0 <= j < Count(nodes) => PodName(statefulSet, j))
  }

  function SetName(storage: string, nodeSet: string): string { storage + "-" + nodeSet }

  // ----- generateHosts -----

  function BaseHost(cr: Storage, i: nat): Host {
    Host(PodName(cr.name, i), 1, i + 1, INTERCONNECT_PORT, 12340 + i,
         if cr.erasure.Mirror3DC? then "az-" + Itoa(i % 3) else "az-1", Itoa(i))
  }

  /** The names the node sets give, in order. */
  function SetHosts(storage: string, sets: seq<NodeSetInline>): seq<string> {
    if sets == [] then []
    else PodsOf(SetName(storage, sets[0].name), sets[0].nodes) + SetHosts(storage, sets[1..])
  }

  function Overwritten(cr: Storage): seq<string> {
    if cr.nodeSets.Some? then SetHosts(cr.name, cr.nodeSets.value) else []
  }

  /** The hosts generated; none if the node sets ask for more than there are nodes, where the code
      runs past the end of the list. */
  function HostsOf(cr: Storage): Option<seq<Host>> {
    var n, names := Count(cr.nodes), Overwritten(cr);
    if |names| > n then None
    else Some(HostList(cr, n, names))
  }

  function HostList(cr: Storage, n: nat, names: seq<string>): (r: seq<Host>)
    requires |names| <= n
    ensures |r| == n
    ensures forall i :: 0 <= i < |names| ==> r[i] == BaseHost(cr, i).(host := names[i])
    ensures forall i :: |names| <= i < n ==> r[i] == BaseHost(cr, i)
  {
    seq(n, i requires 0 <= i < n => if i < |names| then BaseHost(cr, i).(host := names[i]) else BaseHost(cr, i))
  }

  method GenerateHosts(cr: Storage) returns (r: Option<seq<Host>>)
    ensures r == HostsOf(cr)
  {
    var hosts: seq<Host> := [];
    for i := 0 to Count(cr.nodes)
      invariant |hosts| == i && forall j :: 0 <= j < i ==> hosts[j] == BaseHost(cr, j)
    {
      var dataCenter := "az-1";
      if cr.erasure.Mirror3DC? {
        dataCenter := "az-" + Itoa(i % 3);
      }
      hosts := hosts + [Host(PodName(cr.name, i), 1, i + 1, INTERCONNECT_PORT, 12340 + i, dataCenter, Itoa(i))];
    }
    if cr.nodeSets.None? {
      assert hosts == HostList(cr, |hosts|, []);
      return Some(hosts);
    }
    r := NameAfterNodeSets(cr, cr.nodeSets.value, hosts);
    assert r.Some? ==> r.value == HostList(cr, |hosts|, SetHosts(cr.name, cr.nodeSets.value));
  }

  /** The hosts are renamed one by one, in the order of the node sets. */
  method NameAfterNodeSets(cr: Storage, sets: seq<NodeSetInline>, generated: seq<Host>) returns (r: Option<seq<Host>>)
    requires |generated| == Count(cr.nodes) && forall j :: 0 <= j < |generated| ==> generated[j] == BaseHost(cr, j)
    ensures var names := SetHosts(cr.name, sets);
            if |names| > |generated| then r == None
            else && r.Some? && |r.value| == |generated|
                 && (forall j :: 0 <= j < |names| ==> r.value[j] == BaseHost(cr, j).(host := names[j]))
                 && (forall j :: |names| <= j < |generated| ==> r.value[j] == BaseHost(cr, j))
  {
    var n, hosts := |generated|, generated;
    var hostIndex := 0;
    ghost var names := SetHosts(cr.name, sets);
    for k := 0 to |sets|
      invariant 0 <= hostIndex <= |names| && RenamedTo(cr, hosts, n, names, hostIndex)
      invariant names[hostIndex..] == SetHosts(cr.name, sets[k..])
    {
      ghost var pods := PodsOf(SetName(cr.name, sets[k].name), sets[k].nodes);
      assert sets[k..][0] == sets[k] && sets[k..][1..] == sets[k + 1..];
      assert names[hostIndex..] == pods + SetHosts(cr.name, sets[k + 1..]);
      var named := NameAfterOne(cr, sets[k], hosts, hostIndex, names);
      if named.None? {
        return None;
      }
      hosts := named.value;
      assert names[hostIndex + |pods|..] == names[hostIndex..][|pods|..];
      hostIndex := hostIndex + Count(sets[k].nodes);
    }
    assert sets[|sets|..] == [];
    assert |names| == hostIndex;
    return Some(hosts);
  }

  /** The first hosts have their names already. */
  ghost predicate RenamedTo(cr: Storage, hosts: seq<Host>, n: nat, names: seq<string>, done: nat)
    requires done <= |names|
  {
    && |hosts| == n && done <= n
    && (forall j :: 0 <= j < done ==> hosts[j] == BaseHost(cr, j).(host := names[j]))
    && (forall j :: done <= j < n ==> hosts[j] == BaseHost(cr, j))
  }

  /** The inner loop: the pods of one node set; none if it runs past the last host. */
  method NameAfterOne(cr: Storage, ns: NodeSetInline, given: seq<Host>, from: nat, ghost names: seq<string>)
    returns (r: Option<seq<Host>>)
    requires from + Count(ns.nodes) <= |names| && RenamedTo(cr, given, |given|, names, from)
    requires forall j :: 0 <= j < Count(ns.nodes) ==> names[from + j] == PodName(SetName(cr.name, ns.name), j)
    ensures r.None? <==> from + Count(ns.nodes) > |given|
    ensures r.Some? ==> RenamedTo(cr, r.value, |given|, names, from + Count(ns.nodes))
  {
    var hosts, hostIndex := given, from;
    for podIndex := 0 to Count(ns.nodes)
      invariant hostIndex == from + podIndex && RenamedTo(cr, hosts, |given|, names, hostIndex)
    {
      if hostIndex == |hosts| {
        return None;
      }
      assert names[from + podIndex] == PodName(SetName(cr.name, ns.name), podIndex);
      hosts := hosts[hostIndex := hosts[hostIndex].(host := cr.name + "-" + ns.name + "-" + Itoa(podIndex))];
      hostIndex := hostIndex + 1;
    }
    return Some(hosts);
  }

  // ----- The StatefulSets -----

  datatype StatefulSet = StatefulSet(name: string, replicas: int)

  function Replicas(nodes: int, pause: bool): int { if pause then 0 else nodes }

  function FromNodeSets(storage: string, sets: seq<NodeSetInline>, pause: bool): seq<StatefulSet> {
    if sets == [] then []
    else [StatefulSet(SetName(storage, sets[0].name), Replicas(sets[0].nodes, pause))]
         + FromNodeSets(storage, sets[1..], pause)
  }

  /** One StatefulSet for the whole cluster, or one for each node set, here or in a remote cluster. */
  function StatefulSets(cr: Storage): seq<StatefulSet> {
    match cr.nodeSets
    case None => [StatefulSet(cr.name, Replicas(cr.nodes, cr.pause))]
    case Some(sets) => FromNodeSets(cr.name, sets, cr.pause)
  }

  /** The pods those StatefulSets ask for. */
  ghost predicate Requested(cr: Storage, pod: string) {
    exists k, ordinal: nat :: 0 <= k < |StatefulSets(cr)| && ordinal < Count(StatefulSets(cr)[k].replicas)
      && pod == PodName(StatefulSets(cr)[k].name, ordinal)
  }

  function Total(sets: seq<NodeSetInline>): nat {
    if sets == [] then 0 else Count(sets[0].nodes) + Total(sets[1..])
  }

  lemma {:induction false} SetHostsTotal(storage: string, sets: seq<NodeSetInline>)
    ensures |SetHosts(storage, sets)| == Total(sets)
  {
    if sets != [] { SetHostsTotal(storage, sets[1..]); }
  }

  lemma {:induction false} SetHostsAt(storage: string, sets: seq<NodeSetInline>, i: nat) returns (k: nat, ordinal: nat)
    requires i < |SetHosts(storage, sets)|
    ensures k < |sets| && ordinal < Count(sets[k].nodes)
    ensures SetHosts(storage, sets)[i] == PodName(SetName(storage, sets[k].name), ordinal)
    ensures i == Total(sets[..k]) + ordinal
  {
    var first := Count(sets[0].nodes);
    if i < first {
      k, ordinal := 0, i;
    } else {
      k, ordinal := SetHostsAt(storage, sets[1..], i - first);
      assert sets[..k + 1][1..] == sets[1..][..k];
      k := k + 1;
    }
  }

  lemma {:induction false} SetHostsHave(storage: string, sets: seq<NodeSetInline>, k: nat, ordinal: nat)
    returns (i: nat)
    requires k < |sets| && ordinal < Count(sets[k].nodes)
    ensures i < |SetHosts(storage, sets)|
    ensures SetHosts(storage, sets)[i] == PodName(SetName(storage, sets[k].name), ordinal)
  {
    if k == 0 {
      i := ordinal;
    } else {
      i := SetHostsHave(storage, sets[1..], k - 1, ordinal);
      i := i + Count(sets[0].nodes);
    }
  }

  lemma {:induction false} FromNodeSetsAt(storage: string, sets: seq<NodeSetInline>, pause: bool)
    ensures |FromNodeSets(storage, sets, pause)| == |sets|
    ensures forall k :: 0 <= k < |sets| ==>
              FromNodeSets(storage, sets, pause)[k]
              == StatefulSet(SetName(storage, sets[k].name), Replicas(sets[k].nodes, pause))
  {
    if sets != [] { FromNodeSetsAt(storage, sets[1..], pause); }
  }

  ghost predicate DistinctNames(sets: seq<NodeSetInline>) {
    forall i, j :: 0 <= i < j < |sets| ==> sets[i].name != sets[j].name
  }

  /** Some host has that pod's name. */
  predicate Named(hosts: seq<Host>, pod: string) { exists i :: 0 <= i < |hosts| && hosts[i].host == pod }

  lemma SetNameIsInjective(storage: string, a: string, b: string)
    requires SetName(storage, a) == SetName(storage, b)
    ensures a == b
  {
    assert a == SetName(storage, a)[|storage| + 1..] && b == SetName(storage, b)[|storage| + 1..];
  }

  lemma {:induction false} TotalGrows(sets: seq<NodeSetInline>, k: nat)
    requires k < |sets|
    ensures Total(sets[..k + 1]) == Total(sets[..k]) + Count(sets[k].nodes)
  {
    if k > 0 {
      TotalGrows(sets[1..], k - 1);
      assert sets[..k][1..] == sets[1..][..k - 1] && sets[..k + 1][1..] == sets[1..][..k];
    }
  }

  /** No two generated names are equal if no two node sets are. */
  lemma SetHostsDistinct(storage: string, sets: seq<NodeSetInline>, i: nat, j: nat)
    requires DistinctNames(sets) && i < j < |SetHosts(storage, sets)|
    ensures SetHosts(storage, sets)[i] != SetHosts(storage, sets)[j]
  {
    var k, a := SetHostsAt(storage, sets, i);
    var l, b := SetHostsAt(storage, sets, j);
    if SetHosts(storage, sets)[i] == SetHosts(storage, sets)[j] {
      PodNameIsInjective(SetName(storage, sets[k].name), a, SetName(storage, sets[l].name), b);
      SetNameIsInjective(storage, sets[k].name, sets[l].name);
      assert false;
    }
  }

  /** The racks, the failure domains of the cluster, are told apart by their hosts' places in the list. */
  lemma RacksAreDistinct(cr: Storage, i: nat, j: nat)
    requires HostsOf(cr).Some? && i < j < |HostsOf(cr).value|
    ensures var hosts := HostsOf(cr).value;
            && hosts[i].rack != hosts[j].rack && hosts[j].body - hosts[i].body == j - i
            && hosts[i].port == 19001 && hosts[j].port == 19001 && hosts[0].body == 12340
  {
    if Itoa(i) == Itoa(j) {
      ItoaIsInjective(i, j);
      assert false;
    }
  }

  /** Without mirror-3-dc all hosts are in one zone; and all have the one host configuration there is. */
  lemma OneZoneOtherwise(cr: Storage, i: nat)
    requires HostsOf(cr).Some? && i < |HostsOf(cr).value|
    ensures var host := HostsOf(cr).value[i];
            && (!cr.erasure.Mirror3DC? ==> host.dataCenter == "az-1") && host.hostConfigId == 1
  {
  }

  /** While it is paused, a Storage asks for no pods. */
  lemma PausedAsksForNone(cr: Storage, pod: string)
    requires cr.pause
    ensures !Requested(cr, pod)
  {
    if cr.nodeSets.Some? { FromNodeSetsAt(cr.name, cr.nodeSets.value, cr.pause); }
  }

  /** Hosts are numbered from 1 and hold pairwise distinct names. */
  lemma HostsAreDistinct(cr: Storage, i: nat, j: nat)
    requires HostsOf(cr).Some? && i < j < |HostsOf(cr).value|
    requires cr.nodeSets.Some? ==> DistinctNames(cr.nodeSets.value)
    ensures var hosts := HostsOf(cr).value;
            && hosts[i].host != hosts[j].host && hosts[i].nodeId == i + 1 && hosts[j].nodeId == j + 1
  {
    var hosts, names := HostsOf(cr).value, Overwritten(cr);
    if j < |names| {
      SetHostsDistinct(cr.name, cr.nodeSets.value, i, j);
    } else if hosts[i].host == hosts[j].host {
      if i < |names| {
        var k, ordinal := SetHostsAt(cr.name, cr.nodeSets.value, i);
        PodNameIsInjective(SetName(cr.name, cr.nodeSets.value[k].name), ordinal, cr.name, j);
        assert false;
      } else {
        PodNameIsInjective(cr.name, i, cr.name, j);
        assert false;
      }
    }
  }

  /** The names of the pods and hosts, spelled out. */
  lemma NamesSpelled(cr: Storage, k: nat, ordinal: nat)
    requires !cr.pause && HostsOf(cr).Some?
    ensures cr.nodeSets.None? && ordinal < Count(cr.nodes) ==>
              && Requested(cr, cr.name + "-" + Itoa(ordinal))
              && HostsOf(cr).value[ordinal].host == cr.name + "-" + Itoa(ordinal)
    ensures cr.nodeSets.Some? && k < |cr.nodeSets.value| && ordinal < Count(cr.nodeSets.value[k].nodes) ==>
              var pod := cr.name + "-" + cr.nodeSets.value[k].name + "-" + Itoa(ordinal);
              Requested(cr, pod) && Named(HostsOf(cr).value, pod)
  {
    if cr.nodeSets.None? && ordinal < Count(cr.nodes) {
      assert StatefulSets(cr)[0] == StatefulSet(cr.name, cr.nodes);
      assert Requested(cr, PodName(cr.name, ordinal));
    } else if cr.nodeSets.Some? && k < |cr.nodeSets.value| && ordinal < Count(cr.nodeSets.value[k].nodes) {
      var sets := cr.nodeSets.value;
      FromNodeSetsAt(cr.name, sets, cr.pause);
      assert StatefulSets(cr)[k] == StatefulSet(SetName(cr.name, sets[k].name), sets[k].nodes);
      assert Requested(cr, PodName(SetName(cr.name, sets[k].name), ordinal));
      var i := SetHostsHave(cr.name, sets, k, ordinal);
      assert HostsOf(cr).value[i].host == PodName(SetName(cr.name, sets[k].name), ordinal);
    }
  }

  lemma RequestedOfSets(cr: Storage, pod: string)
    requires cr.nodeSets.Some? && !cr.pause
    ensures Requested(cr, pod) <==> pod in SetHosts(cr.name, cr.nodeSets.value)
  {
    var sets := cr.nodeSets.value;
    FromNodeSetsAt(cr.name, sets, cr.pause);
    if Requested(cr, pod) {
      var k, ordinal: nat :| 0 <= k < |StatefulSets(cr)| && ordinal < Count(StatefulSets(cr)[k].replicas)
        && pod == PodName(StatefulSets(cr)[k].name, ordinal);
      var i := SetHostsHave(cr.name, sets, k, ordinal);
    }
    if pod in SetHosts(cr.name, sets) {
      var i :| 0 <= i < |SetHosts(cr.name, sets)| && SetHosts(cr.name, sets)[i] == pod;
      var k, ordinal := SetHostsAt(cr.name, sets, i);
      assert StatefulSets(cr)[k].name == SetName(cr.name, sets[k].name);
      assert ordinal < Count(StatefulSets(cr)[k].replicas);
    }
  }

  /** Generated hosts are the pods, without node sets: always. */
  lemma HostsAreThePodsOfOne(cr: Storage, pod: string)
    requires cr.nodeSets.None? && !cr.pause
    ensures HostsOf(cr).Some? && (Named(HostsOf(cr).value, pod) <==> Requested(cr, pod))
  {
    var hosts := HostsOf(cr).value;
    if Named(hosts, pod) {
      var i: nat :| i < |hosts| && hosts[i].host == pod;
      assert pod == PodName(StatefulSets(cr)[0].name, i);
    }
    if Requested(cr, pod) {
      var k, ordinal: nat :| 0 <= k < |StatefulSets(cr)| && ordinal < Count(StatefulSets(cr)[k].replicas)
        && pod == PodName(StatefulSets(cr)[k].name, ordinal);
      assert hosts[ordinal].host == pod;
    }
  }

  /** Generated hosts are the pods, with node sets: generation stays within the list and names exactly
      the pods requested, if and only if the node counts, negative ones taken as none, add up. */
  lemma HostsAreThePods(cr: Storage)
    requires cr.nodeSets.Some? && !cr.pause
    ensures (HostsOf(cr).Some? && forall pod :: Named(HostsOf(cr).value, pod) <==> Requested(cr, pod))
       <==> Total(cr.nodeSets.value) == Count(cr.nodes)
    ensures HostsOf(cr).None? <==> Total(cr.nodeSets.value) > Count(cr.nodes)
  {
    var sets := cr.nodeSets.value;
    var names := SetHosts(cr.name, sets);
    SetHostsTotal(cr.name, sets);
    if |names| == Count(cr.nodes) {
      var hosts := HostsOf(cr).value;
      forall pod ensures Named(hosts, pod) <==> Requested(cr, pod) {
        RequestedOfSets(cr, pod);
        if pod in names {
          var i :| 0 <= i < |names| && names[i] == pod;
          assert hosts[i].host == pod;
        }
      }
    } else if |names| < Count(cr.nodes) {
      LeftoverHost(cr);
    }
  }

  /** A host beyond the node sets keeps a name no pod has. */
  lemma LeftoverHost(cr: Storage)
    requires cr.nodeSets.Some? && !cr.pause && |SetHosts(cr.name, cr.nodeSets.value)| < Count(cr.nodes)
    ensures var pod := PodName(cr.name, |SetHosts(cr.name, cr.nodeSets.value)|);
            HostsOf(cr).Some? && Named(HostsOf(cr).value, pod) && !Requested(cr, pod)
  {
    var sets := cr.nodeSets.value;
    var names := SetHosts(cr.name, sets);
    var pod := PodName(cr.name, |names|);
    assert HostsOf(cr).value[|names|].host == pod;
    RequestedOfSets(cr, pod);
    if pod in names {
      var i :| 0 <= i < |names| && names[i] == pod;
      var k, ordinal := SetHostsAt(cr.name, sets, i);
      PodNameIsInjective(SetName(cr.name, sets[k].name), ordinal, cr.name, |names|);
      assert false;
    }
  }

  // ----- Admission -----

  const TWO_31 := 0x8000_0000
  const TWO_32 := 0x1_0000_0000

  predicate IsInt32(x: int) { -TWO_31 <= x < TWO_31 }

  /** Two's complement wrap-around. */
  function Wrap(x: int): (r: int)
    ensures IsInt32(r) && (IsInt32(x) ==> r == x)
  {
    (x + TWO_31) % TWO_32 - TWO_31
  }

  /** Defaulting: hosts are generated only if the configuration has none; none if that panics. */
  function Default(cr: Storage): Option<Storage> {
    if cr.configuration.hosts.Some? then Some(cr)
    else if HostsOf(cr).None? then None
    else Some(cr.(configuration := cr.configuration.(hosts := HostsOf(cr))))
  }

  method BuildConfiguration(cr: Storage) returns (r: Option<Configuration>)
    ensures r == if Default(cr).Some? then Some(Default(cr).value.configuration) else None
  {
    if cr.configuration.hosts.None? {
      var hosts := GenerateHosts(cr);
      if hosts.None? {
        return None;
      }
      return Some(cr.configuration.(hosts := hosts));
    }
    return Some(cr.configuration);
  }

  function MinNodes(erasure: Erasure): int {
    match erasure
    case Mirror3DC => 3
    case Block42 => 8
    case NoErasure => 1
    case Unlisted(_) => 0
  }

  function NodesNumber(cr: Storage): int {
    if cr.configuration.hosts.None? || cr.configuration.hosts.value == [] then cr.nodes
    else Wrap(|cr.configuration.hosts.value|)
  }

  function Sum(sets: seq<NodeSetInline>): int {
    if sets == [] then 0 else sets[0].nodes + Sum(sets[1..])
  }

  /** The checks of `ValidateCreate` on the number of nodes. */
  predicate ValidateCreate(cr: Storage) {
    && NodesNumber(cr) >= MinNodes(cr.erasure)
    && (cr.nodeSets.Some? ==> Wrap(Sum(cr.nodeSets.value)) == cr.nodes)
  }

  /** The checks of `ValidateUpdate` that bear on the nodes: with `operatorSync` off nothing else may change. */
  predicate ValidateUpdate(before: Storage, after: Storage) {
    && ValidateCreate(after)
    && (!after.operatorSync ==> after == before.(operatorSync := false))
  }

  /** What a Storage without node sets needs to be admitted: enough nodes for its erasure. */
  lemma AdmittedIffEnoughNodes(cr: Storage)
    requires cr.configuration.hosts.None? && cr.nodeSets.None? && IsInt32(cr.nodes)
    ensures Default(cr).Some?
    ensures ValidateCreate(Default(cr).value) <==>
            && cr.nodes >= 0
            && (cr.erasure.Mirror3DC? ==> cr.nodes >= 3)
            && (cr.erasure.Block42? ==> cr.nodes >= 8)
            && (cr.erasure.NoErasure? ==> cr.nodes >= 1)
  {
    assert |Default(cr).value.configuration.hosts.value| == Count(cr.nodes);
  }

  lemma WrapAdds(x: int, y: int)
    ensures Wrap(Wrap(x) + y) == Wrap(x + y)
  {
    var q := (x + TWO_31) / TWO_32;
    assert Wrap(x) + y == x + y - q * TWO_32;
    WrapPeriodic(x + y, q);
  }

  lemma WrapPeriodic(x: int, q: int)
    ensures Wrap(x - q * TWO_32) == Wrap(x)
  {
    var d := x + TWO_31;
    var r := d % TWO_32;
    assert d == (d / TWO_32) * TWO_32 + r;
    assert d - q * TWO_32 == (d / TWO_32 - q) * TWO_32 + r;
  }

  /** The counts of the node sets are added up in 32 bits. */
  method CountNodes(sets: seq<NodeSetInline>) returns (total: int)
    ensures total == Wrap(Sum(sets))
  {
    total := 0;
    for i := 0 to |sets|
      invariant Wrap(total + Sum(sets[i..])) == Wrap(Sum(sets)) && IsInt32(total)
    {
      assert sets[i..][0] == sets[i] && sets[i..][1..] == sets[i + 1..];
      WrapAdds(total + sets[i].nodes, Sum(sets[i + 1..]));
      total := Wrap(total + sets[i].nodes);
    }
    assert sets[|sets|..] == [];
  }

  lemma {:induction false} SumOfCounts(sets: seq<NodeSetInline>)
    requires forall i :: 0 <= i < |sets| ==> sets[i].nodes >= 0
    ensures Sum(sets) == Total(sets)
  {
    if sets != [] { SumOfCounts(sets[1..]); }
  }

  /** An admitted Storage with generated hosts: for non-negative counts the check in 32 bits is exact,
      so the hosts are the pods. */
  lemma AdmittedHostsAreThePods(cr: Storage)
    requires cr.configuration.hosts.None? && cr.nodeSets.Some? && !cr.pause && IsInt32(cr.nodes)
    requires forall i :: 0 <= i < |cr.nodeSets.value| ==> cr.nodeSets.value[i].nodes >= 0
    requires Default(cr).Some? && ValidateCreate(Default(cr).value)
    ensures Sum(cr.nodeSets.value) == cr.nodes
    ensures var hosts := Default(cr).value.configuration.hosts.value;
            |hosts| == cr.nodes && forall pod :: Named(hosts, pod) <==> Requested(cr, pod)
  {
    SumOfCounts(cr.nodeSets.value);
    HostsAreThePods(cr);
  }

  /** Without that assumption it is not: two negative counts that wrap around to the number of nodes
      are admitted, and the one host generated is no pod at all. */
  lemma WrappedCountsAreAdmitted(name: string, a: string, b: string, rest: string)
    ensures var cr := Storage(name, 1, NoErasure, Some([NodeSetInline(a, -TWO_31), NodeSetInline(b, 1 - TWO_31)]),
                              false, true, Configuration(None, rest));
            && Default(cr).Some? && ValidateCreate(Default(cr).value)
            && Named(Default(cr).value.configuration.hosts.value, PodName(name, 0)) && !Requested(cr, PodName(name, 0))
  {
    var sets := [NodeSetInline(a, -TWO_31), NodeSetInline(b, 1 - TWO_31)];
    assert sets[1..] == [sets[1]] && [sets[1]][1..] == [];
    assert Sum([]) == 0 && Total([]) == 0;
    assert Sum([sets[1]]) == 1 - TWO_31 + Sum([]) && Total([sets[1]]) == Count(1 - TWO_31) + Total([]);
    assert Sum(sets) == 1 - TWO_32 && Total(sets) == 0;
    SetHostsTotal(name, sets);
    LeftoverHost(Storage(name, 1, NoErasure, Some(sets), false, true, Configuration(None, rest)));
  }

  // ----- Zones -----

  function Zone(k: nat): string { "az-" + Itoa(k) }

  function ZoneCount(hosts: seq<Host>, zone: string): nat {
    if hosts == [] then 0
    else ZoneCount(hosts[..|hosts| - 1], zone) + (if hosts[|hosts| - 1].dataCenter == zone then 1 else 0)
  }

  lemma ZoneIsInjective(a: nat, b: nat)
    requires Zone(a) == Zone(b)
    ensures a == b
  {
    assert Itoa(a) == Zone(a)[3..] && Itoa(b) == Zone(b)[3..];
    ItoaIsInjective(a, b);
  }

  lemma OneMore(n: nat, k: nat)
    requires k < 3
    ensures (n + 3 - k) / 3 == (n + 2 - k) / 3 + (if n % 3 == k then 1 else 0)
  {
  }

  lemma {:induction false} ZoneCounts(hosts: seq<Host>, k: nat)
    requires k < 3 && forall i :: 0 <= i < |hosts| ==> hosts[i].dataCenter == Zone(i % 3)
    ensures ZoneCount(hosts, Zone(k)) == (|hosts| + 2 - k) / 3
    decreases |hosts|
  {
    if hosts != [] {
      var n := |hosts| - 1;
      ZoneCounts(hosts[..n], k);
      OneMore(n, k);
      assert hosts[n].dataCenter == Zone(k) <==> n % 3 == k by {
        if Zone(n % 3) == Zone(k) { ZoneIsInjective(n % 3, k); }
      }
    }
  }

  /** Zone balance: the hosts generated for mirror-3-dc are spread over the three zones evenly up to
      one, and a Storage admitted with generated hosts has at least one host in each. */
  lemma ZonesAreBalanced(cr: Storage, a: nat, b: nat)
    requires cr.erasure.Mirror3DC? && cr.configuration.hosts.None? && IsInt32(cr.nodes) && a < 3 && b < 3
    requires Default(cr).Some?
    ensures var hosts := Default(cr).value.configuration.hosts.value;
            && ZoneCount(hosts, Zone(a)) <= ZoneCount(hosts, Zone(b)) + 1
            && (ValidateCreate(Default(cr).value) ==> ZoneCount(hosts, Zone(a)) >= 1)
  {
    var hosts := Default(cr).value.configuration.hosts.value;
    ZoneCounts(hosts, a);
    ZoneCounts(hosts, b);
  }

  // ----- Edits -----

  /** An edit goes through defaulting and validation, and is dropped if either refuses it. */
  function Edited(cr: Storage, edit: Storage): (r: Storage)
    ensures r.name == cr.name
  {
    if edit.name != cr.name || Default(edit).None? || !ValidateUpdate(cr, Default(edit).value) then cr
    else Default(edit).value
  }

  /** Switching the operator off is accepted of an admitted Storage, and then no edit changes anything until
      one switches it on again. */
  lemma FrozenWhileOff(cr: Storage, edit: Storage)
    requires cr.configuration.hosts.Some? && ValidateCreate(cr)
    ensures Edited(cr, cr.(operatorSync := false)) == cr.(operatorSync := false)
    ensures !cr.operatorSync && !edit.operatorSync ==> Edited(cr, edit) == cr
  {
  }

  function AfterEdits(cr: Storage, edits: seq<Storage>): Storage
    decreases |edits|
  {
    if edits == [] then cr else Edited(AfterEdits(cr, edits[..|edits| - 1]), edits[|edits| - 1])
  }

  /** Hosts once in the configuration stay through every edit that carries the configuration on. */
  lemma {:induction false} HostsStay(cr: Storage, edits: seq<Storage>)
    requires cr.configuration.hosts.Some?
    requires forall i :: 0 <= i < |edits| ==> edits[i].configuration == cr.configuration
    ensures AfterEdits(cr, edits).configuration == cr.configuration
    decreases |edits|
  {
    if edits != [] { HostsStay(cr, edits[..|edits| - 1]); }
  }

  /** The replicas asked for under that name. */
  function ReplicasIn(statefulSets: seq<StatefulSet>, name: string): nat {
    if statefulSets == [] then 0
    else if statefulSets[0].name == name then Count(statefulSets[0].replicas)
    else ReplicasIn(statefulSets[1..], name)
  }

  function ReplicasOf(cr: Storage, name: string): nat { ReplicasIn(StatefulSets(cr), name) }

  lemma {:induction false} ReplicasAt(sets: seq<StatefulSet>, name: string, ordinal: nat)
    requires forall i, j :: 0 <= i < j < |sets| ==> sets[i].name != sets[j].name
    ensures ordinal < ReplicasIn(sets, name) <==>
            exists k :: 0 <= k < |sets| && sets[k].name == name && ordinal < Count(sets[k].replicas)
  {
    if sets != [] {
      ReplicasAt(sets[1..], name, ordinal);
      forall k | 0 < k < |sets| ensures sets[k] == sets[1..][k - 1] {}
      if k :| 0 <= k < |sets[1..]| && sets[1..][k].name == name && ordinal < Count(sets[1..][k].replicas) {
        assert sets[k + 1].name == name;
      }
    }
  }

  ghost predicate WellNamed(cr: Storage) { cr.nodeSets.Some? ==> DistinctNames(cr.nodeSets.value) }

  lemma RequestedIff(cr: Storage, name: string, ordinal: nat)
    requires WellNamed(cr)
    ensures Requested(cr, PodName(name, ordinal)) <==> ordinal < ReplicasOf(cr, name)
  {
    var all := StatefulSets(cr);
    if cr.nodeSets.Some? { FromNodeSetsAt(cr.name, cr.nodeSets.value, cr.pause); }
    forall i, j | 0 <= i < j < |all| ensures all[i].name != all[j].name {
      if all[i].name == all[j].name {
        SetNameIsInjective(cr.name, cr.nodeSets.value[i].name, cr.nodeSets.value[j].name);
        assert false;
      }
    }
    ReplicasAt(all, name, ordinal);
    if Requested(cr, PodName(name, ordinal)) {
      var k, i: nat :| 0 <= k < |all| && i < Count(all[k].replicas)
        && PodName(name, ordinal) == PodName(all[k].name, i);
      PodNameIsInjective(name, ordinal, all[k].name, i);
    }
  }

  /** Two Storages ask for the same pods exactly when they ask for as many replicas under every name. */
  lemma SamePodsIff(a: Storage, b: Storage)
    requires WellNamed(a) && WellNamed(b)
    ensures (forall pod :: Requested(a, pod) <==> Requested(b, pod))
       <==> (forall name :: ReplicasOf(a, name) == ReplicasOf(b, name))
  {
    if forall pod :: Requested(a, pod) <==> Requested(b, pod) {
      forall name ensures ReplicasOf(a, name) == ReplicasOf(b, name) {
        RequestedIff(a, name, ReplicasOf(a, name));
        RequestedIff(b, name, ReplicasOf(a, name));
        RequestedIff(a, name, ReplicasOf(b, name));
        RequestedIff(b, name, ReplicasOf(b, name));
      }
    } else {
      var pod :| Requested(a, pod) != Requested(b, pod);
      var name, ordinal := PodParts(if Requested(a, pod) then a else b, pod);
      RequestedIff(a, name, ordinal);
      RequestedIff(b, name, ordinal);
    }
  }

  lemma PodParts(cr: Storage, pod: string) returns (name: string, ordinal: nat)
    requires Requested(cr, pod)
    ensures pod == PodName(name, ordinal)
  {
    var k, i: nat :| 0 <= k < |StatefulSets(cr)| && i < Count(StatefulSets(cr)[k].replicas)
      && pod == PodName(StatefulSets(cr)[k].name, i);
    name, ordinal := StatefulSets(cr)[k].name, i;
  }

  /** Generated hosts do not follow edits: over any run of edits that carry the configuration on, whether
      or not the webhooks accept them, the stored hosts are the pods of the Storage then if and only if it
      asks for as many replicas under every name as when the hosts were generated. */
  lemma HostsFollowEditsIff(cr: Storage, edits: seq<Storage>)
    requires cr.configuration.hosts.None? && Default(cr).Some? && !cr.pause && WellNamed(cr)
    requires cr.nodeSets.Some? ==> Total(cr.nodeSets.value) == Count(cr.nodes)
    requires forall i :: 0 <= i < |edits| ==> edits[i].configuration == Default(cr).value.configuration
    requires WellNamed(AfterEdits(Default(cr).value, edits))
    ensures var after := AfterEdits(Default(cr).value, edits);
            && after.configuration.hosts == HostsOf(cr)
            && ((forall pod :: Named(HostsOf(cr).value, pod) <==> Requested(after, pod))
                <==> (forall name :: ReplicasOf(cr, name) == ReplicasOf(after, name)))
  {
    HostsStay(Default(cr).value, edits);
    if cr.nodeSets.Some? { HostsAreThePods(cr); } else { forall pod { HostsAreThePodsOfOne(cr, pod); } }
    SamePodsIff(cr, AfterEdits(Default(cr).value, edits));
  }

  /** Scaling is such an edit: it is accepted, and the added pod is no host. */
  lemma ScalingOutrunsTheHosts(name: string, rest: string)
    ensures var cr := Storage(name, 1, NoErasure, None, false, true, Configuration(None, rest));
            var stored := Default(cr).value;
            var scaled := Edited(stored, stored.(nodes := 2));
            && scaled.nodes == 2 && Requested(scaled, PodName(name, 1))
            && !Named(scaled.configuration.hosts.value, PodName(name, 1))
  {
    var cr := Storage(name, 1, NoErasure, None, false, true, Configuration(None, rest));
    var stored := Default(cr).value;
    var scaled := Edited(stored, stored.(nodes := 2));
    assert |stored.configuration.hosts.value| == 1;
    assert StatefulSets(scaled)[0] == StatefulSet(name, 2);
    HostsAreThePodsOfOne(cr, PodName(name, 1));
    RequestedIff(cr, name, 1);
    assert ReplicasOf(cr, name) == 1;
  }
}
