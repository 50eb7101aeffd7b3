/** Status conditions and cluster states shared by every reconciler.

    A reconciler keeps no memory of its own between passes: everything it knows about its
    progress is the persisted `Status`, a state plus a list of typed conditions. */
module Conditions {
  import opened Wrappers

  datatype ClusterState = Pending | Preparing | Initializing | Provisioning | Ready | Paused

  datatype ConditionType =
    | StoragePrepared | StorageInitialized | StorageProvisioned | StoragePaused | StorageReady
    | ConfigurationSynced | ReplaceConfigOperation
    | DatabasePrepared | DatabaseInitialized | DatabaseProvisioned | DatabasePaused | DatabaseReady
    | CreateDatabaseOperation | TenantInitialized
    | NodeSetPrepared | NodeSetProvisioned | NodeSetReady | NodeSetPaused
    | ResourceSynced

  // Older releases reported initialization under a name that today means readiness.
  const OLD_STORAGE_INITIALIZED := StorageReady
  const OLD_DATABASE_INITIALIZED := TenantInitialized

  datatype ConditionStatus = True | False | Unknown

  datatype Reason = InProgress | NotRequired | Completed | Failed

  /** The part of a condition's message that the controllers read back: whether it is empty, and
      which operation it names. Human-readable text is `Note`. */
  datatype Message = Empty | OperationId(id: nat) | Note

  datatype Condition = Condition(
    kind: ConditionType, status: ConditionStatus, reason: Reason,
    observedGeneration: nat, message: Message)

  datatype Status = Status(state: ClusterState, conditions: seq<Condition>)

  /** The status a step wants to persist: a state and one condition. */
  datatype Put = Put(state: ClusterState, condition: Condition)

  /** Where the first condition of that type stands; the length of the list if there is none. */
  function IndexOf(cs: seq<Condition>, kind: ConditionType): (r: nat)
    ensures r <= |cs|
    ensures r < |cs| ==> cs[r].kind == kind
    ensures forall i :: 0 <= i < r ==> cs[i].kind != kind
  {
    if cs == [] then 0
    else if cs[0].kind == kind then 0
    else 1 + IndexOf(cs[1..], kind)
  }

  function Find(cs: seq<Condition>, kind: ConditionType): (r: Option<Condition>)
    ensures r.Some? ==> r.value.kind == kind
  {
    var i := IndexOf(cs, kind);
    if i < |cs| then Some(cs[i]) else None
  }

  predicate Is(cs: seq<Condition>, kind: ConditionType, status: ConditionStatus) {
    Find(cs, kind).Some? && Find(cs, kind).value.status == status
  }

  predicate IsAt(cs: seq<Condition>, kind: ConditionType, status: ConditionStatus, generation: nat) {
    Is(cs, kind, status) && Find(cs, kind).value.observedGeneration == generation
  }

  /** `meta.SetStatusCondition`: overwrite the condition of that type where it stands, or append it. */
  function SetStatusCondition(cs: seq<Condition>, c: Condition): (r: seq<Condition>)
    ensures Find(r, c.kind) == Some(c)
    ensures forall kind :: kind != c.kind ==> Find(r, kind) == Find(cs, kind)
    ensures r != []
  {
    var i := IndexOf(cs, c.kind);
    var r := if i < |cs| then cs[i := c] else cs + [c];
    assert r[i] == c && forall j :: 0 <= j < i ==> r[j].kind != c.kind;
    assert IndexOf(r, c.kind) == i;
    assert forall kind :: kind != c.kind ==> Find(r, kind) == Find(cs, kind) by {
      forall kind | kind != c.kind ensures Find(r, kind) == Find(cs, kind) { OtherTypesStay(cs, c, kind); }
    }
    r
  }

  lemma OtherTypesStay(cs: seq<Condition>, c: Condition, kind: ConditionType)
    requires kind != c.kind
    ensures var i := IndexOf(cs, c.kind);
            Find(if i < |cs| then cs[i := c] else cs + [c], kind) == Find(cs, kind)
  {
    var i := IndexOf(cs, c.kind);
    var r := if i < |cs| then cs[i := c] else cs + [c];
    var k := IndexOf(cs, kind);
    var k' := IndexOf(r, kind);
    assert forall j :: 0 <= j < |cs| ==> r[j].kind == cs[j].kind;
    if k < |cs| { assert k == k'; } else { assert k' == |r|; }
  }

  ghost predicate DistinctTypes(cs: seq<Condition>) {
    forall i, j :: 0 <= i < j < |cs| ==> cs[i].kind != cs[j].kind
  }

  /** A condition type is never listed twice, and the types already listed keep their places. */
  lemma SetKeepsTheList(cs: seq<Condition>, c: Condition)
    ensures var r := SetStatusCondition(cs, c);
            && (DistinctTypes(cs) ==> DistinctTypes(r))
            && |cs| <= |r| <= |cs| + 1
            && (|r| == |cs| <==> Find(cs, c.kind).Some?)
            && forall i :: 0 <= i < |cs| ==> r[i].kind == cs[i].kind
  {
  }
}
