/** What the status of every kind of object has in common: the stages it reports, readiness taken back
    while a stage is unmet, and the moves between running and paused. */
module Stages {
  import opened Wrappers
  import opened Conditions

  /** The condition types one kind of object reports with. A node set has no initialization of its own. */
  datatype StageTypes = StageTypes(
    prepared: ConditionType, initialized: Option<ConditionType>, provisioned: ConditionType,
    ready: ConditionType, paused: ConditionType)
  {
    function Goal(pause: bool): ConditionType { if pause then paused else ready }
  }

  const STORAGE_STAGES :=
    StageTypes(StoragePrepared, Some(StorageInitialized), StorageProvisioned, StorageReady, StoragePaused)
  const DATABASE_STAGES :=
    StageTypes(DatabasePrepared, Some(DatabaseInitialized), DatabaseProvisioned, DatabaseReady, DatabasePaused)
  const NODE_SET_STAGES :=
    StageTypes(NodeSetPrepared, None, NodeSetProvisioned, NodeSetReady, NodeSetPaused)

  /** `updateStatus`: an unmet stage also takes readiness (or the pause) back. */
  function Demote(t: StageTypes, pause: bool, generation: nat, cs: seq<Condition>): seq<Condition> {
    if Is(cs, t.prepared, False) || (t.initialized.Some? && Is(cs, t.initialized.value, False))
       || Is(cs, t.provisioned, False)
    then SetStatusCondition(cs, Condition(t.Goal(pause), False, InProgress, generation, Empty))
    else cs
  }

  function Updated(t: StageTypes, pause: bool, generation: nat, cs: seq<Condition>, put: Put): Status {
    Status(put.state, Demote(t, pause, generation, SetStatusCondition(cs, put.condition)))
  }

  /** A write leaves the condition put and those that were there, readiness and the pause apart. */
  lemma UpdatedFinds(t: StageTypes, pause: bool, generation: nat, cs: seq<Condition>, put: Put, kind: ConditionType)
    requires kind != t.ready && kind != t.paused
    ensures Find(Updated(t, pause, generation, cs, put).conditions, kind)
         == if kind == put.condition.kind then Some(put.condition) else Find(cs, kind)
  {
  }

  /** The stages that are reported unmet. */
  predicate Unmet(t: StageTypes, cs: seq<Condition>) {
    || Is(cs, t.prepared, False) || Is(cs, t.provisioned, False)
    || (t.initialized.Some? && Is(cs, t.initialized.value, False))
  }

  /** Readiness and the pause are no stages themselves. */
  predicate Apart(t: StageTypes) {
    && t.ready !in {t.prepared, t.provisioned} && t.paused !in {t.prepared, t.provisioned}
    && (t.initialized.Some? ==> t.initialized.value !in {t.ready, t.paused})
  }

  /** A status that is written reports readiness, or the pause, false whenever it reports a stage unmet, and
      changes nothing but the condition put otherwise. */
  lemma UnmetTakesBack(t: StageTypes, pause: bool, generation: nat, cs: seq<Condition>, put: Put)
    requires Apart(t)
    ensures var s := Updated(t, pause, generation, cs, put);
            var goal := if pause then t.paused else t.ready;
            && s.state == put.state
            && (Unmet(t, s.conditions) ==>
                  Find(s.conditions, goal) == Some(Condition(goal, False, InProgress, generation, Empty)))
            && (!Unmet(t, s.conditions) ==> forall kind ::
                  Find(s.conditions, kind)
                    == if kind == put.condition.kind then Some(put.condition) else Find(cs, kind))
  {
  }

  /** `handlePauseResume`: what it puts, if anything. */
  function PauseMove(t: StageTypes, pause: bool, generation: nat, status: Status): Option<Put> {
    var state, goal := status.state, t.Goal(pause);
    if state.Provisioning? then
      Some(Put(if pause then Paused else Ready, Condition(goal, True, Completed, generation, Empty)))
    else if state.Ready? && pause then Some(Put(Paused, Condition(t.ready, False, NotRequired, generation, Note)))
    else if state.Paused? && !pause then Some(Put(Ready, Condition(t.paused, False, NotRequired, generation, Note)))
    else if !Is(status.conditions, goal, True) then
      Some(Put(state, Condition(goal, True, Completed, generation, Empty)))
    else None
  }

  /** The status after the pause step, if it writes. */
  function PauseStep(t: StageTypes, pause: bool, generation: nat, status: Status): Status {
    var put := PauseMove(t, pause, generation, status);
    if put.Some? then Updated(t, pause, generation, status.conditions, put.value) else status
  }

  /** Past the wait, with no stage unmet: from Provisioning the object goes to the state asked for and says
      so; between Ready and Paused it first takes back the one it leaves; and otherwise it stays, and says
      that it is as asked. */
  lemma PauseStepReports(t: StageTypes, pause: bool, generation: nat, status: Status)
    requires Apart(t) && t.ready != t.paused && !Unmet(t, status.conditions)
    ensures var s := PauseStep(t, pause, generation, status);
            var goal, left := if pause then t.paused else t.ready, if pause then t.ready else t.paused;
            var arrived := if pause then Paused else Ready;
            if status.state.Provisioning? then
              && s.state == arrived
              && Find(s.conditions, goal) == Some(Condition(goal, True, Completed, generation, Empty))
            else if status.state == (if pause then Ready else Paused) then
              && s.state == arrived
              && Find(s.conditions, left) == Some(Condition(left, False, NotRequired, generation, Note))
            else s.state == status.state && Is(s.conditions, goal, True)
  {
    var put := PauseMove(t, pause, generation, status);
    if put.Some? { UnmetTakesBack(t, pause, generation, status.conditions, put.value); }
  }
}
