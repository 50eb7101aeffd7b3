/** What one reconciliation pass over a Storage may do, as a decision list over the persisted
    status, and how the world around the operator moves between passes.

    `Pass` is the reference the step-by-step reconciler in StorageReconciler is proved against;
    the properties of whole runs are proved about it in StorageSafety and StorageProgress. */
module StorageModel {
  import opened Wrappers
  import opened Conditions
  import opened Cms
  import opened Scaling
  import opened Stages

  /** A configuration is either static YAML or a versioned dynamic configuration. `payload` stands
      for the document, `valid` for the presence of its mandatory fields. */
  datatype Config = Static(payload: nat) | Dynamic(valid: bool, version: nat, payload: nat)

  datatype StorageSpec = StorageSpec(
    pause: bool, operatorSync: bool, nodes: int,
    nodeSets: Option<seq<NodeSetEntry>>, config: Config)

  datatype JobCondition = JobComplete | JobFailed | JobSuspended

  datatype Job = Job(succeeded: nat, failed: nat, backoffLimit: nat, conditions: seq<JobCondition>)

  /** A pod of the Job: whether it failed, and, if its log could be read, whether the log says that
      the storage had been initialized before. */
  datatype Pod = Pod(failed: bool, log: Option<bool>)

  /** One ReplaceConfig operation the CMS has taken: for which generation, with which configuration. */
  datatype ConfigOperation = ConfigOperation(generation: nat, config: Config, result: OpResult)

  /** The Storage object, the initialization Job and the CMS log. `past` are the superseded specs:
      the API server numbers specs from generation 1. The skip annotation is not part of the spec. */
  datatype World = World(
    past: seq<StorageSpec>, spec: StorageSpec, skipInit: bool,
    status: Status, job: Option<Job>, cms: seq<ConfigOperation>)
  {
    function Generation(): nat { |past| + 1 }

    function ConfigAt(generation: nat): Config {
      if 1 <= generation <= |past| then past[generation - 1].config else spec.config
    }
  }

  datatype LogCheck = LogError | NoMatch | AlreadyInitialized

  /** A failed pod whose log could not be read, or matches, decides. */
  predicate Decisive(p: Pod) { p.failed && p.log != Some(false) }

  /** `checkFailedJob`: the first decisive pod decides; without one there is no match. */
  function CheckLogs(pods: seq<Pod>): (r: LogCheck)
    ensures r.NoMatch? <==> forall i :: 0 <= i < |pods| ==> !Decisive(pods[i])
    ensures r.AlreadyInitialized? ==> Pod(true, Some(true)) in pods
    ensures forall i :: 0 <= i < |pods| && Decisive(pods[i]) && (forall j :: 0 <= j < i ==> !Decisive(pods[j]))
              ==> r == if pods[i].log.None? then LogError else AlreadyInitialized
  {
    assert pods != [] && Decisive(pods[0]) ==> exists i :: 0 <= i < |pods| && Decisive(pods[i]);
    if pods == [] then NoMatch
    else if !pods[0].failed then CheckLogs(pods[1..])
    else if pods[0].log.None? then LogError
    else if pods[0].log.value then AlreadyInitialized
    else CheckLogs(pods[1..])
  }

  function CheckFailedJob(pods: Option<seq<Pod>>): LogCheck {
    if pods.None? then LogError else CheckLogs(pods.value)
  }

  /** The answers the API server and the CMS give during one pass. Any of them may be a failure; a
      crash is the case where everything after some point fails. */
  datatype PassEnv = PassEnv(
    resourcesOk: bool, nodeSetsPrunedOk: bool,
    jobReadable: bool, jobCreated: bool, pods: Option<seq<Pod>>, jobDeleted: bool,
    credentials: bool, cmsVersion: Option<nat>, submission: Submission, poll: Poll,
    statefulSet: Lookup, nodeSets: map<NodeSetRef, NodeSetView>,
    statusWritten: bool)

  /** The calls of a pass that change something outside the operator, in order. */
  datatype Action =
    | SyncResources | CreateJob | DeleteJob
    | SubmitConfig(generation: nat, config: Config)
    | WriteStatus(status: Status)

  datatype Outcome = Outcome(status: Status, job: Option<Job>, cms: seq<ConfigOperation>, actions: seq<Action>)

  /** What a pass decides: what has become of the Job and of the CMS log, what was called, and what to persist. */
  datatype Plan = Plan(job: Option<Job>, cms: seq<ConfigOperation>, actions: seq<Action>, put: Option<Put>)

  const FRESH_JOB := Job(0, 0, 6, [])

  function NewStatus(w: World, put: Put): Status {
    Updated(STORAGE_STAGES, w.spec.pause, w.Generation(), w.status.conditions, put)
  }

  /** A plan takes effect; its status reaches the API server only if the write does. */
  function Commit(w: World, env: PassEnv, p: Plan): Outcome {
    if p.put.Some? && env.statusWritten then
      var status := NewStatus(w, p.put.value);
      Outcome(status, p.job, p.cms, p.actions + [WriteStatus(status)])
    else Outcome(w.status, p.job, p.cms, p.actions)
  }

  function Pass(w: World, env: PassEnv): Outcome { Commit(w, env, Decide(w, env)) }

  function Hold(w: World, actions: seq<Action>): Plan { Plan(w.job, w.cms, actions, None) }

  /** Persist one condition observed at the current generation, together with the state. */
  function Report(w: World, p: Plan, state: ClusterState, kind: ConditionType, status: ConditionStatus,
                  reason: Reason, message: Message): Plan {
    p.(put := Some(Put(state, Condition(kind, status, reason, w.Generation(), message))))
  }

  function Decide(w: World, env: PassEnv): Plan {
    var cs, state := w.status.conditions, w.status.state;
    var synced := Hold(w, [SyncResources]);
    if cs == [] then
      Report(w, Hold(w, []), state, if w.spec.pause then StoragePaused else StorageReady, Unknown, InProgress, Note)
    else if state.Pending? then
      Report(w, Hold(w, []), Preparing, StoragePrepared, Unknown, InProgress, Note)
    else if !w.spec.operatorSync then Hold(w, [])
    else if !env.resourcesOk || !env.nodeSetsPrunedOk then
      Report(w, synced, state, StoragePrepared, False, InProgress, Note)
    else if !Is(cs, StoragePrepared, True) then
      Report(w, synced, state, StoragePrepared, True, Completed, Note)
    else if !Is(cs, StorageInitialized, True) then DecideInitialization(w, env)
    else if ConfigStale(w) then DecideConfigStart(w, env)
    else if !Is(cs, ConfigurationSynced, True) then DecideConfigSync(w, env)
    else if state.Initializing? then
      Report(w, synced, Provisioning, StorageProvisioned, Unknown, InProgress, Note)
    else match Scaled(w.spec, env) {
      case Unread => synced
      case Lagging => Report(w, synced, state, StorageProvisioned, False, InProgress, Note)
      case Settled =>
        if !Is(cs, StorageProvisioned, True)
        then Report(w, synced, state, StorageProvisioned, True, Completed, Note)
        else DecidePause(w)
    }
  }

  function InitCompleted(w: World, p: Plan): Plan {
    Report(w, p, w.status.state, StorageInitialized, True, Completed, Note)
  }

  function DecideInitialization(w: World, env: PassEnv): Plan {
    var synced := Hold(w, [SyncResources]);
    if w.status.state.Preparing? then
      Report(w, synced, Initializing, StorageInitialized, Unknown, InProgress, Note)
    else if w.skipInit || Is(w.status.conditions, OLD_STORAGE_INITIALIZED, True) then InitCompleted(w, synced)
    else if !env.jobReadable then synced
    else match w.job {
      case None =>
        if env.jobCreated then Plan(Some(FRESH_JOB), w.cms, [SyncResources, CreateJob], None) else synced
      case Some(job) =>
        var gone := Plan(None, w.cms, [SyncResources, DeleteJob], None);
        if job.succeeded > 0 then InitCompleted(w, synced)
        else if CheckFailedJob(env.pods).LogError? then synced
        else if CheckFailedJob(env.pods).AlreadyInitialized? then
          (if env.jobDeleted then InitCompleted(w, gone) else synced)
        else if (job.failed == job.backoffLimit || JobFailed in job.conditions) && env.jobDeleted then
          Report(w, gone, w.status.state, StorageInitialized, False, InProgress, Empty)
        else synced
    }
  }

  predicate ConfigStale(w: World) {
    var c := Find(w.status.conditions, ConfigurationSynced);
    c.None? || c.value.observedGeneration < w.Generation()
  }

  function DecideConfigStart(w: World, env: PassEnv): Plan {
    var synced, state := Hold(w, [SyncResources]), w.status.state;
    match w.spec.config
    case Static(_) => Report(w, synced, state, ConfigurationSynced, True, NotRequired, Note)
    case Dynamic(_, version, _) =>
      if !env.credentials || env.cmsVersion.None? then synced
      else if env.cmsVersion.value > version then Report(w, synced, state, ConfigurationSynced, True, NotRequired, Note)
      else Report(w, synced, state, ConfigurationSynced, Unknown, InProgress, Note)
  }

  function DecideConfigSync(w: World, env: PassEnv): Plan {
    var synced := Hold(w, [SyncResources]);
    if w.spec.config.Static? || !w.spec.config.valid || !env.credentials then synced
    else if Polling(w) then DecidePoll(w, env)
    else if Submitting(w) then DecideSubmit(w, env)
    else Report(w, synced, w.status.state, ConfigurationSynced, True, Completed, Note)
  }

  /** An operation is recorded as running for the current generation. */
  predicate Polling(w: World) {
    IsAt(w.status.conditions, ReplaceConfigOperation, Unknown, w.Generation())
  }

  predicate Submitting(w: World) {
    var c := Find(w.status.conditions, ReplaceConfigOperation);
    c.None? || c.value.observedGeneration < w.Generation() || c.value.status.False?
  }

  function DecideSubmit(w: World, env: PassEnv): Plan {
    var asked := [SyncResources, SubmitConfig(w.Generation(), w.spec.config)];
    if env.submission.Refused? then Hold(w, asked)
    else
      var operation := ConfigOperation(w.Generation(), w.spec.config, env.submission.taken);
      var taken := Plan(w.job, w.cms + [operation], asked, None);
      var reply := ReplyTo(env.submission, |w.cms|);
      if reply.None? then taken else RecordReply(w, taken, reply.value)
  }

  function ReplyCondition(generation: nat, check: Check): Condition {
    if check.failed then Condition(ReplaceConfigOperation, False, Failed, generation, Note)
    else if !check.finished then Condition(ReplaceConfigOperation, Unknown, InProgress, generation, check.id)
    else Condition(ReplaceConfigOperation, True, Completed, generation, Note)
  }

  function RecordReply(w: World, p: Plan, check: Check): Plan {
    p.(put := Some(Put(w.status.state, ReplyCondition(w.Generation(), check))))
  }

  /** The result in the log of the operation a condition names. */
  function Logged(cms: seq<ConfigOperation>, id: Message): Option<OpResult> {
    if id.OperationId? && id.id < |cms| then Some(cms[id.id].result) else None
  }

  function DecidePoll(w: World, env: PassEnv): Plan
    requires Polling(w)
  {
    var synced := Hold(w, [SyncResources]);
    var id := Find(w.status.conditions, ReplaceConfigOperation).value.message;
    if id.Empty? then
      synced.(put := Some(Put(w.status.state, Condition(ReplaceConfigOperation, False, Failed, 0, Note))))
    else if env.poll.PollFailed? then synced
    else
      var check := CheckOperationStatus(PollReply(Logged(w.cms, id), id, env.poll));
      // A failed operation is noted in memory only: the status is not written.
      if check.failed then synced else RecordReply(w, synced, check)
  }

  function Scaled(spec: StorageSpec, env: PassEnv): Scale {
    ScaleOf(spec.nodes, spec.nodeSets, env.statefulSet, env.nodeSets)
  }

  function DecidePause(w: World): Plan {
    Hold(w, [SyncResources]).(put := PauseMove(STORAGE_STAGES, w.spec.pause, w.Generation(), w.status))
  }

  /** Everything that can happen to a Storage: a pass of its reconciler, or a change around it. */
  datatype Event =
    | Reconcile(env: PassEnv)
    | EditSpec(spec: StorageSpec)
    | Annotate(skipInit: bool)
    | JobProgress(job: Job)
    | OperationEnds(id: nat, code: StatusCode)

  function After(w: World, o: Outcome): World { w.(status := o.status, job := o.job, cms := o.cms) }

  function Step(w: World, e: Event): World {
    match e
    case Reconcile(env) => After(w, Pass(w, env))
    case EditSpec(spec) => if spec == w.spec then w else w.(past := w.past + [w.spec], spec := spec)
    case Annotate(skipInit) => w.(skipInit := skipInit)
    case JobProgress(job) => if w.job.Some? then w.(job := Some(job)) else w
    case OperationEnds(id, code) =>
      if id < |w.cms| && w.cms[id].result.Running?
      then w.(cms := w.cms[id := w.cms[id].(result := Finished(code))]) else w
  }

  function Run(w: World, events: seq<Event>): World
    decreases |events|
  {
    if events == [] then w else Step(Run(w, events[..|events| - 1]), events[|events| - 1])
  }

  /** A Storage that has just been created. */
  predicate Initial(w: World) {
    w.past == [] && w.status == Status(Pending, []) && w.job.None? && w.cms == []
  }
}
